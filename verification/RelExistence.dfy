/** get_rel_exists, which trusts the size cache, says what the relation directory says. */
module RelExistence {
  import opened Options
  import opened Keys
  import opened KeyLayout
  import opened Snapshots
  import opened Timelines
  import opened Modifications
  import opened FlushNeutrality
  import opened RelSizeCache

  predicate ListedIn(dir: Option<Val>, rel: RelTag) {
    dir.Some? && dir.value.RelDirectory? && ForkOf(rel) in dir.value.rels
  }

  predicate ListedAt(store: Store, rel: RelTag, lsn: Lsn) {
    ListedIn(Get(store, DirKey(DbOf(rel)), lsn), rel)
  }

  predicate ListedNow(s: State, rel: RelTag) {
    ListedIn(View(s, DirKey(DbOf(rel))), rel)
  }

  ghost predicate ListedSince(store: Store, rel: RelTag, since: Lsn, until: Lsn) {
    forall l: Lsn :: since <= l <= until ==> ListedAt(store, rel, l)
  }

  /** A cached relation has been listed since the LSN it is cached for, and still is. */
  ghost predicate EntryListed(s: State, rel: RelTag)
    requires rel in s.tl.cache
  {
    ListedSince(s.tl.store, rel, s.tl.cache[rel].0, s.tl.lastLsn) && ListedNow(s, rel)
  }

  /** Only the modification's own drops take relations off the list. */
  predicate StillListed(s: State, rel: RelTag) {
    ListedAt(s.tl.store, rel, s.tl.lastLsn) && !DroppedHere(s, rel) ==> ListedNow(s, rel)
  }

  ghost predicate RelOk(s: State, rel: RelTag) {
    (rel in s.tl.cache ==> EntryListed(s, rel)) && StillListed(s, rel)
  }

  ghost predicate ExistOk(s: State) {
    CacheOk(s) && forall rel :: RelOk(s, rel)
  }

  predicate DbListed(dbdir: Option<Val>, db: Db) {
    dbdir.Some? && dbdir.value.DbDirectory? && db in dbdir.value.dbdirs
  }

  predicate ListsNothing(dir: Option<Val>) {
    dir.Some? && dir.value.RelDirectory? ==> dir.value.rels == {}
  }

  /** No relations are left over in the directory of a database that is not listed. */
  predicate NoLeftovers(s: State, db: Db) {
    DbListed(View(s, DBDIR_KEY), db) || ListsNothing(View(s, DirKey(db)))
  }

  /** Relations are resized while they are listed, and read with `latest` when they are listed; a listed
      relation that is dropped has a readable size; a database that is set up anew starts without
      leftovers; the drop of a database goes through its directory. */
  ghost predicate ExistGuard(s: State, op: Op) {
    && Guard(s, op)
    && (op.Truncate? || op.Extend? ==> ListedNow(s, op.rel))
    && (op.Drop? && ListedNow(s, op.rel) ==> SizeAt(Viewed(s), RelSizeToKey(op.rel)).Some?)
    && (op.ReadSize? && op.latest ==> ListedAt(s.tl.store, op.rel, s.tl.lastLsn) || MayBeMissing(op.rel))
    && (op.Create? ==> NoLeftovers(s, DbOf(op.rel)))
    && (op.PutRelmap? ==> NoLeftovers(s, op.db))
    && (op.DropDb? ==> GoesThrough(s, op))
  }

  /** The main result: at or below the last record the answer is what the directory says. */
  lemma ExistsIsListed(s: State, rel: RelTag, lsn: Lsn)
    requires ExistOk(s) && lsn <= s.tl.lastLsn && rel.relnode != 0 && RelsOf(At(s.tl.store, lsn), DbOf(rel)).Some?
    ensures RelExists(s.tl.store, s.tl.cache, rel, lsn) == Some(ListedAt(s.tl.store, rel, lsn))
  {
    assert RelOk(s, rel);
  }

  // --- what a plan does to one relation

  function After(s: State, plan: Plan, key: Key): Option<Val> {
    if key in plan.puts then Some(plan.puts[key]) else View(s, key)
  }

  /** The plan takes a relation off the list only with its cache entry and a record of the drop, and
      caches only what is listed. */
  predicate KeepsListing(s: State, plan: Plan, rel: RelTag) {
    var now := ListedIn(After(s, plan, DirKey(DbOf(rel))), rel);
    && (ListedNow(s, rel) && !now ==> rel !in plan.cache && rel.forknum < 0xff && RelKeyRange(rel) in plan.deletes)
    && (rel in plan.cache && (rel !in s.tl.cache || plan.cache[rel] != s.tl.cache[rel]) ==>
          && now
          && ((plan.cache[rel].0 == s.m.lsn && s.tl.lastLsn < s.m.lsn) ||
              (plan.cache[rel].0 == s.tl.lastLsn && ListedAt(s.tl.store, rel, s.tl.lastLsn))))
  }

  lemma ListingKept(s: State, plan: Plan, rel: RelTag)
    requires RelOk(s, rel) && KeepsListing(s, plan, rel)
    ensures RelOk(Apply(s, plan), rel)
  {
    ViewAfter(s, plan, DirKey(DbOf(rel)));
  }

  lemma CreateKeepsListing(s: State, op: Op, rel: RelTag)
    requires RelOk(s, rel) && op.Create? && ExistGuard(s, op)
    ensures KeepsListing(s, PlanOf(s, op), rel)
  {
  }

  lemma ResizeKeepsListing(s: State, op: Op, rel: RelTag)
    requires RelOk(s, rel) && (op.Truncate? || op.Extend?) && ExistGuard(s, op)
    ensures KeepsListing(s, PlanOf(s, op), rel)
  {
  }

  lemma DropKeepsListing(s: State, op: Op, rel: RelTag)
    requires RelOk(s, rel) && op.Drop? && ExistGuard(s, op)
    ensures KeepsListing(s, PlanOf(s, op), rel)
  {
  }

  lemma PutKeepsListing(s: State, op: Op, rel: RelTag)
    requires RelOk(s, rel) && (op.PutPage? || op.PutSlruPage? || op.PutRelmap?) && ExistGuard(s, op)
    ensures KeepsListing(s, PlanOf(s, op), rel)
  {
  }

  lemma ReadKeepsListing(s: State, op: Op, rel: RelTag)
    requires RelOk(s, rel) && op.ReadSize? && ExistGuard(s, op)
    ensures KeepsListing(s, PlanOf(s, op), rel)
  {
  }

  /** What the reads of a database drop cache is listed. */
  lemma {:induction false} SumKeepsListing(s: State, order: seq<RelTag>, rel: RelTag)
    requires forall i :: 0 <= i < |order| ==> ListedAt(s.tl.store, order[i], s.tl.lastLsn)
    ensures var cache := SumRelSizes(s.tl.store, s.tl.cache, order, s.tl.lastLsn).1;
            || ((rel in cache <==> rel in s.tl.cache) && (rel in cache ==> cache[rel] == s.tl.cache[rel]))
            || (rel in cache && cache[rel].0 == s.tl.lastLsn && ListedAt(s.tl.store, rel, s.tl.lastLsn) && rel in order)
    decreases |order|
  {
    if order != [] { SumKeepsListing(s, order[..|order| - 1], rel); }
  }

  lemma EnumeratedIsListed(s: State, op: Op)
    requires op.DropDb? && GoesThrough(s, op) && RelsOf(At(s.tl.store, s.tl.lastLsn), op.db).Some?
    ensures forall i :: 0 <= i < |op.order| ==> ListedAt(s.tl.store, op.order[i], s.tl.lastLsn)
  {
  }

  /** The drop of a database touches no relation directory, and caches what it reads. */
  lemma DropDbShape(s: State, op: Op)
    requires op.DropDb?
    ensures forall db :: DirKey(db) !in PlanOf(s, op).puts
    ensures PlanOf(s, op).cache == if RelsOf(At(s.tl.store, s.tl.lastLsn), op.db).None? then s.tl.cache
                                   else SumRelSizes(s.tl.store, s.tl.cache, op.order, s.tl.lastLsn).1
  {
  }

  lemma StillListedIfRead(s: State, op: Op, rel: RelTag)
    requires RelOk(s, rel) && op.DropDb? && Guard(s, op) && rel in op.order
    ensures ListedAt(s.tl.store, rel, s.tl.lastLsn) ==> ListedNow(s, rel)
  {
    var i :| 0 <= i < |op.order| && op.order[i] == rel;
  }

  lemma CachedOnlyListed(s: State, plan: Plan, rel: RelTag)
    requires DirKey(DbOf(rel)) !in plan.puts
    requires || ((rel in plan.cache <==> rel in s.tl.cache)
                 && (rel in plan.cache ==> plan.cache[rel] == s.tl.cache[rel]))
             || (rel in plan.cache && plan.cache[rel].0 == s.tl.lastLsn
                 && ListedAt(s.tl.store, rel, s.tl.lastLsn) && ListedNow(s, rel))
    ensures KeepsListing(s, plan, rel)
  {
  }

  lemma DropDbKeepsListing(s: State, op: Op, rel: RelTag)
    requires RelOk(s, rel) && op.DropDb? && ExistGuard(s, op)
    ensures KeepsListing(s, PlanOf(s, op), rel)
  {
    DropDbShape(s, op);
    if RelsOf(At(s.tl.store, s.tl.lastLsn), op.db).Some? {
      EnumeratedIsListed(s, op);
      SumKeepsListing(s, op.order, rel);
      if rel in op.order { StillListedIfRead(s, op, rel); }
    }
    CachedOnlyListed(s, PlanOf(s, op), rel);
  }

  lemma PerformKeepsExist(s: State, op: Op)
    requires ExistOk(s) && ExistGuard(s, op)
    ensures ExistOk(Perform(s, op))
  {
    PerformKeepsCache(s, op);
    forall rel: RelTag ensures RelOk(Perform(s, op), rel) {
      assert RelOk(s, rel);
      if op.Create? {
        CreateKeepsListing(s, op, rel);
      } else if op.Truncate? || op.Extend? {
        ResizeKeepsListing(s, op, rel);
      } else if op.Drop? {
        DropKeepsListing(s, op, rel);
      } else if op.ReadSize? {
        ReadKeepsListing(s, op, rel);
      } else if op.DropDb? {
        DropDbKeepsListing(s, op, rel);
      } else {
        PutKeepsListing(s, op, rel);
      }
      ListingKept(s, PlanOf(s, op), rel);
    }
  }

  // --- flush, commit, the next modification

  lemma FlushKeepsRel(s: State, f: State, rel: RelTag)
    requires Alike(s, f) && RelOk(s, rel)
    ensures RelOk(f, rel)
  {
    var key := DirKey(DbOf(rel));
    AlikeView(s, f, key);
    AlikeBelow(s, f, key, s.tl.lastLsn);
    if rel in s.tl.cache {
      var since := s.tl.cache[rel].0;
      forall l: Lsn | since <= l <= s.tl.lastLsn ensures ListedAt(f.tl.store, rel, l) {
        assert ListedAt(s.tl.store, rel, l);
        AlikeBelow(s, f, key, l);
      }
    }
  }

  lemma CommitKeepsListed(s: State, rel: RelTag, l: Lsn)
    requires Ordered(s) && s.tl.lastLsn < s.m.lsn && rel in s.tl.cache && EntryListed(s, rel)
    requires s.tl.cache[rel].0 <= l <= s.m.lsn && (s.tl.cache[rel].0 <= s.tl.lastLsn || s.tl.cache[rel].0 == s.m.lsn)
    ensures ListedAt(Pending(s), rel, l)
  {
    var key := DirKey(DbOf(rel));
    if l == s.m.lsn {
      ViewIsPending(s, key);
    } else {
      GetBelowWritten(s.tl.store, s.m.updates, s.m.lsn, key, l);
      if l > s.tl.lastLsn {
        GetStays(s.tl.store, key, s.tl.lastLsn, l);
        assert ListedAt(s.tl.store, rel, s.tl.lastLsn);
      } else {
        assert ListedAt(s.tl.store, rel, l);
      }
    }
  }

  lemma CommitKeepsRel(s: State, rel: RelTag)
    requires CacheOk(s) && s.tl.lastLsn < s.m.lsn && RelOk(s, rel)
    ensures RelOk(Commit(s), rel)
  {
    var c := Commit(s);
    ViewIsPending(s, DirKey(DbOf(rel)));
    if rel in s.tl.cache {
      assert EntryOk(s, rel);
      forall l: Lsn | s.tl.cache[rel].0 <= l <= c.tl.lastLsn ensures ListedAt(c.tl.store, rel, l) {
        CommitKeepsListed(s, rel, l);
      }
    }
  }

  lemma BeginKeepsRel(s: State, lsn: Lsn, rel: RelTag)
    requires Ordered(s) && Committed(s) && s.tl.lastLsn < lsn && RelOk(s, rel)
    ensures RelOk(Begin(s.tl, lsn), rel)
  {
    GetStays(s.tl.store, DirKey(DbOf(rel)), s.tl.lastLsn, lsn);
  }

  ghost predicate ExistAllowed(s: State, a: Action) {
    Allowed(s, a) && (a.Do? ==> ExistGuard(s, a.op))
  }

  lemma ActKeepsExist(s: State, a: Action)
    requires ExistOk(s) && ExistAllowed(s, a)
    ensures ExistOk(Act(s, a))
  {
    if a.Do? {
      PerformKeepsExist(s, a.op);
    } else {
      ActKeepsCache(s, a);
      forall rel: RelTag ensures RelOk(Act(s, a), rel) {
        assert RelOk(s, rel);
        if a.FlushNow? {
          FlushAlike(s, s);
          FlushKeepsRel(s, Flush(s), rel);
        } else if a.CommitNow? {
          CommitKeepsRel(s, rel);
        } else {
          BeginKeepsRel(s, a.lsn, rel);
        }
      }
    }
  }

  ghost predicate AllExistAllowed(s: State, actions: seq<Action>) {
    actions == [] ||
    (AllExistAllowed(s, actions[..|actions| - 1])
     && ExistAllowed(Run(s, actions[..|actions| - 1]), actions[|actions| - 1]))
  }

  lemma {:induction false} RunKeepsExist(s: State, actions: seq<Action>)
    requires ExistOk(s) && AllExistAllowed(s, actions)
    ensures ExistOk(Run(s, actions))
  {
    if actions != [] {
      RunKeepsExist(s, actions[..|actions| - 1]);
      ActKeepsExist(Run(s, actions[..|actions| - 1]), actions[|actions| - 1]);
    }
  }

  /** Over every such run, get_rel_exists at or below the last record agrees with the directory. */
  lemma ExistenceAgrees(s: State, actions: seq<Action>, rel: RelTag, lsn: Lsn)
    requires ExistOk(s) && AllExistAllowed(s, actions) && rel.relnode != 0
    requires lsn <= Run(s, actions).tl.lastLsn && RelsOf(At(Run(s, actions).tl.store, lsn), DbOf(rel)).Some?
    ensures var tl := Run(s, actions).tl; RelExists(tl.store, tl.cache, rel, lsn) == Some(ListedAt(tl.store, rel, lsn))
  {
    RunKeepsExist(s, actions);
    ExistsIsListed(Run(s, actions), rel, lsn);
  }

  /** A timeline nobody has read from yet is a state to start such runs from. */
  lemma StartIsOk(tl: Timeline)
    requires tl.cache == map[] && forall k, l :: (k, l) in tl.store ==> l <= tl.lastLsn
    ensures ExistOk(Begin(tl, tl.lastLsn))
  {
  }

  // --- what the drop of a database leaves behind

  lemma ListedReadCaches(store: Store, cache: Cache, rel: RelTag, lsn: Lsn)
    requires ListedAt(store, rel, lsn) && GetRelSize(store, cache, rel, lsn, true).0.Some?
    ensures rel in GetRelSize(store, cache, rel, lsn, true).1
    ensures cache.Keys <= GetRelSize(store, cache, rel, lsn, true).1.Keys
  {
  }

  /** Counting a database caches every relation it goes through. */
  lemma {:induction false} CountCaches(store: Store, cache: Cache, order: seq<RelTag>, lsn: Lsn)
    requires forall i :: 0 <= i < |order| ==> ListedAt(store, order[i], lsn)
    requires SumRelSizes(store, cache, order, lsn).0.Some?
    ensures var cache' := SumRelSizes(store, cache, order, lsn).1;
            cache.Keys <= cache'.Keys && forall i :: 0 <= i < |order| ==> order[i] in cache'
    decreases |order|
  {
    if order != [] {
      var before, rel := order[..|order| - 1], order[|order| - 1];
      CountCaches(store, cache, before, lsn);
      ListedReadCaches(store, SumRelSizes(store, cache, before, lsn).1, rel, lsn);
    }
  }

  /** The drop of a database is carried out, having gone through its directory. */
  ghost predicate DropsDb(s: State, op: Op) {
    CacheOk(s) && op.DropDb? && Guard(s, op) && GoesThrough(s, op) && PlanOf(s, op).error.None?
  }

  lemma CachedByDrop(s: State, op: Op, rel: RelTag)
    requires DropsDb(s, op) && DbOf(rel) == op.db
    ensures rel in PlanOf(s, op).cache <==> rel in s.tl.cache || ListedAt(s.tl.store, rel, s.tl.lastLsn)
  {
    EnumeratedIsListed(s, op);
    CountCaches(s.tl.store, s.tl.cache, op.order, s.tl.lastLsn);
    SumKeepsListing(s, op.order, rel);
    if ListedAt(s.tl.store, rel, s.tl.lastLsn) { assert Rel(op.db, ForkOf(rel)) == rel; }
  }

  /** A cached relation is answered for at the LSN that is about to be committed. */
  lemma CachedIsHit(s: State, rel: RelTag)
    requires CacheOk(s) && rel in s.tl.cache
    ensures CachedRelSize(s.tl.cache, rel, s.m.lsn).Some?
  {
    assert EntryOk(s, rel);
  }

  /** Once the modification is committed, what is cached exists, and what it lists. */
  lemma CommittedAnswer(s: State, rel: RelTag)
    requires CacheOk(s) && s.tl.lastLsn < s.m.lsn && rel.relnode != 0
    ensures var end := Commit(s).tl;
            RelExists(end.store, end.cache, rel, end.lastLsn) == Some(true) <==> rel in s.tl.cache || ListedNow(s, rel)
  {
    if rel in s.tl.cache { CachedIsHit(s, rel); }
    ViewIsPending(s, DirKey(DbOf(rel)));
  }

  /** After the drop of a database get_rel_exists still says that a relation of it exists if and only if
      the relation was cached, or listed at the last record, or listed by the modification. */
  lemma DroppedDbAnswers(s: State, op: Op, rel: RelTag)
    requires DropsDb(s, op) && rel.relnode != 0 && DbOf(rel) == op.db
    ensures var end := Commit(Perform(s, op)).tl;
            RelExists(end.store, end.cache, rel, end.lastLsn) == Some(true) <==>
            rel in s.tl.cache || ListedAt(s.tl.store, rel, s.tl.lastLsn) || ListedNow(s, rel)
  {
    PerformKeepsCache(s, op);
    CachedByDrop(s, op, rel);
    ViewAfter(s, PlanOf(s, op), DirKey(op.db));
    CommittedAnswer(Perform(s, op), rel);
  }

  lemma DroppedDbIsUnlisted(s: State, op: Op, lsn: Lsn)
    requires DropsDb(s, op) && lsn > s.m.lsn
    ensures var next := Begin(Commit(Perform(s, op)).tl, lsn);
            !DbListed(View(next, DBDIR_KEY), op.db)
            && View(next, DBDIR_KEY).Some? && View(next, DBDIR_KEY).value.DbDirectory?
  {
    var after := Perform(s, op);
    PerformKeepsCache(s, op);
    ViewAfter(s, PlanOf(s, op), DBDIR_KEY);
    ViewIsPending(after, DBDIR_KEY);
    CommitKeepsCache(after);
    GetStays(Commit(after).tl.store, DBDIR_KEY, after.m.lsn, lsn);
  }

  /** What a creation puts into the directory and the cache, when it succeeds. */
  lemma CreateShape(s: State, rel: RelTag, n: u32)
    requires CreateIn(s, rel, n).error.None?
    ensures var plan, key := CreateIn(s, rel, n), DirKey(DbOf(rel));
            && rel.relnode != 0 && plan.cache == s.tl.cache[rel := (s.m.lsn, n)]
            && key in plan.puts && plan.puts[key].RelDirectory?
            && forall r :: r in plan.puts[key].rels <==>
                 r == ForkOf(rel)
                 || (DbListed(View(s, DBDIR_KEY), DbOf(rel)) && ListedIn(View(s, key), Rel(DbOf(rel), r)))
  {
  }

  /** What is listed once the creation is committed. */
  lemma CreateLists(s: State, created: RelTag, n: u32, rel: RelTag)
    requires CreateIn(s, created, n).error.None? && s.tl.lastLsn < s.m.lsn && DbOf(rel) == DbOf(created)
    ensures var end := Commit(Apply(s, CreateIn(s, created, n))).tl;
            && RelsOf(At(end.store, end.lastLsn), DbOf(rel)).Some?
            && (ListedAt(end.store, rel, end.lastLsn) <==>
                  rel == created || (DbListed(View(s, DBDIR_KEY), DbOf(rel)) && ListedNow(s, rel)))
  {
    var plan, key := CreateIn(s, created, n), DirKey(DbOf(rel));
    CreateShape(s, created, n);
    ViewAfter(s, plan, key);
    ViewIsPending(Apply(s, plan), key);
    assert rel == Rel(DbOf(rel), ForkOf(rel)) && created == Rel(DbOf(rel), ForkOf(created));
  }

  /** A creation in a database that is not listed takes the cached relations of it off the list. */
  lemma LostByCreate(s: State, created: RelTag, n: u32, rel: RelTag)
    requires s.tl.lastLsn < s.m.lsn && CreateIn(s, created, n).error.None?
             && !DbListed(View(s, DBDIR_KEY), DbOf(created))
    requires DbOf(rel) == DbOf(created) && rel != created && rel.relnode != 0
    requires rel in s.tl.cache && s.tl.cache[rel].0 <= s.m.lsn
    ensures var end := Commit(Apply(s, CreateIn(s, created, n))).tl;
            && RelExists(end.store, end.cache, rel, end.lastLsn) == Some(true)
            && RelsOf(At(end.store, end.lastLsn), DbOf(rel)).Some? && !ListedAt(end.store, rel, end.lastLsn)
  {
    CreateShape(s, created, n);
    CreateLists(s, created, n, rel);
  }

  /** Where get_rel_exists and the directory part: a database is dropped, and the next modification
      creates a relation in it. Its old relations are listed no more, and exist by the cache. */
  lemma CreateAfterDropDb(s: State, op: Op, rel: RelTag, other: RelTag, n: u32, lsn: Lsn)
    requires DropsDb(s, op) && lsn > s.m.lsn
    requires DbOf(rel) == DbOf(other) == op.db && rel != other && rel.relnode != 0 && other.relnode != 0
    requires rel in s.tl.cache || ListedAt(s.tl.store, rel, s.tl.lastLsn)
    ensures var next := Begin(Commit(Perform(s, op)).tl, lsn);
            var end := Commit(Perform(next, Create(other, n))).tl;
            && RelExists(end.store, end.cache, rel, end.lastLsn) == Some(true)
            && RelsOf(At(end.store, end.lastLsn), op.db).Some? && !ListedAt(end.store, rel, end.lastLsn)
  {
    var after := Perform(s, op);
    PerformKeepsCache(s, op);
    CachedByDrop(s, op, rel);
    CachedIsHit(after, rel);
    DroppedDbIsUnlisted(s, op, lsn);
    LostByCreate(Begin(Commit(after).tl, lsn), other, n, rel);
  }

  /** The relation is cached and belongs to the database of another that is being created. */
  predicate CachedBeside(s: State, created: RelTag, rel: RelTag) {
    rel.relnode != 0 && DbOf(rel) == DbOf(created) && rel != created && rel in s.tl.cache
  }

  /** get_rel_exists agrees with the directory about the relation, once the creation is committed. */
  predicate AgreesAfter(s: State, created: RelTag, n: u32, rel: RelTag) {
    var end := Commit(Apply(s, CreateIn(s, created, n))).tl;
    RelExists(end.store, end.cache, rel, end.lastLsn) == Some(ListedAt(end.store, rel, end.lastLsn))
  }

  lemma CreateAnswers(s: State, created: RelTag, n: u32, rel: RelTag)
    requires ExistOk(s) && s.tl.lastLsn < s.m.lsn && CreateIn(s, created, n).error.None?
    requires rel.relnode != 0 && DbOf(rel) == DbOf(created)
    ensures AgreesAfter(s, created, n, rel) <==>
            DbListed(View(s, DBDIR_KEY), DbOf(created)) || !CachedBeside(s, created, rel)
  {
    CreateShape(s, created, n);
    CreateLists(s, created, n, rel);
    if rel in s.tl.cache { CachedIsHit(s, rel); }
    assert RelOk(s, rel);
  }

  /** A creation leaves get_rel_exists in agreement with the directory of the database if and only if
      the database is listed, or no other relation of it is cached. */
  lemma CreateAgreesIff(s: State, created: RelTag, n: u32)
    requires ExistOk(s) && s.tl.lastLsn < s.m.lsn && CreateIn(s, created, n).error.None?
    ensures (forall rel: RelTag :: rel.relnode != 0 && DbOf(rel) == DbOf(created) ==>
               AgreesAfter(s, created, n, rel)) <==>
            DbListed(View(s, DBDIR_KEY), DbOf(created)) || forall rel :: !CachedBeside(s, created, rel)
  {
    forall rel: RelTag | rel.relnode != 0 && DbOf(rel) == DbOf(created)
      ensures AgreesAfter(s, created, n, rel) <==>
              DbListed(View(s, DBDIR_KEY), DbOf(created)) || !CachedBeside(s, created, rel)
    {
      CreateAnswers(s, created, n, rel);
    }
  }

  // --- what resizing a relation that is not listed does

  /** get_rel_exists says that the relation exists exactly when the directory lists it. */
  predicate AgreesAt(tl: Timeline, rel: RelTag) {
    RelExists(tl.store, tl.cache, rel, tl.lastLsn) == Some(true) <==> ListedAt(tl.store, rel, tl.lastLsn)
  }

  /** The operation stores a size, and caches it: the extension finds a smaller size in the view, the
      truncation one of a relation that exists at the last record. */
  predicate Resizes(s: State, op: Op)
    requires op.Truncate? || op.Extend?
  {
    var size := SizeAt(Viewed(s), RelSizeToKey(op.rel));
    && size.Some?
    && if op.Extend? then size.value < op.nblocks
       else RelExists(s.tl.store, s.tl.cache, op.rel, s.tl.lastLsn) == Some(true)
  }

  lemma ResizeShape(s: State, op: Op)
    requires (op.Truncate? || op.Extend?) && op.rel.relnode != 0
    ensures var plan := PlanOf(s, op);
            && plan.cache == (if Resizes(s, op) then s.tl.cache[op.rel := (s.m.lsn, op.nblocks)] else s.tl.cache)
            && forall db :: DirKey(db) !in plan.puts
  {
  }

  lemma ListingStays(s: State, op: Op, rel: RelTag)
    requires (op.Truncate? || op.Extend?) && op.rel.relnode != 0
    ensures ListedNow(Perform(s, op), rel) <==> ListedNow(s, rel)
  {
    ResizeShape(s, op);
    ViewAfter(s, PlanOf(s, op), DirKey(DbOf(rel)));
  }

  lemma ResizeAnswers(s: State, op: Op, rel: RelTag)
    requires ExistOk(s) && s.tl.lastLsn < s.m.lsn && (op.Truncate? || op.Extend?)
    requires op.rel.relnode != 0 && rel.relnode != 0
    ensures AgreesAt(Commit(Perform(s, op)).tl, rel) <==> rel != op.rel || ListedNow(s, rel) || !Resizes(s, op)
  {
    var after := Perform(s, op);
    PerformKeepsCache(s, op);
    ResizeShape(s, op);
    ListingStays(s, op, rel);
    CommittedAnswer(after, rel);
    ViewIsPending(after, DirKey(DbOf(rel)));
    assert RelOk(s, rel);
  }

  /** Truncating or extending leaves get_rel_exists in agreement with the directory if and only if the
      relation is listed, or no size is stored for it. */
  lemma ResizeAgreesIff(s: State, op: Op)
    requires ExistOk(s) && s.tl.lastLsn < s.m.lsn && (op.Truncate? || op.Extend?) && op.rel.relnode != 0
    ensures (forall rel: RelTag :: rel.relnode != 0 ==> AgreesAt(Commit(Perform(s, op)).tl, rel)) <==>
            ListedNow(s, op.rel) || !Resizes(s, op)
  {
    forall rel: RelTag | rel.relnode != 0
      ensures AgreesAt(Commit(Perform(s, op)).tl, rel) <==> rel != op.rel || ListedNow(s, rel) || !Resizes(s, op)
    {
      ResizeAnswers(s, op, rel);
    }
  }

  lemma DropUnlists(s: State, rel: RelTag)
    requires rel.relnode != 0 && rel.forknum < 0xff && ListedNow(s, rel)
    requires SizeAt(Viewed(s), RelSizeToKey(rel)).Some?
    ensures var dropped := Perform(s, Drop(rel));
            && !ListedNow(dropped, rel) && dropped.m.lsn == s.m.lsn && dropped.tl.lastLsn == s.tl.lastLsn
            && SizeAt(Viewed(dropped), RelSizeToKey(rel)) == SizeAt(Viewed(s), RelSizeToKey(rel))
  {
  }

  /** A drop and an extension in one modification: the relation exists by the cache and is not listed. */
  lemma ExtendAfterDrop(s: State, rel: RelTag, n: u32)
    requires ExistOk(s) && s.tl.lastLsn < s.m.lsn && rel.relnode != 0 && rel.forknum < 0xff && ListedNow(s, rel)
    requires SizeAt(Viewed(s), RelSizeToKey(rel)).Some? && SizeAt(Viewed(s), RelSizeToKey(rel)).value < n
    ensures var end := Commit(Perform(Perform(s, Drop(rel)), Extend(rel, n))).tl;
            RelExists(end.store, end.cache, rel, end.lastLsn) == Some(true) && !ListedAt(end.store, rel, end.lastLsn)
  {
    var dropped := Perform(s, Drop(rel));
    PerformKeepsExist(s, Drop(rel));
    DropUnlists(s, rel);
    ResizeAnswers(dropped, Extend(rel, n), rel);
    PerformKeepsCache(dropped, Extend(rel, n));
    ListingStays(dropped, Extend(rel, n), rel);
    ViewIsPending(Perform(dropped, Extend(rel, n)), DirKey(DbOf(rel)));
  }

  // --- what a read of a dropped relation leaves behind

  /** A pending drop, a latest read, the commit: the relation exists by the cache and is not listed. */
  lemma ReadAfterPendingDropExists(s: State, rel: RelTag, n: u32)
    requires s.tl.lastLsn < s.m.lsn && rel.relnode != 0 && rel.forknum < 0xff && ListedNow(s, rel)
    requires SizeAt(Viewed(s), RelSizeToKey(rel)).Some? && ListedAt(s.tl.store, rel, s.tl.lastLsn)
    requires SizeAt(At(s.tl.store, s.tl.lastLsn), RelSizeToKey(rel)) == Some(n)
    ensures var end := Commit(Perform(Perform(s, Drop(rel)), ReadSize(rel, s.tl.lastLsn, true))).tl;
            && RelExists(end.store, end.cache, rel, end.lastLsn) == Some(true)
            && RelsOf(At(end.store, end.lastLsn), DbOf(rel)).Some? && !ListedAt(end.store, rel, end.lastLsn)
  {
    var dropped := Perform(s, Drop(rel));
    assert rel !in dropped.tl.cache && !ListedNow(dropped, rel);
    var read := Perform(dropped, ReadSize(rel, s.tl.lastLsn, true));
    assert read.tl.cache == dropped.tl.cache[rel := (s.tl.lastLsn, n)];
    assert View(read, DirKey(DbOf(rel))) == View(dropped, DirKey(DbOf(rel)));
    ViewIsPending(read, DirKey(DbOf(rel)));
  }
}
