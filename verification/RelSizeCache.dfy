/** A hit in the relation size cache is the size the store has at the requested LSN. */
module RelSizeCache {
  import opened Options
  import opened Keys
  import opened KeyLayout
  import opened Snapshots
  import opened Timelines
  import opened Modifications
  import opened FlushNeutrality

  /** The relation's size as the modification sees it. */
  function ViewSize(s: State, rel: RelTag): Option<Val> {
    View(s, RelSizeToKey(rel))
  }

  /** Versions above the last record are those of the open modification. */
  ghost predicate Ordered(s: State) {
    && s.tl.lastLsn <= s.m.lsn && (s.tl.lastLsn == s.m.lsn ==> s.m.updates == map[])
    && forall k, l :: (k, l) in s.tl.store ==> l <= s.tl.lastLsn || l == s.m.lsn
  }

  /** The relation has had this size from one LSN to another. */
  ghost predicate SizeSince(store: Store, rel: RelTag, since: Lsn, until: Lsn, n: u32) {
    forall l: Lsn :: since <= l <= until ==> Get(store, RelSizeToKey(rel), l) == Some(NBlocks(n))
  }

  /** A cached size has been the stored size since the LSN it is cached for, and is not to change. */
  ghost predicate EntryOk(s: State, rel: RelTag)
    requires rel in s.tl.cache
  {
    var since, n := s.tl.cache[rel].0, s.tl.cache[rel].1;
    && (since <= s.tl.lastLsn || since == s.m.lsn)
    && SizeSince(s.tl.store, rel, since, s.tl.lastLsn, n)
    && ViewSize(s, rel) == Some(NBlocks(n))
  }

  /** The modification has given the relation a size. */
  predicate Touched(s: State, rel: RelTag) {
    RelSizeToKey(rel) in s.m.updates || (s.tl.lastLsn < s.m.lsn && (RelSizeToKey(rel), s.m.lsn) in s.tl.store)
  }

  /** The modification has dropped the relation. */
  predicate DroppedHere(s: State, rel: RelTag) {
    rel.forknum < 0xff && RelKeyRange(rel) in s.m.deletions
  }

  predicate TouchedOk(s: State, rel: RelTag) {
    Touched(s, rel) ==> (rel in s.tl.cache && s.tl.cache[rel].0 == s.m.lsn) || DroppedHere(s, rel)
  }

  ghost predicate CacheOk(s: State) {
    && Ordered(s)
    && (forall rel :: rel in s.tl.cache ==> EntryOk(s, rel))
    && (forall rel :: TouchedOk(s, rel))
  }

  /** What the callers of the operations see to. */
  predicate Guard(s: State, op: Op) {
    && (!op.ReadSize? ==> s.tl.lastLsn < s.m.lsn)
    && (op.ReadSize? && op.latest ==> op.lsn == s.tl.lastLsn && !DroppedHere(s, op.rel))
    && (op.DropDb? ==> forall i :: 0 <= i < |op.order| ==> !DroppedHere(s, op.order[i]))
    && (op.PutPage? ==> op.blknum != SIZE_BLOCK)
    && (op.Drop? ==> op.rel.forknum != 0xff)
  }

  /** The main result: whatever the cache answers at or below the last record is stored there. */
  lemma HitIsStored(s: State, rel: RelTag, lsn: Lsn)
    requires CacheOk(s) && lsn <= s.tl.lastLsn && CachedRelSize(s.tl.cache, rel, lsn).Some?
    ensures SizeAt(At(s.tl.store, lsn), RelSizeToKey(rel)) == CachedRelSize(s.tl.cache, rel, lsn)
  {
    assert EntryOk(s, rel);
  }

  // --- what a plan does to one relation's entry

  /** The plan's effect on the size and the cache entry of one relation. */
  predicate Harmless(s: State, plan: Plan, rel: RelTag) {
    var key := RelSizeToKey(rel);
    if key in plan.puts then
      rel in plan.cache && plan.cache[rel].0 == s.m.lsn && plan.puts[key] == NBlocks(plan.cache[rel].1)
    else if rel in plan.cache then
      || (rel in s.tl.cache && plan.cache[rel] == s.tl.cache[rel])
      || (!Touched(s, rel) && plan.cache[rel].0 == s.tl.lastLsn &&
          Get(s.tl.store, key, s.tl.lastLsn) == Some(NBlocks(plan.cache[rel].1)))
    else rel !in s.tl.cache || (rel.forknum < 0xff && RelKeyRange(rel) in plan.deletes)
  }

  /** An untouched size is the one at the last record. */
  lemma UntouchedSize(s: State, rel: RelTag)
    requires Ordered(s) && !Touched(s, rel)
    ensures ViewSize(s, rel) == Get(s.tl.store, RelSizeToKey(rel), s.tl.lastLsn)
  {
    GetStays(s.tl.store, RelSizeToKey(rel), s.tl.lastLsn, s.m.lsn);
  }

  lemma HarmlessKeepsEntry(s: State, plan: Plan, rel: RelTag)
    requires Ordered(s) && Harmless(s, plan, rel) && (s.tl.lastLsn < s.m.lsn || plan.puts == map[])
    requires TouchedOk(s, rel) && (rel in s.tl.cache ==> EntryOk(s, rel))
    ensures TouchedOk(Apply(s, plan), rel) && (rel in plan.cache ==> EntryOk(Apply(s, plan), rel))
  {
    ViewAfter(s, plan, RelSizeToKey(rel));
    if !Touched(s, rel) { UntouchedSize(s, rel); }
  }

  lemma HarmlessKeepsCache(s: State, plan: Plan)
    requires CacheOk(s) && (s.tl.lastLsn < s.m.lsn || plan.puts == map[]) && forall rel :: Harmless(s, plan, rel)
    ensures CacheOk(Apply(s, plan))
  {
    forall rel: RelTag
      ensures TouchedOk(Apply(s, plan), rel) && (rel in plan.cache ==> EntryOk(Apply(s, plan), rel))
    {
      assert Harmless(s, plan, rel) && TouchedOk(s, rel);
      HarmlessKeepsEntry(s, plan, rel);
    }
  }

  // --- every operation is harmless

  /** Reading with `latest` at the last record made this cache from the state's. */
  ghost predicate ReadCache(s: State, cache: Cache) {
    forall rel :: Harmless(s, Nothing(cache), rel)
  }

  lemma ReadIsHarmless(s: State, cache: Cache, rel: RelTag)
    requires CacheOk(s) && ReadCache(s, cache) && !DroppedHere(s, rel)
    ensures ReadCache(s, GetRelSize(s.tl.store, cache, rel, s.tl.lastLsn, true).1)
  {
    var read := GetRelSize(s.tl.store, cache, rel, s.tl.lastLsn, true).1;
    assert TouchedOk(s, rel) && Harmless(s, Nothing(cache), rel);
    forall other: RelTag ensures Harmless(s, Nothing(read), other) {
      assert Harmless(s, Nothing(cache), other);
    }
  }

  lemma {:induction false} ReadsAreHarmless(s: State, order: seq<RelTag>)
    requires CacheOk(s) && forall i :: 0 <= i < |order| ==> !DroppedHere(s, order[i])
    ensures ReadCache(s, SumRelSizes(s.tl.store, s.tl.cache, order, s.tl.lastLsn).1)
  {
    if order != [] {
      var n := |order| - 1;
      ReadsAreHarmless(s, order[..n]);
      ReadIsHarmless(s, SumRelSizes(s.tl.store, s.tl.cache, order[..n], s.tl.lastLsn).1, order[n]);
    }
  }

  lemma ResizesAreHarmless(s: State, op: Op, rel: RelTag)
    requires op.Create? || op.Truncate? || op.Extend?
    ensures Harmless(s, PlanOf(s, op), rel)
  {
  }

  lemma PutsAreHarmless(s: State, op: Op, rel: RelTag)
    requires Guard(s, op) && (op.Drop? || op.PutPage? || op.PutSlruPage? || op.PutRelmap?)
    ensures Harmless(s, PlanOf(s, op), rel)
  {
  }

  lemma DropDbIsHarmless(s: State, op: Op, rel: RelTag)
    requires CacheOk(s) && Guard(s, op) && op.DropDb?
    ensures Harmless(s, PlanOf(s, op), rel)
  {
    ReadsAreHarmless(s, op.order);
    var cache := SumRelSizes(s.tl.store, s.tl.cache, op.order, s.tl.lastLsn).1;
    assert Harmless(s, Nothing(cache), rel);
  }

  lemma ReadSizeIsHarmless(s: State, op: Op, rel: RelTag)
    requires CacheOk(s) && Guard(s, op) && op.ReadSize?
    ensures Harmless(s, PlanOf(s, op), rel)
  {
    if op.latest {
      assert ReadCache(s, s.tl.cache);
      ReadIsHarmless(s, s.tl.cache, op.rel);
    }
  }

  lemma PerformKeepsCache(s: State, op: Op)
    requires CacheOk(s) && Guard(s, op)
    ensures CacheOk(Perform(s, op))
  {
    forall rel: RelTag ensures Harmless(s, PlanOf(s, op), rel) {
      if op.ReadSize? {
        ReadSizeIsHarmless(s, op, rel);
      } else if op.DropDb? {
        DropDbIsHarmless(s, op, rel);
      } else if op.Create? || op.Truncate? || op.Extend? {
        ResizesAreHarmless(s, op, rel);
      } else {
        PutsAreHarmless(s, op, rel);
      }
    }
    HarmlessKeepsCache(s, PlanOf(s, op));
  }

  // --- flush, commit, the next modification

  lemma FlushKeepsEntry(s: State, f: State, rel: RelTag)
    requires Alike(s, f) && rel in s.tl.cache && EntryOk(s, rel)
    ensures EntryOk(f, rel)
  {
    AlikeView(s, f, RelSizeToKey(rel));
    var since, n := s.tl.cache[rel].0, s.tl.cache[rel].1;
    forall l: Lsn | since <= l <= s.tl.lastLsn ensures Get(f.tl.store, RelSizeToKey(rel), l) == Some(NBlocks(n)) {
      AlikeBelow(s, f, RelSizeToKey(rel), l);
    }
  }

  lemma FlushKeepsCache(s: State)
    requires CacheOk(s) && s.tl.lastLsn < s.m.lsn
    ensures CacheOk(Flush(s))
  {
    var f := Flush(s);
    FlushAlike(s, s);
    forall rel | rel in f.tl.cache ensures EntryOk(f, rel) { FlushKeepsEntry(s, f, rel); }
    forall rel: RelTag ensures TouchedOk(f, rel) { assert TouchedOk(s, rel); }
  }

  lemma CommitKeepsEntry(s: State, rel: RelTag, l: Lsn)
    requires Ordered(s) && s.tl.lastLsn < s.m.lsn && rel in s.tl.cache && EntryOk(s, rel)
    requires s.tl.cache[rel].0 <= l <= s.m.lsn
    ensures Get(Pending(s), RelSizeToKey(rel), l) == Some(NBlocks(s.tl.cache[rel].1))
  {
    var key := RelSizeToKey(rel);
    if l == s.m.lsn {
      ViewIsPending(s, key);
    } else {
      GetBelowWritten(s.tl.store, s.m.updates, s.m.lsn, key, l);
      if l > s.tl.lastLsn { GetStays(s.tl.store, key, s.tl.lastLsn, l); }
    }
  }

  lemma CommitKeepsCache(s: State)
    requires CacheOk(s) && s.tl.lastLsn < s.m.lsn
    ensures CacheOk(Commit(s))
  {
    var c := Commit(s);
    forall rel | rel in c.tl.cache ensures EntryOk(c, rel) {
      assert EntryOk(s, rel);
      forall l | c.tl.cache[rel].0 <= l <= c.tl.lastLsn
        ensures Get(c.tl.store, RelSizeToKey(rel), l) == Some(NBlocks(c.tl.cache[rel].1))
      {
        CommitKeepsEntry(s, rel, l);
      }
      CommitKeepsEntry(s, rel, c.tl.lastLsn);
    }
  }

  /** Nothing is pending: the last modification was committed. */
  predicate Committed(s: State) {
    s == Begin(s.tl, s.tl.lastLsn)
  }

  lemma BeginKeepsCache(s: State, lsn: Lsn)
    requires CacheOk(s) && Committed(s) && s.tl.lastLsn < lsn
    ensures CacheOk(Begin(s.tl, lsn))
  {
    var b := Begin(s.tl, lsn);
    forall rel | rel in b.tl.cache ensures EntryOk(b, rel) {
      assert EntryOk(s, rel);
      GetStays(s.tl.store, RelSizeToKey(rel), s.tl.lastLsn, lsn);
    }
  }

  // --- whole runs

  datatype Action = Do(op: Op) | FlushNow | CommitNow | BeginAt(lsn: Lsn)

  function Act(s: State, a: Action): State {
    match a
    case Do(op) => Perform(s, op)
    case FlushNow => Flush(s)
    case CommitNow => Commit(s)
    case BeginAt(lsn) => Begin(s.tl, lsn)
  }

  /** Modifications are committed one at a time, at increasing LSNs. */
  predicate Allowed(s: State, a: Action) {
    match a
    case Do(op) => Guard(s, op)
    case FlushNow => s.tl.lastLsn < s.m.lsn
    case CommitNow => s.tl.lastLsn < s.m.lsn
    case BeginAt(lsn) => Committed(s) && s.tl.lastLsn < lsn
  }

  function Run(s: State, actions: seq<Action>): State {
    if actions == [] then s else Act(Run(s, actions[..|actions| - 1]), actions[|actions| - 1])
  }

  predicate AllAllowed(s: State, actions: seq<Action>) {
    actions == [] ||
    (AllAllowed(s, actions[..|actions| - 1]) && Allowed(Run(s, actions[..|actions| - 1]), actions[|actions| - 1]))
  }

  lemma ActKeepsCache(s: State, a: Action)
    requires CacheOk(s) && Allowed(s, a)
    ensures CacheOk(Act(s, a))
  {
    match a
    case Do(op) => PerformKeepsCache(s, op);
    case FlushNow => FlushKeepsCache(s);
    case CommitNow => CommitKeepsCache(s);
    case BeginAt(lsn) => BeginKeepsCache(s, lsn);
  }

  lemma {:induction false} RunKeepsCache(s: State, actions: seq<Action>)
    requires CacheOk(s) && AllAllowed(s, actions)
    ensures CacheOk(Run(s, actions))
  {
    if actions != [] {
      RunKeepsCache(s, actions[..|actions| - 1]);
      ActKeepsCache(Run(s, actions[..|actions| - 1]), actions[|actions| - 1]);
    }
  }

  /** Over every run from a committed timeline with an empty cache, every hit at or below the last
      record is the stored size. */
  lemma CacheAgrees(tl: Timeline, actions: seq<Action>, rel: RelTag, lsn: Lsn)
    requires tl.cache == map[] && forall k, l :: (k, l) in tl.store ==> l <= tl.lastLsn
    requires AllAllowed(Begin(tl, tl.lastLsn), actions)
    ensures var end := Run(Begin(tl, tl.lastLsn), actions).tl;
            var hit := CachedRelSize(end.cache, rel, lsn);
            hit.Some? && lsn <= end.lastLsn ==> SizeAt(At(end.store, lsn), RelSizeToKey(rel)) == hit
  {
    var s := Begin(tl, tl.lastLsn);
    RunKeepsCache(s, actions);
    var end := Run(s, actions);
    if CachedRelSize(end.tl.cache, rel, lsn).Some? && lsn <= end.tl.lastLsn { HitIsStored(end, rel, lsn); }
  }

  // --- why the callers' care is needed

  /** What the cache answers for the relation at the last record, if anything, is stored there. */
  predicate HitAgrees(tl: Timeline, rel: RelTag) {
    var hit := CachedRelSize(tl.cache, rel, tl.lastLsn);
    hit.Some? ==> SizeAt(At(tl.store, tl.lastLsn), RelSizeToKey(rel)) == hit
  }

  /** A latest read at the last record finds a size there. */
  predicate FoundAtLast(s: State, rel: RelTag) {
    && SizeAt(At(s.tl.store, s.tl.lastLsn), RelSizeToKey(rel)).Some?
    && (MayBeMissing(rel) ==> RelExists(s.tl.store, s.tl.cache, rel, s.tl.lastLsn) == Some(true))
  }

  /** The modification has given the relation another size than it has at the last record, and has
      dropped it, so that the cache does not know it. */
  predicate ResizedAndDropped(s: State, rel: RelTag) {
    && rel !in s.tl.cache && Touched(s, rel) && DroppedHere(s, rel)
    && ViewSize(s, rel) != Get(s.tl.store, RelSizeToKey(rel), s.tl.lastLsn)
  }

  /** A latest read caches what it finds, and changes no entry. */
  lemma CacheAfterRead(s: State, rel: RelTag)
    requires rel.relnode != 0
    ensures var size := SizeAt(At(s.tl.store, s.tl.lastLsn), RelSizeToKey(rel));
            GetRelSize(s.tl.store, s.tl.cache, rel, s.tl.lastLsn, true).1 ==
            if rel !in s.tl.cache && FoundAtLast(s, rel) then s.tl.cache[rel := (s.tl.lastLsn, size.value)]
            else s.tl.cache
  {
  }

  /** What the committed timeline answers for the relation, if the modification leaves this cache. */
  lemma CommittedHit(s: State, cache: Cache, rel: RelTag)
    requires s.tl.lastLsn < s.m.lsn && (rel in cache ==> cache[rel].0 <= s.m.lsn)
    ensures HitAgrees(Commit(s.(tl := s.tl.(cache := cache))).tl, rel) <==>
            (rel in cache ==> ViewSize(s, rel) == Some(NBlocks(cache[rel].1)))
  {
    ViewIsPending(s, RelSizeToKey(rel));
  }

  /** After a latest read and the commit the cache answers with the stored size, unless the read found a
      relation that the modification had resized and dropped. */
  lemma ReadAgreesIff(s: State, rel: RelTag)
    requires CacheOk(s) && s.tl.lastLsn < s.m.lsn && rel.relnode != 0
    ensures HitAgrees(Commit(Perform(s, ReadSize(rel, s.tl.lastLsn, true))).tl, rel) <==>
            !(ResizedAndDropped(s, rel) && FoundAtLast(s, rel))
  {
    var cache := GetRelSize(s.tl.store, s.tl.cache, rel, s.tl.lastLsn, true).1;
    assert Perform(s, ReadSize(rel, s.tl.lastLsn, true)) == s.(tl := s.tl.(cache := cache));
    CacheAfterRead(s, rel);
    if rel in s.tl.cache { assert EntryOk(s, rel); }
    CommittedHit(s, cache, rel);
    assert TouchedOk(s, rel);
    if !Touched(s, rel) { UntouchedSize(s, rel); }
  }

  /** The state of a relation that is extended and then dropped in one modification. */
  lemma ExtendedAndDropped(s: State, rel: RelTag, more: u32)
    requires rel.relnode != 0 && rel.forknum < 0xff && RelsOf(Viewed(s), DbOf(rel)).Some?
    requires ViewSize(s, rel).Some? && ViewSize(s, rel).value.NBlocks? && ViewSize(s, rel).value.nblocks < more
    ensures var dropped := Perform(Perform(s, Extend(rel, more)), Drop(rel));
            ViewSize(dropped, rel) == Some(NBlocks(more)) && rel !in dropped.tl.cache &&
            dropped.tl.store == s.tl.store && dropped.tl.lastLsn == s.tl.lastLsn && dropped.m.lsn == s.m.lsn
  {
    var extended := Perform(s, Extend(rel, more));
    assert View(extended, DirKey(DbOf(rel))) == View(s, DirKey(DbOf(rel)));
  }

  lemma StaleAfterRead(s: State, rel: RelTag, n: u32, more: u32)
    requires s.tl.lastLsn < s.m.lsn && rel.relnode != 0 && !MayBeMissing(rel) && rel !in s.tl.cache
    requires SizeAt(At(s.tl.store, s.tl.lastLsn), RelSizeToKey(rel)) == Some(n)
             && ViewSize(s, rel) == Some(NBlocks(more))
    ensures var end := Commit(Perform(s, ReadSize(rel, s.tl.lastLsn, true))).tl;
            && CachedRelSize(end.cache, rel, end.lastLsn) == Some(n)
            && SizeAt(At(end.store, end.lastLsn), RelSizeToKey(rel)) == Some(more)
  {
    var read := Perform(s, ReadSize(rel, s.tl.lastLsn, true));
    assert ViewSize(read, rel) == ViewSize(s, rel);
    ViewIsPending(read, RelSizeToKey(rel));
  }

  /** Extended, dropped, read while the drop is pending, committed: the cache then answers the old size
      where the new one is stored. */
  lemma ReadAfterPendingDrop(s: State, rel: RelTag, n: u32, more: u32)
    requires Ordered(s) && s.tl.lastLsn < s.m.lsn && !Touched(s, rel)
    requires rel.relnode != 0 && rel.forknum < 0xff && !MayBeMissing(rel) && n < more
    requires SizeAt(At(s.tl.store, s.tl.lastLsn), RelSizeToKey(rel)) == Some(n) && RelsOf(Viewed(s), DbOf(rel)).Some?
    ensures var dropped := Perform(Perform(s, Extend(rel, more)), Drop(rel));
            var end := Commit(Perform(dropped, ReadSize(rel, s.tl.lastLsn, true))).tl;
            && CachedRelSize(end.cache, rel, end.lastLsn) == Some(n)
            && SizeAt(At(end.store, end.lastLsn), RelSizeToKey(rel)) == Some(more)
  {
    UntouchedSize(s, rel);
    ExtendedAndDropped(s, rel, more);
    StaleAfterRead(Perform(Perform(s, Extend(rel, more)), Drop(rel)), rel, n, more);
  }
}
