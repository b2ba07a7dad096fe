/** The incremental logical size is the size counted from scratch. */
module LogicalSize {
  import opened Options
  import opened Keys
  import opened KeyLayout
  import opened Snapshots
  import opened Timelines
  import opened Modifications
  import opened PostgresFfi
  import opened FlushNeutrality
  import opened RelSizeCache
  import opened Sums

  // --- the live relations of a snapshot

  /** The relation is in its directory, and its database in the list of databases. */
  predicate Live(get: Snapshot, rel: RelTag) {
    && DbDirs(get).Some? && DbOf(rel) in DbDirs(get).value
    && RelsOf(get, DbOf(rel)).Some? && ForkOf(rel) in RelsOf(get, DbOf(rel)).value
  }

  function SizeOf(get: Snapshot, rel: RelTag): nat {
    var n := SizeAt(get, RelSizeToKey(rel));
    if n.Some? then n.value else 0
  }

  function Forks(get: Snapshot, db: Db): set<(u32, u8)> {
    var rels := RelsOf(get, db);
    if rels.Some? then rels.value else {}
  }

  function LiveRels(get: Snapshot): set<RelTag> {
    var dbs := DbDirs(get);
    if dbs.None? then {} else set db, r | db in dbs.value && r in Forks(get, db) :: Rel(db, r)
  }

  lemma LiveRelsAreLive(get: Snapshot, rel: RelTag)
    ensures rel in LiveRels(get) <==> Live(get, rel)
  {
    if Live(get, rel) { assert rel == Rel(DbOf(rel), ForkOf(rel)); }
  }

  function Sizes(get: Snapshot): map<RelTag, nat> {
    map rel | rel in LiveRels(get) :: SizeOf(get, rel)
  }

  /** The logical size of a snapshot, in blocks. */
  ghost function Total(get: Snapshot): nat {
    Sum(Sizes(get))
  }

  lemma SizesAre(get: Snapshot, sizes: map<RelTag, nat>)
    requires forall rel :: (rel in sizes <==> Live(get, rel)) && (rel in sizes ==> sizes[rel] == SizeOf(get, rel))
    ensures Sizes(get) == sizes
  {
    forall rel: RelTag ensures rel in Sizes(get) <==> rel in sizes { LiveRelsAreLive(get, rel); }
  }

  /** Everything the size depends on can be read. */
  ghost predicate Countable(get: Snapshot) {
    && DbDirs(get).Some?
    && (forall db :: db in DbDirs(get).value ==> RelsOf(get, db).Some?)
    && (forall rel :: Live(get, rel) ==> SizeAt(get, RelSizeToKey(rel)).Some?)
  }

  /** ... and every live relation has a number. */
  ghost predicate Ready(get: Snapshot) {
    Countable(get) && forall rel :: Live(get, rel) ==> rel.relnode != 0
  }

  // --- what puts do to the sizes

  /** get' is get with these values put over it. */
  ghost predicate Over(get: Snapshot, get': Snapshot, puts: map<Key, Val>) {
    forall k :: get'(k) == if k in puts then Some(puts[k]) else get(k)
  }

  /** The puts leave the databases, their relations and the sizes alone. */
  predicate Unrelated(puts: map<Key, Val>) {
    forall k :: k in puts && k.field1 == 0 ==>
      k != DBDIR_KEY && (k.field4 != 0 || k.field6 != 1) && k.field6 != SIZE_BLOCK
  }

  lemma UnrelatedPuts(get: Snapshot, get': Snapshot, puts: map<Key, Val>)
    requires Over(get, get', puts) && Unrelated(puts)
    ensures Sizes(get') == Sizes(get) && (Ready(get) ==> Ready(get'))
  {
    forall db: Db ensures RelsOf(get', db) == RelsOf(get, db) { assert DirKey(db) !in puts; }
    forall rel: RelTag ensures SizeAt(get', RelSizeToKey(rel)) == SizeAt(get, RelSizeToKey(rel)) {
      assert RelSizeToKey(rel) !in puts;
    }
    forall rel: RelTag ensures rel in Sizes(get) <==> Live(get, rel) { LiveRelsAreLive(get, rel); }
    SizesAre(get', Sizes(get));
  }

  lemma ResizePuts(get: Snapshot, get': Snapshot, rel: RelTag, n: u32)
    requires Over(get, get', map[RelSizeToKey(rel) := NBlocks(n)]) && rel.relnode != 0
    ensures Sizes(get') == (if Live(get, rel) then Sizes(get)[rel := n] else Sizes(get))
    ensures Ready(get) ==> Ready(get')
  {
    forall db: Db ensures RelsOf(get', db) == RelsOf(get, db) { assert DirKey(db) != RelSizeToKey(rel); }
    forall other: RelTag
      ensures SizeAt(get', RelSizeToKey(other)) == if other == rel then Some(n) else SizeAt(get, RelSizeToKey(other))
    {
      assert other != rel ==> RelSizeToKey(other) != RelSizeToKey(rel);
    }
    forall other: RelTag ensures other in Sizes(get) <==> Live(get, other) { LiveRelsAreLive(get, other); }
    SizesAre(get', if Live(get, rel) then Sizes(get)[rel := n] else Sizes(get));
  }

  /** What there is to know about a snapshot whose directories were written. */
  ghost predicate DirsAre(get': Snapshot, get: Snapshot, dbs: map<Db, bool>, db: Db, rels: set<(u32, u8)>) {
    && DbDirs(get') == Some(dbs)
    && (forall other :: RelsOf(get', other) == if other == db then Some(rels) else RelsOf(get, other))
  }

  lemma DirPut(get: Snapshot, get': Snapshot, db: Db, rels: set<(u32, u8)>)
    requires Over(get, get', map[DirKey(db) := RelDirectory(rels)]) && DbDirs(get).Some?
    ensures DirsAre(get', get, DbDirs(get).value, db, rels)
    ensures forall rel :: SizeAt(get', RelSizeToKey(rel)) == SizeAt(get, RelSizeToKey(rel))
  {
    forall other: Db ensures RelsOf(get', other) == if other == db then Some(rels) else RelsOf(get, other) {
      assert other != db ==> DirKey(other) != DirKey(db);
    }
  }

  lemma {:induction false} DropPuts(get: Snapshot, get': Snapshot, rel: RelTag, rels: set<(u32, u8)>)
    requires RelsOf(get, DbOf(rel)) == Some(rels)
    requires Over(get, get', map[DirKey(DbOf(rel)) := RelDirectory(rels - {ForkOf(rel)})]) && Ready(get)
    ensures Sizes(get') == Sizes(get) - {rel} && Ready(get')
  {
    DirPut(get, get', DbOf(rel), rels - {ForkOf(rel)});
    forall other: RelTag
      ensures other in Sizes(get) <==> Live(get, other)
      ensures Live(get', other) <==> Live(get, other) && other != rel
    {
      LiveRelsAreLive(get, other);
      assert DbOf(other) == DbOf(rel) && ForkOf(other) == ForkOf(rel) ==> other == rel;
    }
    SizesAre(get', Sizes(get) - {rel});
  }

  /** Creating a relation, in a database that may be new. */
  lemma CreatePuts(get: Snapshot, get': Snapshot, rel: RelTag, n: u32, dbs: map<Db, bool>, rels: set<(u32, u8)>)
    requires Ready(get) && rel.relnode != 0 && ForkOf(rel) !in rels
    requires dbs.Keys == DbDirs(get).value.Keys + {DbOf(rel)}
    requires if DbOf(rel) in DbDirs(get).value then RelsOf(get, DbOf(rel)) == Some(rels) else rels == {}
    requires DirsAre(get', get, dbs, DbOf(rel), rels + {ForkOf(rel)})
    requires forall other ::
               SizeAt(get', RelSizeToKey(other)) == if other == rel then Some(n) else SizeAt(get, RelSizeToKey(other))
    ensures !Live(get, rel) && Sizes(get') == Sizes(get)[rel := n] && Ready(get')
  {
    forall other: RelTag
      ensures other in Sizes(get) <==> Live(get, other)
      ensures Live(get', other) <==> Live(get, other) || other == rel
    {
      LiveRelsAreLive(get, other);
      assert DbOf(other) == DbOf(rel) && ForkOf(other) == ForkOf(rel) ==> other == rel;
    }
    SizesAre(get', Sizes(get)[rel := n]);
  }

  function OfDb(sizes: map<RelTag, nat>, db: Db): map<RelTag, nat> {
    map rel | rel in sizes && DbOf(rel) == db :: sizes[rel]
  }

  lemma DropDbPuts(get: Snapshot, get': Snapshot, db: Db)
    requires Ready(get) && Over(get, get', map[DBDIR_KEY := DbDirectory(DbDirs(get).value - {db})])
    ensures Sizes(get') == Sizes(get) - OfDb(Sizes(get), db).Keys && Ready(get')
  {
    forall other: Db ensures RelsOf(get', other) == RelsOf(get, other) { assert DirKey(other) != DBDIR_KEY; }
    forall rel: RelTag ensures SizeAt(get', RelSizeToKey(rel)) == SizeAt(get, RelSizeToKey(rel)) {
      assert RelSizeToKey(rel) != DBDIR_KEY;
    }
    forall rel: RelTag ensures rel in Sizes(get) <==> Live(get, rel) { LiveRelsAreLive(get, rel); }
    SizesAre(get', Sizes(get) - OfDb(Sizes(get), db).Keys);
  }

  // --- operations

  /** What is recorded and what is still pending add up to the size of what the modification sees. */
  ghost predicate Balanced(s: State) {
    s.tl.logicalSize + s.m.nblocks * BLCKSZ == Total(Viewed(s)) * BLCKSZ
  }

  lemma AppliedIsOver(s: State, plan: Plan)
    ensures Over(Viewed(s), Viewed(Apply(s, plan)), plan.puts)
  {
  }

  /** A plan keeps the balance when its block count is the change in the total. */
  lemma BalanceAfter(s: State, plan: Plan)
    requires Balanced(s)
    ensures Balanced(Apply(s, plan)) <==> Total(Viewed(Apply(s, plan))) - Total(Viewed(s)) == plan.blocks
  {
  }

  predicate Succeeds(s: State, op: Op) {
    PlanOf(s, op).error.None?
  }

  lemma IdleBalance(s: State, plan: Plan)
    requires Balanced(s) && Ready(Viewed(s)) && plan.blocks == 0 && Unrelated(plan.puts)
    ensures Ready(Viewed(Apply(s, plan))) && Balanced(Apply(s, plan))
  {
    AppliedIsOver(s, plan);
    BalanceAfter(s, plan);
    UnrelatedPuts(Viewed(s), Viewed(Apply(s, plan)), plan.puts);
  }

  lemma ResizedBalance(s: State, plan: Plan, rel: RelTag, n: u32)
    requires Balanced(s) && Ready(Viewed(s)) && rel.relnode != 0 && plan.puts == map[RelSizeToKey(rel) := NBlocks(n)]
    requires plan.blocks == n - SizeOf(Viewed(s), rel)
    ensures Ready(Viewed(Apply(s, plan)))
    ensures Balanced(Apply(s, plan)) <==> plan.blocks == 0 || Live(Viewed(s), rel)
  {
    AppliedIsOver(s, plan);
    BalanceAfter(s, plan);
    var get := Viewed(s);
    ResizePuts(get, Viewed(Apply(s, plan)), rel, n);
    LiveRelsAreLive(get, rel);
    SumUpdate(Sizes(get), rel, n);
  }

  lemma ResizeShape(s: State, op: Op)
    requires op.Truncate? || op.Extend?
    ensures var plan, key := PlanOf(s, op), RelSizeToKey(op.rel);
            if key in plan.puts then
              op.rel.relnode != 0 && plan.puts == map[key := NBlocks(op.nblocks)] &&
              plan.blocks == op.nblocks - SizeOf(Viewed(s), op.rel)
            else plan.puts == map[] && plan.blocks == 0
  {
  }

  /** The operation leaves the count of blocks alone: it fails before it counts, it does nothing, or
      the relation has the size it is to have. */
  predicate CountStays(s: State, op: Op)
    requires op.Truncate? || op.Extend? || op.Drop?
  {
    var size := SizeAt(Viewed(s), RelSizeToKey(op.rel));
    || op.rel.relnode == 0 || size.None?
    || (op.Truncate? &&
        (RelExists(s.tl.store, s.tl.cache, op.rel, s.tl.lastLsn) != Some(true) || size.value == op.nblocks))
    || (op.Extend? && op.nblocks <= size.value)
    || (op.Drop? && (RelsOf(Viewed(s), DbOf(op.rel)).None? || size.value == 0))
  }

  lemma CountStaysMeans(s: State, op: Op)
    requires op.Truncate? || op.Extend? || op.Drop?
    ensures PlanOf(s, op).blocks == 0 <==> CountStays(s, op)
  {
  }

  /** Truncating or extending keeps the balance exactly when the relation is live or its count stays. */
  lemma ResizeBalance(s: State, op: Op)
    requires Balanced(s) && Ready(Viewed(s)) && (op.Truncate? || op.Extend?)
    ensures Ready(Viewed(Perform(s, op)))
    ensures Balanced(Perform(s, op)) <==> CountStays(s, op) || Live(Viewed(s), op.rel)
  {
    var plan := PlanOf(s, op);
    CountStaysMeans(s, op);
    ResizeShape(s, op);
    if RelSizeToKey(op.rel) in plan.puts {
      ResizedBalance(s, plan, op.rel, op.nblocks);
    } else {
      IdleBalance(s, plan);
    }
  }

  lemma DroppedBalance(s: State, plan: Plan, rel: RelTag, rels: set<(u32, u8)>)
    requires Balanced(s) && Ready(Viewed(s)) && RelsOf(Viewed(s), DbOf(rel)) == Some(rels)
    requires plan.puts == map[DirKey(DbOf(rel)) := RelDirectory(rels - {ForkOf(rel)})]
    ensures Ready(Viewed(Apply(s, plan)))
    ensures Balanced(Apply(s, plan)) <==> plan.blocks == if Live(Viewed(s), rel) then 0 - SizeOf(Viewed(s), rel) else 0
  {
    AppliedIsOver(s, plan);
    BalanceAfter(s, plan);
    var get := Viewed(s);
    DropPuts(get, Viewed(Apply(s, plan)), rel, rels);
    LiveRelsAreLive(get, rel);
    if Live(get, rel) { SumRemove(Sizes(get), rel); } else { assert Sizes(get) - {rel} == Sizes(get); }
  }

  lemma DropShape(s: State, op: Op)
    requires op.Drop? && Ready(Viewed(s))
    ensures var plan, get, key := PlanOf(s, op), Viewed(s), DirKey(DbOf(op.rel));
            if key in plan.puts then
              && RelsOf(get, DbOf(op.rel)).Some?
              && plan.puts == map[key := RelDirectory(RelsOf(get, DbOf(op.rel)).value - {ForkOf(op.rel)})]
              && (plan.blocks == 0 - SizeOf(get, op.rel) || (plan.blocks == 0 && !Live(get, op.rel)))
            else plan.puts == map[] && (plan.blocks == 0 || !Live(get, op.rel))
  {
  }

  lemma NoPutsBalance(s: State, plan: Plan)
    requires Balanced(s) && Ready(Viewed(s)) && plan.puts == map[]
    ensures Ready(Viewed(Apply(s, plan))) && (Balanced(Apply(s, plan)) <==> plan.blocks == 0)
  {
    AppliedIsOver(s, plan);
    BalanceAfter(s, plan);
    UnrelatedPuts(Viewed(s), Viewed(Apply(s, plan)), plan.puts);
  }

  /** Dropping keeps the balance exactly when the relation is live or had no blocks. */
  lemma DropBalance(s: State, op: Op)
    requires Balanced(s) && Ready(Viewed(s)) && op.Drop?
    ensures Ready(Viewed(Perform(s, op)))
    ensures Balanced(Perform(s, op)) <==> CountStays(s, op) || Live(Viewed(s), op.rel)
  {
    var plan, get := PlanOf(s, op), Viewed(s);
    CountStaysMeans(s, op);
    DropShape(s, op);
    if DirKey(DbOf(op.rel)) in plan.puts {
      DroppedBalance(s, plan, op.rel, RelsOf(get, DbOf(op.rel)).value);
    } else {
      NoPutsBalance(s, plan);
    }
  }

  /** The puts of a creation, as CreatePuts wants them. */
  lemma CreateShape(s: State, op: Op)
    requires op.Create? && Ready(Viewed(s))
    ensures var plan, get, rel := PlanOf(s, op), Viewed(s), op.rel;
            var dbs := DbDirs(get).value;
            var rels := if DbOf(rel) in dbs then RelsOf(get, DbOf(rel)).value else {};
            if plan.error.None? then
              && rel.relnode != 0 && ForkOf(rel) !in rels && plan.blocks == op.nblocks
              && plan.puts ==
                    (if DbOf(rel) in dbs then map[] else map[DBDIR_KEY := DbDirectory(dbs[DbOf(rel) := false])]) +
                    map[DirKey(DbOf(rel)) := RelDirectory(rels + {ForkOf(rel)}),
                        RelSizeToKey(rel) := NBlocks(op.nblocks)]
            else plan.puts == map[] && plan.blocks == 0
  {
  }

  lemma CreateOver(get: Snapshot, get': Snapshot, rel: RelTag, n: u32, dbs: map<Db, bool>,
                   rels: set<(u32, u8)>, dbputs: map<Key, Val>)
    requires DbDirs(get).Some?
             && dbputs == (if DbOf(rel) in DbDirs(get).value then map[] else map[DBDIR_KEY := DbDirectory(dbs)])
    requires DbOf(rel) in DbDirs(get).value ==> dbs == DbDirs(get).value
    requires Over(get, get', dbputs + map[DirKey(DbOf(rel)) := RelDirectory(rels), RelSizeToKey(rel) := NBlocks(n)])
    requires rel.relnode != 0
    ensures DirsAre(get', get, dbs, DbOf(rel), rels)
    ensures forall other ::
              SizeAt(get', RelSizeToKey(other)) == if other == rel then Some(n) else SizeAt(get, RelSizeToKey(other))
  {
    forall other: Db ensures RelsOf(get', other) == if other == DbOf(rel) then Some(rels) else RelsOf(get, other) {
      assert DirKey(other) != RelSizeToKey(rel) && DirKey(other) != DBDIR_KEY;
    }
    forall other: RelTag
      ensures SizeAt(get', RelSizeToKey(other)) == if other == rel then Some(n) else SizeAt(get, RelSizeToKey(other))
    {
      assert RelSizeToKey(other) != DirKey(DbOf(rel)) && RelSizeToKey(other) != DBDIR_KEY;
    }
  }

  lemma CreatedBalance(s: State, plan: Plan, rel: RelTag, n: u32, dbs: map<Db, bool>, rels: set<(u32, u8)>)
    requires Balanced(s) && Ready(Viewed(s)) && rel.relnode != 0 && ForkOf(rel) !in rels && plan.blocks == n
    requires dbs.Keys == DbDirs(Viewed(s)).value.Keys + {DbOf(rel)}
    requires if DbOf(rel) in DbDirs(Viewed(s)).value then RelsOf(Viewed(s), DbOf(rel)) == Some(rels) else rels == {}
    requires DirsAre(Viewed(Apply(s, plan)), Viewed(s), dbs, DbOf(rel), rels + {ForkOf(rel)})
    requires forall other :: SizeAt(Viewed(Apply(s, plan)), RelSizeToKey(other)) ==
                             if other == rel then Some(n) else SizeAt(Viewed(s), RelSizeToKey(other))
    ensures Ready(Viewed(Apply(s, plan))) && Balanced(Apply(s, plan))
  {
    BalanceAfter(s, plan);
    var get := Viewed(s);
    CreatePuts(get, Viewed(Apply(s, plan)), rel, n, dbs, rels);
    LiveRelsAreLive(get, rel);
    SumUpdate(Sizes(get), rel, n);
  }

  /** Creating keeps the balance, whether it succeeds or not. */
  lemma CreateBalance(s: State, op: Op)
    requires Balanced(s) && Ready(Viewed(s)) && op.Create?
    ensures Ready(Viewed(Perform(s, op))) && Balanced(Perform(s, op))
  {
    var plan, get, db := PlanOf(s, op), Viewed(s), DbOf(op.rel);
    CreateShape(s, op);
    if plan.error.Some? {
      IdleBalance(s, plan);
    } else {
      var had := DbDirs(get).value;
      var rels := if db in had then RelsOf(get, db).value else {};
      var dbs := if db in had then had else had[db := false];
      var dbputs := if db in had then map[] else map[DBDIR_KEY := DbDirectory(dbs)];
      AppliedIsOver(s, plan);
      CreateOver(get, Viewed(Apply(s, plan)), op.rel, op.nblocks, dbs, rels + {ForkOf(op.rel)}, dbputs);
      CreatedBalance(s, plan, op.rel, op.nblocks, dbs, rels);
    }
  }

  // --- dropping a database

  lemma DropDbShape(s: State, op: Op)
    requires op.DropDb? && Ready(Viewed(s))
    ensures var plan, dbs := PlanOf(s, op), DbDirs(Viewed(s)).value;
            if plan.error.None? then
              plan.puts == if op.db in dbs then map[DBDIR_KEY := DbDirectory(dbs - {op.db})] else map[]
            else plan.puts == map[] && plan.blocks == 0
  {
  }

  lemma DroppedDbBalance(s: State, plan: Plan, db: Db)
    requires Balanced(s) && Ready(Viewed(s))
    requires var dbs := DbDirs(Viewed(s)).value;
             plan.puts == if db in dbs then map[DBDIR_KEY := DbDirectory(dbs - {db})] else map[]
    ensures Ready(Viewed(Apply(s, plan)))
    ensures Balanced(Apply(s, plan)) <==> plan.blocks == 0 - Sum(OfDb(Sizes(Viewed(s)), db))
  {
    var get := Viewed(s);
    if db in DbDirs(get).value {
      AppliedIsOver(s, plan);
      BalanceAfter(s, plan);
      DropDbPuts(get, Viewed(Apply(s, plan)), db);
      SumSplit(Sizes(get), OfDb(Sizes(get), db));
    } else {
      NoPutsBalance(s, plan);
      forall rel: RelTag ensures rel !in OfDb(Sizes(get), db) { LiveRelsAreLive(get, rel); }
      assert OfDb(Sizes(get), db) == map[];
    }
  }

  lemma CountedBalance(s: State, op: Op)
    requires Balanced(s) && Ready(Viewed(s)) && op.DropDb?
    ensures Ready(Viewed(Perform(s, op)))
    ensures Balanced(Perform(s, op)) <==>
            PlanOf(s, op).error.Some? || PlanOf(s, op).blocks == 0 - Sum(OfDb(Sizes(Viewed(s)), op.db))
  {
    var plan := PlanOf(s, op);
    DropDbShape(s, op);
    if plan.error.None? { DroppedDbBalance(s, plan, op.db); } else { IdleBalance(s, plan); }
  }

  // --- what drop_dbdir counts

  /** What the cache answers at this LSN is stored there. */
  ghost predicate TrueHits(store: Store, cache: Cache, lsn: Lsn) {
    forall rel :: CachedRelSize(cache, rel, lsn).Some? ==>
      SizeAt(At(store, lsn), RelSizeToKey(rel)) == CachedRelSize(cache, rel, lsn)
  }

  lemma CacheHasTrueHits(s: State)
    requires CacheOk(s)
    ensures TrueHits(s.tl.store, s.tl.cache, s.tl.lastLsn)
  {
    forall rel: RelTag | CachedRelSize(s.tl.cache, rel, s.tl.lastLsn).Some?
      ensures SizeAt(At(s.tl.store, s.tl.lastLsn), RelSizeToKey(rel)) == CachedRelSize(s.tl.cache, rel, s.tl.lastLsn)
    {
      HitIsStored(s, rel, s.tl.lastLsn);
    }
  }

  predicate ListedIn(store: Store, lsn: Lsn, rel: RelTag) {
    RelsOf(At(store, lsn), DbOf(rel)).Some? && ForkOf(rel) in RelsOf(At(store, lsn), DbOf(rel)).value
  }

  /** The size of a listed relation is read if it has a number and its size is stored. */
  predicate CanCount(store: Store, lsn: Lsn, rel: RelTag) {
    rel.relnode != 0 && SizeAt(At(store, lsn), RelSizeToKey(rel)).Some?
  }

  lemma ReadGivesSize(store: Store, cache: Cache, rel: RelTag, lsn: Lsn)
    requires TrueHits(store, cache, lsn) && ListedIn(store, lsn, rel)
    ensures var (size, cache') := GetRelSize(store, cache, rel, lsn, true);
            && TrueHits(store, cache', lsn)
            && size == if CanCount(store, lsn, rel) then SizeAt(At(store, lsn), RelSizeToKey(rel)) else None
  {
    var cache' := GetRelSize(store, cache, rel, lsn, true).1;
    forall other: RelTag | CachedRelSize(cache', other, lsn).Some?
      ensures SizeAt(At(store, lsn), RelSizeToKey(other)) == CachedRelSize(cache', other, lsn)
    {
      assert other != rel ==> CachedRelSize(cache', other, lsn) == CachedRelSize(cache, other, lsn);
    }
  }

  function SizesOf(store: Store, lsn: Lsn, rels: seq<RelTag>): map<RelTag, nat> {
    map rel | rel in rels :: SizeOf(At(store, lsn), rel)
  }

  lemma OneSizeMore(store: Store, lsn: Lsn, rels: seq<RelTag>, rel: RelTag)
    requires rel !in rels
    ensures Sum(SizesOf(store, lsn, rels + [rel])) == Sum(SizesOf(store, lsn, rels)) + SizeOf(At(store, lsn), rel)
  {
    var n := SizeOf(At(store, lsn), rel);
    assert SizesOf(store, lsn, rels + [rel]) == SizesOf(store, lsn, rels)[rel := n];
    SumUpdate(SizesOf(store, lsn, rels), rel, n);
  }

  /** Different relations, each listed. */
  predicate AllListed(store: Store, lsn: Lsn, rels: seq<RelTag>) {
    rels == [] ||
    (var before, rel := rels[..|rels| - 1], rels[|rels| - 1];
     AllListed(store, lsn, before) && ListedIn(store, lsn, rel) && rel !in before)
  }

  predicate AllCount(store: Store, lsn: Lsn, rels: seq<RelTag>) {
    rels == [] || (AllCount(store, lsn, rels[..|rels| - 1]) && CanCount(store, lsn, rels[|rels| - 1]))
  }

  /** What the sum over these relations is to be. */
  ghost function Expected(store: Store, lsn: Lsn, rels: seq<RelTag>): Option<nat> {
    if AllCount(store, lsn, rels) then Some(Sum(SizesOf(store, lsn, rels))) else None
  }

  lemma ExpectedStep(store: Store, lsn: Lsn, rels: seq<RelTag>, rel: RelTag)
    requires rel !in rels
    ensures Expected(store, lsn, rels + [rel]) ==
            if Expected(store, lsn, rels).Some? && CanCount(store, lsn, rel)
            then Some(Expected(store, lsn, rels).value + SizeOf(At(store, lsn), rel)) else None
  {
    assert (rels + [rel])[..|rels|] == rels;
    OneSizeMore(store, lsn, rels, rel);
  }

  lemma SumStep(store: Store, cache: Cache, rels: seq<RelTag>, rel: RelTag, lsn: Lsn)
    requires SumRelSizes(store, cache, rels, lsn).0 == Expected(store, lsn, rels)
    requires TrueHits(store, SumRelSizes(store, cache, rels, lsn).1, lsn) && ListedIn(store, lsn, rel) && rel !in rels
    ensures TrueHits(store, SumRelSizes(store, cache, rels + [rel], lsn).1, lsn)
    ensures SumRelSizes(store, cache, rels + [rel], lsn).0 == Expected(store, lsn, rels + [rel])
  {
    SumOneMore(store, cache, rels, rel, lsn);
    ReadGivesSize(store, SumRelSizes(store, cache, rels, lsn).1, rel, lsn);
    ExpectedStep(store, lsn, rels, rel);
  }

  /** The sum over listed relations is that of their stored sizes, or fails when one cannot be read. */
  lemma {:induction false} SumOfListed(store: Store, cache: Cache, rels: seq<RelTag>, lsn: Lsn)
    requires TrueHits(store, cache, lsn) && AllListed(store, lsn, rels)
    ensures TrueHits(store, SumRelSizes(store, cache, rels, lsn).1, lsn)
    ensures SumRelSizes(store, cache, rels, lsn).0 == Expected(store, lsn, rels)
    decreases |rels|
  {
    if rels == [] {
      assert SizesOf(store, lsn, rels) == map[];
    } else {
      var before, rel := rels[..|rels| - 1], rels[|rels| - 1];
      SumOfListed(store, cache, before, lsn);
      SumStep(store, cache, before, rel, lsn);
      assert rels == before + [rel];
    }
  }

  // --- the size of a database at an LSN

  /** Every relation listed in the database can be counted. */
  predicate DbCountable(store: Store, lsn: Lsn, db: Db) {
    && RelsOf(At(store, lsn), db).Some?
    && forall r :: r in RelsOf(At(store, lsn), db).value ==> CanCount(store, lsn, Rel(db, r))
  }

  function DbSizes(store: Store, lsn: Lsn, db: Db): map<RelTag, nat> {
    var rels := RelsOf(At(store, lsn), db);
    if rels.None? then map[] else map r | r in rels.value :: Rel(db, r) := SizeOf(At(store, lsn), Rel(db, r))
  }

  lemma {:induction false} OneByOne(store: Store, lsn: Lsn, rels: seq<RelTag>)
    requires forall i :: 0 <= i < |rels| ==> ListedIn(store, lsn, rels[i])
    requires forall i, j :: 0 <= i < j < |rels| ==> rels[i] != rels[j]
    ensures AllListed(store, lsn, rels)
    ensures AllCount(store, lsn, rels) <==> forall i :: 0 <= i < |rels| ==> CanCount(store, lsn, rels[i])
    decreases |rels|
  {
    if rels != [] { OneByOne(store, lsn, rels[..|rels| - 1]); }
  }

  lemma EnumeratedSizes(store: Store, lsn: Lsn, db: Db, order: seq<RelTag>)
    requires RelsOf(At(store, lsn), db).Some? && Enumerates(order, RelsOf(At(store, lsn), db).value, db)
    ensures AllListed(store, lsn, order) && SizesOf(store, lsn, order) == DbSizes(store, lsn, db)
    ensures AllCount(store, lsn, order) <==> DbCountable(store, lsn, db)
  {
    OneByOne(store, lsn, order);
    forall i | 0 <= i < |order| ensures order[i] == Rel(db, ForkOf(order[i])) {}
    if AllCount(store, lsn, order) {
      forall r | r in RelsOf(At(store, lsn), db).value ensures CanCount(store, lsn, Rel(db, r)) {
        var i :| 0 <= i < |order| && order[i] == Rel(db, r);
      }
    }
    assert SizesOf(store, lsn, order).Keys == DbSizes(store, lsn, db).Keys;
  }

  /** What drop_dbdir counts: the sizes of the database's relations at the last record. */
  lemma CountedAtLast(s: State, op: Op)
    requires Ready(Viewed(s)) && op.DropDb? && GoesThrough(s, op) && TrueHits(s.tl.store, s.tl.cache, s.tl.lastLsn)
    ensures var plan, store, last := PlanOf(s, op), s.tl.store, s.tl.lastLsn;
            && (plan.error.None? <==> DbCountable(store, last, op.db))
            && (plan.error.None? ==> plan.blocks == 0 - Sum(DbSizes(store, last, op.db)))
  {
    if RelsOf(At(s.tl.store, s.tl.lastLsn), op.db).Some? {
      EnumeratedSizes(s.tl.store, s.tl.lastLsn, op.db, op.order);
      SumOfListed(s.tl.store, s.tl.cache, op.order, s.tl.lastLsn);
    }
  }

  /** The size of the database at the last record is the size the modification sees. */
  ghost predicate SameSizeNow(s: State, db: Db) {
    Sum(DbSizes(s.tl.store, s.tl.lastLsn, db)) == Sum(OfDb(Sizes(Viewed(s)), db))
  }

  /** Dropping a database keeps the balance if and only if it cannot be counted at the last record, and
      the drop fails, or its size at the last record is its size now. */
  lemma DropDbBalance(s: State, op: Op)
    requires Balanced(s) && Ready(Viewed(s)) && op.DropDb? && GoesThrough(s, op)
    requires TrueHits(s.tl.store, s.tl.cache, s.tl.lastLsn)
    ensures Ready(Viewed(Perform(s, op)))
    ensures Balanced(Perform(s, op)) <==>
            !DbCountable(s.tl.store, s.tl.lastLsn, op.db) || SameSizeNow(s, op.db)
  {
    CountedAtLast(s, op);
    CountedBalance(s, op);
  }

  predicate KeyOfDb(k: Key, db: Db) {
    k.field1 == 0 && k.field2 == db.0 && k.field3 == db.1 && (k.field4 != 0 || k.field6 == 1)
  }

  /** The modification has written nothing of the database. */
  ghost predicate Untouched(s: State, db: Db) {
    forall k :: KeyOfDb(k, db) ==> k !in s.m.updates && (k, s.m.lsn) !in s.tl.store
  }

  lemma UntouchedView(s: State, db: Db, k: Key)
    requires Ordered(s) && Untouched(s, db) && KeyOfDb(k, db)
    ensures View(s, k) == Get(s.tl.store, k, s.tl.lastLsn)
  {
    GetStays(s.tl.store, k, s.tl.lastLsn, s.m.lsn);
  }

  lemma UntouchedRel(s: State, rel: RelTag)
    requires Ordered(s) && Untouched(s, DbOf(rel)) && DbDirs(Viewed(s)).Some? && DbOf(rel) in DbDirs(Viewed(s)).value
    ensures Live(Viewed(s), rel) <==> ListedIn(s.tl.store, s.tl.lastLsn, rel)
    ensures rel.relnode != 0 ==> SizeOf(Viewed(s), rel) == SizeOf(At(s.tl.store, s.tl.lastLsn), rel)
  {
    UntouchedView(s, DbOf(rel), DirKey(DbOf(rel)));
    if rel.relnode != 0 { UntouchedView(s, DbOf(rel), RelSizeToKey(rel)); }
  }

  /** An existing database that the modification has not touched has the size it had at the last record. */
  lemma UntouchedCount(s: State, db: Db)
    requires Ordered(s) && Ready(Viewed(s)) && db in DbDirs(Viewed(s)).value && Untouched(s, db)
    ensures DbSizes(s.tl.store, s.tl.lastLsn, db) == OfDb(Sizes(Viewed(s)), db) && SameSizeNow(s, db)
  {
    var now, before := OfDb(Sizes(Viewed(s)), db), DbSizes(s.tl.store, s.tl.lastLsn, db);
    UntouchedView(s, db, DirKey(db));
    forall rel: RelTag ensures (rel in now <==> rel in before) && (rel in now ==> now[rel] == before[rel]) {
      LiveRelsAreLive(Viewed(s), rel);
      if DbOf(rel) == db {
        UntouchedRel(s, rel);
        assert rel == Rel(db, ForkOf(rel));
      }
    }
  }

  // --- the other operations

  lemma PageShape(s: State, op: Op)
    requires op.PutPage? || op.PutSlruPage? || op.ReadSize?
    requires op.PutPage? ==> op.blknum != SIZE_BLOCK
    ensures PlanOf(s, op).blocks == 0 && Unrelated(PlanOf(s, op).puts)
  {
  }

  lemma PageBalance(s: State, op: Op)
    requires Balanced(s) && Ready(Viewed(s)) && (op.PutPage? || op.PutSlruPage? || op.ReadSize?)
    requires op.PutPage? ==> op.blknum != SIZE_BLOCK
    ensures Ready(Viewed(Perform(s, op))) && Balanced(Perform(s, op))
  {
    PageShape(s, op);
    IdleBalance(s, PlanOf(s, op));
  }

  /** Adding a database without relations. */
  lemma RelmapPuts(get: Snapshot, get': Snapshot, db: Db, dbs: map<Db, bool>, puts: map<Key, Val>, img: Page)
    requires Ready(get) && db != (0, 0) && Over(get, get', puts) && dbs == DbDirs(get).value
    requires var marked := if db in dbs && dbs[db] then map[] else map[DBDIR_KEY := DbDirectory(dbs[db := true])];
             var created := if db in dbs then map[] else map[DirKey(db) := RelDirectory({})];
             puts == marked + created + map[RelmapFileKey(db.0, db.1) := Image(img)]
    ensures Sizes(get') == Sizes(get) && Ready(get')
  {
    forall other: Db ensures RelsOf(get', other) == if other == db && db !in dbs then Some({}) else RelsOf(get, other) {
      assert DirKey(other) != DBDIR_KEY && DirKey(other) != RelmapFileKey(db.0, db.1);
    }
    forall rel: RelTag ensures SizeAt(get', RelSizeToKey(rel)) == SizeAt(get, RelSizeToKey(rel)) {
      assert RelSizeToKey(rel) !in puts;
    }
    forall rel: RelTag ensures rel in Sizes(get) <==> Live(get, rel) { LiveRelsAreLive(get, rel); }
    SizesAre(get', Sizes(get));
  }

  /** Storing a relation map keeps everything in order if and only if it is not stored for (0, 0), whose
      key is that of the list of databases. */
  lemma RelmapBalance(s: State, op: Op)
    requires Balanced(s) && Ready(Viewed(s)) && op.PutRelmap?
    ensures Ready(Viewed(Perform(s, op))) && Balanced(Perform(s, op)) <==> op.db != (0, 0)
  {
    var plan, get := PlanOf(s, op), Viewed(s);
    AppliedIsOver(s, plan);
    BalanceAfter(s, plan);
    if op.db == (0, 0) {
      ViewAfter(s, plan, DBDIR_KEY);
    } else {
      RelmapPuts(get, Viewed(Apply(s, plan)), op.db, DbDirs(get).value, plan.puts, op.img);
    }
  }

  // --- whole runs

  ghost predicate SizeOk(s: State) {
    CacheOk(s) && Ready(Viewed(s)) && Balanced(s)
  }

  /** Relations are truncated, extended and dropped while they are live, or to no effect on the count;
      a database is dropped when it has the size it had at the last record. */
  ghost predicate SizeGuard(s: State, a: Action) {
    && Allowed(s, a)
    && (a.Do? ==>
          && (a.op.Truncate? || a.op.Extend? || a.op.Drop? ==>
                Live(Viewed(s), a.op.rel) || CountStays(s, a.op))
          && (a.op.DropDb? ==>
                GoesThrough(s, a.op) && (DbCountable(s.tl.store, s.tl.lastLsn, a.op.db) ==> SameSizeNow(s, a.op.db)))
          && (a.op.PutRelmap? ==> a.op.db != (0, 0)))
  }

  lemma PerformKeepsSize(s: State, op: Op)
    requires SizeOk(s) && SizeGuard(s, Action.Do(op))
    ensures SizeOk(Perform(s, op))
  {
    PerformKeepsCache(s, op);
    match op
    case Create(_, _) => CreateBalance(s, op);
    case Truncate(_, _) => ResizeBalance(s, op);
    case Extend(_, _) => ResizeBalance(s, op);
    case Drop(_) => DropBalance(s, op);
    case DropDb(_, _) =>
      CacheHasTrueHits(s);
      DropDbBalance(s, op);
    case PutRelmap(_, _) => RelmapBalance(s, op);
    case _ => PageBalance(s, op);
  }

  /** The same view has the same size. */
  lemma SameViewKeepsSize(s: State, s': State)
    requires Ready(Viewed(s)) && Balanced(s) && forall k :: View(s', k) == View(s, k)
    requires s'.tl.logicalSize + s'.m.nblocks * BLCKSZ == s.tl.logicalSize + s.m.nblocks * BLCKSZ
    ensures Ready(Viewed(s')) && Balanced(s')
  {
    UnrelatedPuts(Viewed(s), Viewed(s'), map[]);
  }

  lemma ActKeepsSize(s: State, a: Action)
    requires SizeOk(s) && SizeGuard(s, a)
    ensures SizeOk(Act(s, a))
  {
    if a.Do? {
      PerformKeepsSize(s, a.op);
    } else {
      ActKeepsCache(s, a);
      var s' := Act(s, a);
      forall k ensures View(s', k) == View(s, k) {
        if a.FlushNow? {
          FlushAlike(s, s);
          AlikeView(s, s', k);
        } else if a.CommitNow? {
          ViewIsPending(s, k);
        } else {
          GetStays(s.tl.store, k, s.tl.lastLsn, a.lsn);
        }
      }
      SameViewKeepsSize(s, s');
    }
  }

  ghost predicate AllGuarded(s: State, actions: seq<Action>) {
    actions == [] ||
    (AllGuarded(s, actions[..|actions| - 1]) && SizeGuard(Run(s, actions[..|actions| - 1]), actions[|actions| - 1]))
  }

  lemma {:induction false} RunKeepsSize(s: State, actions: seq<Action>)
    requires SizeOk(s) && AllGuarded(s, actions)
    ensures SizeOk(Run(s, actions))
  {
    if actions != [] {
      RunKeepsSize(s, actions[..|actions| - 1]);
      ActKeepsSize(Run(s, actions[..|actions| - 1]), actions[|actions| - 1]);
    }
  }

  /** Over every such run, whenever nothing is pending, the incremental size is the size counted from
      scratch at the last record. */
  lemma IncrementalSizeIsTotal(s: State, actions: seq<Action>)
    requires SizeOk(s) && AllGuarded(s, actions) && Committed(Run(s, actions))
    ensures var tl := Run(s, actions).tl; tl.logicalSize == Total(At(tl.store, tl.lastLsn)) * BLCKSZ
  {
    RunKeepsSize(s, actions);
    var end := Run(s, actions);
    UnrelatedPuts(Viewed(end), At(end.tl.store, end.tl.lastLsn), map[]);
  }

  /** A timeline that holds nothing but an empty list of databases. */
  lemma EmptyIsOk(lsn: Lsn)
    ensures SizeOk(Begin(Timeline(map[(DBDIR_KEY, lsn) := DbDirectory(map[])], lsn, map[], 0, []), lsn))
  {
    var s := Begin(Timeline(map[(DBDIR_KEY, lsn) := DbDirectory(map[])], lsn, map[], 0, []), lsn);
    assert DbDirs(Viewed(s)) == Some(map[]);
    assert Sizes(Viewed(s)) == map[];
  }

  // --- counting from scratch

  /** Counted so far: the relations of the databases done, and those of one more. */
  lemma CountedAll(get: Snapshot, counted: map<RelTag, nat>, dbs: set<Db>)
    requires DbDirs(get).Some? && dbs == DbDirs(get).value.Keys && (forall db :: db in dbs ==> RelsOf(get, db).Some?)
    requires forall rel :: rel in counted <==> DbOf(rel) in dbs && ForkOf(rel) in Forks(get, DbOf(rel))
    requires forall rel :: rel in counted ==> SizeAt(get, RelSizeToKey(rel)) == Some(counted[rel])
    ensures counted == Sizes(get) && Countable(get)
  {
    SizesAre(get, counted);
  }

  /** The sizes of some relations of one database. */
  method CountDb(get: Snapshot, db: Db, total: nat, ghost counted: map<RelTag, nat>)
    returns (sum: Option<nat>, ghost counted': map<RelTag, nat>)
    requires total == Sum(counted) && forall rel :: rel in counted ==> DbOf(rel) != db
    ensures sum.None? ==>
              RelsOf(get, db).None? || exists r :: r in Forks(get, db) && SizeAt(get, RelSizeToKey(Rel(db, r))).None?
    ensures sum.Some? ==> RelsOf(get, db).Some? && sum.value == Sum(counted')
    ensures forall rel :: rel in counted ==> rel in counted' && counted'[rel] == counted[rel]
    ensures sum.Some? ==> forall rel ::
              rel in counted' <==> rel in counted || (DbOf(rel) == db && ForkOf(rel) in Forks(get, db))
    ensures forall rel :: rel in counted' && rel !in counted ==> SizeAt(get, RelSizeToKey(rel)) == Some(counted'[rel])
  {
    counted' := counted;
    var rels := RelsOf(get, db);
    if rels.None? { return None, counted'; }
    var todo := rels.value;
    var n: nat := total;
    while todo != {}
      invariant todo <= rels.value && n == Sum(counted')
      invariant forall rel :: rel in counted ==> rel in counted' && counted'[rel] == counted[rel]
      invariant forall rel ::
                  rel in counted' <==> rel in counted || (DbOf(rel) == db && ForkOf(rel) in rels.value - todo)
      invariant forall rel :: rel in counted' && rel !in counted ==>
                  SizeAt(get, RelSizeToKey(rel)) == Some(counted'[rel])
    {
      var r :| r in todo;
      var size := SizeAt(get, RelSizeToKey(Rel(db, r)));
      if size.None? { return None, counted'; }
      SumUpdate(counted', Rel(db, r), size.value);
      counted' := counted'[Rel(db, r) := size.value];
      n := n + size.value;
      todo := todo - {r};
    }
    sum := Some(n);
  }

  /** The logical size in bytes, counted from the directories. */
  method CurrentLogicalSizeNonIncremental(get: Snapshot) returns (size: Option<nat>)
    ensures size.Some? <==> Countable(get)
    ensures size.Some? ==> size.value == Total(get) * BLCKSZ
  {
    var dbdirs := DbDirs(get);
    if dbdirs.None? { return None; }
    var todo := dbdirs.value.Keys;
    var total: nat := 0;
    ghost var counted: map<RelTag, nat> := map[];
    ghost var done: set<Db> := {};
    while todo != {}
      invariant todo !! done && todo + done == dbdirs.value.Keys && total == Sum(counted)
      invariant forall db :: db in done ==> RelsOf(get, db).Some?
      invariant forall rel :: rel in counted <==> DbOf(rel) in done && ForkOf(rel) in Forks(get, DbOf(rel))
      invariant forall rel :: rel in counted ==> SizeAt(get, RelSizeToKey(rel)) == Some(counted[rel])
    {
      var db :| db in todo;
      var sum;
      ghost var counted';
      sum, counted' := CountDb(get, db, total, counted);
      if sum.None? {
        if RelsOf(get, db).Some? {
          var r :| r in Forks(get, db) && SizeAt(get, RelSizeToKey(Rel(db, r))).None?;
          assert Live(get, Rel(db, r));
        }
        return None;
      }
      total, counted, todo, done := sum.value, counted', todo - {db}, done + {db};
    }
    CountedAll(get, counted, done);
    size := Some(total * BLCKSZ);
  }
}
