/**
  DatadirModification as a state machine. Each operation reads a few values, plans what it puts,
  deletes and does to the block count and the size cache, and the plan is carried out; a failing
  operation keeps what it did before it failed.
*/
module Modifications {
  import opened Options
  import opened Keys
  import opened KeyLayout
  import opened Snapshots
  import opened Timelines
  import opened PostgresFfi

  const FLUSH_THRESHOLD: int := 10000

  /** ForkOverflow is the panic of forknum + 1 in a build with overflow checks. */
  datatype Error = InvalidRelnode | AlreadyExists | Unreadable | ForkOverflow

  datatype Modification = Modification(lsn: Lsn, updates: map<Key, Val>, deletions: seq<Range>, nblocks: int)

  datatype State = State(tl: Timeline, m: Modification)

  function Begin(tl: Timeline, lsn: Lsn): State {
    State(tl, Modification(lsn, map[], [], 0))
  }

  function Max(a: nat, b: nat): nat {
    if a < b then b else a
  }

  /** DatadirModification::get: pending values come before stored ones. */
  function View(s: State, key: Key): Option<Val> {
    if key in s.m.updates then Some(s.m.updates[key])
    else Get(s.tl.store, key, Max(s.tl.lastLsn, s.m.lsn))
  }

  function Viewed(s: State): Snapshot {
    k => View(s, k)
  }

  // --- plans

  datatype Plan = Plan(puts: map<Key, Val>, blocks: int, cache: Cache, deletes: seq<Range>, error: Option<Error>)

  function Nothing(cache: Cache): Plan {
    Plan(map[], 0, cache, [], None)
  }

  function Fail(cache: Cache, error: Error): Plan {
    Plan(map[], 0, cache, [], Some(error))
  }

  function Apply(s: State, plan: Plan): State {
    State(s.tl.(cache := plan.cache),
          s.m.(updates := s.m.updates + plan.puts,
               deletions := s.m.deletions + plan.deletes,
               nblocks := s.m.nblocks + plan.blocks))
  }

  function DbOf(rel: RelTag): Db {
    (rel.spcnode, rel.dbnode)
  }

  function ForkOf(rel: RelTag): (u32, u8) {
    (rel.relnode, rel.forknum)
  }

  function DirKey(db: Db): Key {
    RelDirToKey(db.0, db.1)
  }

  function Resized(rel: RelTag, nblocks: u32, blocks: int, cache: Cache, lsn: Lsn): Plan {
    Plan(map[RelSizeToKey(rel) := NBlocks(nblocks)], blocks, cache[rel := (lsn, nblocks)], [], None)
  }

  function CreatePlan(dbdir: Option<Val>, reldir: Option<Val>, cache: Cache, lsn: Lsn,
                      rel: RelTag, nblocks: u32): Plan
  {
    if rel.relnode == 0 then Fail(cache, InvalidRelnode)
    else if dbdir.None? || !dbdir.value.DbDirectory? then Fail(cache, Unreadable)
    else
      var dbs := dbdir.value.dbdirs;
      var isNew := DbOf(rel) !in dbs;
      if !isNew && (reldir.None? || !reldir.value.RelDirectory?) then Fail(cache, Unreadable)
      else
        var rels := if isNew then {} else reldir.value.rels;
        if ForkOf(rel) in rels then Fail(cache, AlreadyExists)
        else
          var dbputs := if isNew then map[DBDIR_KEY := DbDirectory(dbs[DbOf(rel) := false])] else map[];
          Resized(rel, nblocks, nblocks, cache, lsn).(
            puts := dbputs + map[DirKey(DbOf(rel)) := RelDirectory(rels + {ForkOf(rel)}),
                                 RelSizeToKey(rel) := NBlocks(nblocks)])
  }

  /** `known` is what get_rel_exists says at the last record's LSN. */
  function TruncatePlan(known: Option<bool>, size: Option<Val>, cache: Cache, lsn: Lsn,
                        rel: RelTag, nblocks: u32): Plan
  {
    if rel.relnode == 0 then Fail(cache, InvalidRelnode)
    else if known.None? then Fail(cache, Unreadable)
    else if !known.value then Nothing(cache)
    else if size.None? || !size.value.NBlocks? then Fail(cache, Unreadable)
    else Resized(rel, nblocks, nblocks - size.value.nblocks, cache, lsn)
  }

  function ExtendPlan(size: Option<Val>, cache: Cache, lsn: Lsn, rel: RelTag, nblocks: u32): Plan {
    if rel.relnode == 0 then Fail(cache, InvalidRelnode)
    else if size.None? || !size.value.NBlocks? then Fail(cache, Unreadable)
    else if nblocks <= size.value.nblocks then Nothing(cache)
    else Resized(rel, nblocks, nblocks - size.value.nblocks, cache, lsn)
  }

  /** The directory is updated even when the size then turns out to be unreadable. */
  function DropPlan(reldir: Option<Val>, size: Option<Val>, cache: Cache, rel: RelTag): Plan {
    if rel.relnode == 0 then Fail(cache, InvalidRelnode)
    else if reldir.None? || !reldir.value.RelDirectory? then Fail(cache, Unreadable)
    else
      var puts := if ForkOf(rel) in reldir.value.rels
                  then map[DirKey(DbOf(rel)) := RelDirectory(reldir.value.rels - {ForkOf(rel)})] else map[];
      if size.None? || !size.value.NBlocks? then Fail(cache, Unreadable).(puts := puts)
      else
        var blocks := 0 - size.value.nblocks;
        if rel.forknum == 0xff then Plan(puts, blocks, cache - {rel}, [], Some(ForkOverflow))
        else Plan(puts, blocks, cache - {rel}, [RelKeyRange(rel)], None)
  }

  /** `sum` is what get_db_size says at the last record's LSN. */
  function DropDbPlan(sum: Option<nat>, dbdir: Option<Val>, cache: Cache, db: Db): Plan {
    if sum.None? || dbdir.None? || !dbdir.value.DbDirectory? then Fail(cache, Unreadable)
    else
      var puts := if db in dbdir.value.dbdirs then map[DBDIR_KEY := DbDirectory(dbdir.value.dbdirs - {db})] else map[];
      Plan(puts, 0 - sum.value, cache, [DbdirKeyRange(db.0, db.1)], None)
  }

  function PagePlan(cache: Cache, rel: RelTag, blknum: u32, page: Val): Plan {
    if rel.relnode == 0 then Fail(cache, InvalidRelnode)
    else Nothing(cache).(puts := map[RelBlockToKey(rel, blknum) := page])
  }

  function RelmapPlan(dbdir: Option<Val>, cache: Cache, db: Db, img: Page): Plan {
    if dbdir.None? || !dbdir.value.DbDirectory? then Fail(cache, Unreadable)
    else
      var dbs := dbdir.value.dbdirs;
      var marked := if db in dbs && dbs[db] then map[] else map[DBDIR_KEY := DbDirectory(dbs[db := true])];
      var created := if db in dbs then map[] else map[DirKey(db) := RelDirectory({})];
      Nothing(cache).(puts := marked + created + map[RelmapFileKey(db.0, db.1) := Image(img)])
  }

  // --- operations

  datatype Op =
    | Create(rel: RelTag, nblocks: u32)
    | Truncate(rel: RelTag, nblocks: u32)
    | Extend(rel: RelTag, nblocks: u32)
    | Drop(rel: RelTag)
    | DropDb(db: Db, order: seq<RelTag>)
    | PutPage(rel: RelTag, blknum: u32, page: Val)
    | PutSlruPage(kind: SlruKind, segno: u32, blknum: u32, page: Val)
    | PutRelmap(db: Db, img: Page)
    | ReadSize(rel: RelTag, lsn: Lsn, latest: bool)

  function CreateIn(s: State, rel: RelTag, nblocks: u32): Plan {
    CreatePlan(View(s, DBDIR_KEY), View(s, DirKey(DbOf(rel))), s.tl.cache, s.m.lsn, rel, nblocks)
  }

  function TruncateIn(s: State, rel: RelTag, nblocks: u32): Plan {
    TruncatePlan(RelExists(s.tl.store, s.tl.cache, rel, s.tl.lastLsn), View(s, RelSizeToKey(rel)),
                 s.tl.cache, s.m.lsn, rel, nblocks)
  }

  function ExtendIn(s: State, rel: RelTag, nblocks: u32): Plan {
    ExtendPlan(View(s, RelSizeToKey(rel)), s.tl.cache, s.m.lsn, rel, nblocks)
  }

  function DropIn(s: State, rel: RelTag): Plan {
    DropPlan(View(s, DirKey(DbOf(rel))), View(s, RelSizeToKey(rel)), s.tl.cache, rel)
  }

  function DropDbIn(s: State, db: Db, order: seq<RelTag>): Plan {
    var (sum, cache) := GetDbSize(s.tl.store, s.tl.cache, db, order, s.tl.lastLsn);
    DropDbPlan(sum, View(s, DBDIR_KEY), cache, db)
  }

  function PlanOf(s: State, op: Op): Plan {
    var cache := s.tl.cache;
    match op
    case Create(rel, n) => CreateIn(s, rel, n)
    case Truncate(rel, n) => TruncateIn(s, rel, n)
    case Extend(rel, n) => ExtendIn(s, rel, n)
    case Drop(rel) => DropIn(s, rel)
    case DropDb(db, order) => DropDbIn(s, db, order)
    case PutPage(rel, blknum, page) => PagePlan(cache, rel, blknum, page)
    case PutSlruPage(kind, segno, blknum, page) =>
      Nothing(cache).(puts := map[SlruBlockToKey(kind, segno, blknum) := page])
    case PutRelmap(db, img) => RelmapPlan(View(s, DBDIR_KEY), cache, db, img)
    case ReadSize(rel, at, latest) => Nothing(GetRelSize(s.tl.store, cache, rel, at, latest).1)
  }

  /** The relations get_db_size goes through, in some order. */
  ghost predicate Enumerates(order: seq<RelTag>, rels: set<(u32, u8)>, db: Db) {
    && (forall i :: 0 <= i < |order| ==> DbOf(order[i]) == db && ForkOf(order[i]) in rels)
    && (forall r :: r in rels ==> Rel(db, r) in order)
    && (forall i, j :: 0 <= i < j < |order| ==> order[i] != order[j])
  }

  /** The drop of a database goes through the relations listed at the last record, if it can read them. */
  ghost predicate GoesThrough(s: State, op: Op)
    requires op.DropDb?
  {
    var rels := RelsOf(At(s.tl.store, s.tl.lastLsn), op.db);
    rels.Some? ==> Enumerates(op.order, rels.value, op.db)
  }

  function Perform(s: State, op: Op): State {
    Apply(s, PlanOf(s, op))
  }

  predicate IsBlockKey(key: Key) {
    IsRelBlockKey(key) || IsSlruBlockKey(key)
  }

  function Blocks(updates: map<Key, Val>): map<Key, Val> {
    map k | k in updates && IsBlockKey(k) :: updates[k]
  }

  /** Write out the data blocks, if that is worth while; keep the metadata pending. Relation sizes
      count as data blocks. */
  function Flush(s: State): State {
    if s.m.nblocks < FLUSH_THRESHOLD then s
    else
      var blocks := Blocks(s.m.updates);
      State(s.tl.(store := Written(s.tl.store, blocks, s.m.lsn),
                  logicalSize := s.tl.logicalSize + s.m.nblocks * BLCKSZ),
            s.m.(updates := s.m.updates - blocks.Keys, nblocks := 0))
  }

  function AllAt(deletions: seq<Range>, lsn: Lsn): seq<(Range, Lsn)> {
    seq(|deletions|, i requires 0 <= i < |deletions| => (deletions[i], lsn))
  }

  function Commit(s: State): State {
    State(Timeline(Written(s.tl.store, s.m.updates, s.m.lsn), s.m.lsn, s.tl.cache,
                   s.tl.logicalSize + s.m.nblocks * BLCKSZ, s.tl.deleted + AllAt(s.m.deletions, s.m.lsn)),
          s.m.(updates := map[], deletions := [], nblocks := 0))
  }

  /** What the store will hold once the modification is committed as it stands. */
  function Pending(s: State): Store {
    Written(s.tl.store, s.m.updates, s.m.lsn)
  }

  lemma ViewIsPending(s: State, key: Key)
    requires s.tl.lastLsn <= s.m.lsn
    ensures View(s, key) == Get(Pending(s), key, s.m.lsn)
  {
    GetWritten(s.tl.store, s.m.updates, s.m.lsn, key);
  }

  lemma ViewAfter(s: State, plan: Plan, key: Key)
    ensures View(Apply(s, plan), key) == if key in plan.puts then Some(plan.puts[key]) else View(s, key)
  {
  }

  /** The keys of what an operation drops: a relation fork, or a database with all its relations. A
      database's last possible key, which no relation of Postgres has, is not among them. */
  predicate Drops(op: Op, key: Key) {
    match op
    case Drop(rel) => key == RelBlockToKey(rel, key.field6)
    case DropDb(db, _) =>
      key.field1 == 0 && (key.field2, key.field3) == db && key != RelSizeToKey(RelTag(db.0, db.1, 0xffff_ffff, 0xff))
    case _ => false
  }

  ghost predicate Deleted(deleted: seq<(Range, Lsn)>, key: Key, at: Lsn) {
    exists i :: 0 <= i < |deleted| && deleted[i].1 == at && KeyIn(deleted[i].0, key)
  }

  lemma DbdirRangeHolds(db: Db, key: Key)
    ensures KeyIn(DbdirKeyRange(db.0, db.1), key) <==> Drops(DropDb(db, []), key)
  {
  }

  lemma PlanDeletes(s: State, op: Op, key: Key)
    ensures var deletes := PlanOf(s, op).deletes;
            if PlanOf(s, op).error.None? && (op.Drop? || op.DropDb?)
            then |deletes| == 1 && (KeyIn(deletes[0], key) <==> Drops(op, key)) else deletes == []
  {
    if op.Drop? && op.rel.forknum < 0xff {
      RelRangeIsExact(op.rel, key);
    } else if op.DropDb? {
      DbdirRangeHolds(op.db, key);
    }
  }

  lemma OneMoreDeleted(deleted: seq<(Range, Lsn)>, range: Range, lsn: Lsn, key: Key, at: Lsn)
    ensures Deleted(deleted + [(range, lsn)], key, at) <==>
            Deleted(deleted, key, at) || (at == lsn && KeyIn(range, key))
  {
    var more := deleted + [(range, lsn)];
    assert forall i :: 0 <= i < |deleted| ==> more[i] == deleted[i];
    assert more[|deleted|] == (range, lsn);
  }

  lemma CommittedDeletes(s: State, plan: Plan)
    ensures Commit(Apply(s, plan)).tl.deleted == Commit(s).tl.deleted + AllAt(plan.deletes, s.m.lsn)
  {
  }

  /** Committing an operation deletes the keys of what a successful drop drops, at the modification's LSN,
      and no other keys. */
  lemma DroppedIsDeleted(s: State, op: Op, key: Key, at: Lsn)
    ensures Deleted(Commit(Perform(s, op)).tl.deleted, key, at) <==>
            Deleted(Commit(s).tl.deleted, key, at)
            || (PlanOf(s, op).error.None? && at == s.m.lsn && Drops(op, key))
  {
    var deletes, before := PlanOf(s, op).deletes, Commit(s).tl.deleted;
    CommittedDeletes(s, PlanOf(s, op));
    PlanDeletes(s, op, key);
    if deletes == [] {
      assert before + AllAt(deletes, s.m.lsn) == before;
    } else {
      assert AllAt(deletes, s.m.lsn) == [(deletes[0], s.m.lsn)];
      OneMoreDeleted(before, deletes[0], s.m.lsn, key, at);
    }
  }
}
