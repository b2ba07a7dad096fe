/** Timeline and DatadirModification as objects that are updated in place, held to the state machine. */
module DatadirModifications {
  import opened Options
  import opened Keys
  import opened KeyLayout
  import opened Snapshots
  import opened Timelines
  import opened Modifications
  import opened PostgresFfi

  class Tline {
    var store: Store
    var lastLsn: Lsn
    var cache: Cache
    var logicalSize: int
    var deleted: seq<(Range, Lsn)>

    function Value(): Timeline
      reads this
    {
      Timeline(store, lastLsn, cache, logicalSize, deleted)
    }

    constructor (tl: Timeline)
      ensures Value() == tl
    {
      store, lastLsn, cache, logicalSize, deleted := tl.store, tl.lastLsn, tl.cache, tl.logicalSize, tl.deleted;
    }

    method GetRelExists(rel: RelTag, lsn: Lsn) returns (known: Option<bool>)
      ensures known == RelExists(store, cache, rel, lsn)
    {
      if rel.relnode == 0 { return None; }
      if CachedRelSize(cache, rel, lsn).Some? { return Some(true); }
      var rels := RelsOf(At(store, lsn), DbOf(rel));
      if rels.None? { return None; }
      known := Some(ForkOf(rel) in rels.value);
    }

    method RelSize(rel: RelTag, lsn: Lsn, latest: bool) returns (nblocks: Option<u32>)
      modifies this`cache
      ensures (nblocks, cache) == GetRelSize(store, old(cache), rel, lsn, latest)
    {
      if rel.relnode == 0 { return None; }
      nblocks := CachedRelSize(cache, rel, lsn);
      if nblocks.Some? { return; }
      if MayBeMissing(rel) {
        var known := GetRelExists(rel, lsn);
        if known.None? { return None; }
        if !known.value { return Some(0); }
      }
      nblocks := SizeAt(At(store, lsn), RelSizeToKey(rel));
      if nblocks.None? { return; }
      if latest { cache := UpdateCachedRelSize(cache, rel, lsn, nblocks.value); }
    }

    /** The relations are visited in no particular order; `order` is the one taken. */
    method DbSize(db: Db, lsn: Lsn) returns (total: Option<nat>, ghost order: seq<RelTag>)
      modifies this`cache
      ensures (total, cache) == GetDbSize(store, old(cache), db, order, lsn)
      ensures var rels := RelsOf(At(store, lsn), db); rels.Some? ==> Enumerates(order, rels.value, db)
    {
      order := [];
      var rels := RelsOf(At(store, lsn), db);
      if rels.None? { return None, order; }
      var list := ListRels(rels.value, db);
      order := list;
      total := SumSizes(list, lsn);
    }

    method SumSizes(rels: seq<RelTag>, lsn: Lsn) returns (total: Option<nat>)
      modifies this`cache
      ensures (total, cache) == SumRelSizes(store, old(cache), rels, lsn)
    {
      var sum: nat := 0;
      for i := 0 to |rels|
        invariant (Some(sum), cache) == SumRelSizes(store, old(cache), rels[..i], lsn)
      {
        assert rels[..i + 1] == rels[..i] + [rels[i]];
        SumOneMore(store, old(cache), rels[..i], rels[i], lsn);
        var n := RelSize(rels[i], lsn, true);
        if n.None? {
          StopsThere(store, old(cache), rels, i + 1, lsn);
          return None;
        }
        sum := sum + n.value;
      }
      assert rels[..|rels|] == rels;
      total := Some(sum);
    }
  }

  lemma OneMore(order: seq<RelTag>, rels: set<(u32, u8)>, db: Db, r: (u32, u8))
    requires Enumerates(order, rels, db) && r !in rels
    ensures Enumerates(order + [Rel(db, r)], rels + {r}, db)
  {
    var more := order + [Rel(db, r)];
    assert ForkOf(Rel(db, r)) == r;
    assert more[|order|] == Rel(db, r);
    forall q | q in rels + {r} ensures Rel(db, q) in more {
      if q in rels {
        assert Rel(db, q) in order;
        var i :| 0 <= i < |order| && order[i] == Rel(db, q);
        assert more[i] == Rel(db, q);
      }
    }
  }

  method ListRels(rels: set<(u32, u8)>, db: Db) returns (order: seq<RelTag>)
    ensures Enumerates(order, rels, db)
  {
    order := [];
    var todo := rels;
    while todo != {}
      invariant todo <= rels && Enumerates(order, rels - todo, db)
    {
      var r :| r in todo;
      OneMore(order, rels - todo, db, r);
      assert rels - (todo - {r}) == rels - todo + {r};
      order := order + [Rel(db, r)];
      todo := todo - {r};
    }
    assert rels - todo == rels;
  }

  /** Once a size could not be read, the relations after it make no difference. */
  lemma {:induction false} StopsThere(store: Store, cache: Cache, rels: seq<RelTag>, i: nat, lsn: Lsn)
    requires i <= |rels| && SumRelSizes(store, cache, rels[..i], lsn).0.None?
    ensures SumRelSizes(store, cache, rels, lsn) == SumRelSizes(store, cache, rels[..i], lsn)
    decreases |rels| - i
  {
    if i == |rels| {
      assert rels[..i] == rels;
    } else {
      assert rels[..i + 1] == rels[..i] + [rels[i]];
      SumOneMore(store, cache, rels[..i], rels[i], lsn);
      StopsThere(store, cache, rels, i + 1, lsn);
    }
  }

  lemma PutsJoin(updates: map<Key, Val>, a: map<Key, Val>, k1: Key, v1: Val, k2: Key, v2: Val)
    requires k1 != k2
    ensures (updates + a)[k1 := v1][k2 := v2] == updates + (a + map[k1 := v1, k2 := v2])
  {
  }

  lemma PutsAssociate(updates: map<Key, Val>, a: map<Key, Val>, b: map<Key, Val>, c: map<Key, Val>)
    ensures updates + a + b + c == updates + (a + b + c)
  {
  }

  lemma StampedStep(done: map<Key, Val>, key: Key, val: Val, lsn: Lsn)
    ensures Stamped(done[key := val], lsn) == Stamped(done, lsn)[(key, lsn) := val]
  {
  }

  lemma WrittenStep(store: Store, done: map<Key, Val>, key: Key, val: Val, lsn: Lsn)
    ensures Written(store, done[key := val], lsn) == Written(store, done, lsn)[(key, lsn) := val]
  {
    StampedStep(done, key, val, lsn);
  }

  lemma BlockDrained(done: map<Key, Val>, key: Key, val: Val)
    requires key !in done && IsBlockKey(key)
    ensures var done' := done[key := val];
            Blocks(done') == Blocks(done)[key := val] && done' - Blocks(done').Keys == done - Blocks(done).Keys
  {
    assert Blocks(done[key := val]) == Blocks(done)[key := val];
  }

  lemma OtherDrained(done: map<Key, Val>, key: Key, val: Val)
    requires key !in done && !IsBlockKey(key)
    ensures var done' := done[key := val];
            Blocks(done') == Blocks(done) && done' - Blocks(done').Keys == (done - Blocks(done).Keys)[key := val]
  {
    assert Blocks(done[key := val]) == Blocks(done);
  }

  lemma MoveOne(done: map<Key, Val>, todo: map<Key, Val>, key: Key)
    requires key in todo && todo.Keys !! done.Keys
    ensures done[key := todo[key]] + (todo - {key}) == done + todo
    ensures (todo - {key}).Keys !! done[key := todo[key]].Keys
  {
  }

  lemma NothingDrained(store: Store, todo: map<Key, Val>, lsn: Lsn)
    ensures var none: map<Key, Val> := map[];
            Written(store, Blocks(none), lsn) == store && none - Blocks(none).Keys == none && none + todo == todo
  {
    assert Blocks(map[]) == map[];
  }

  lemma AllDrained(done: map<Key, Val>)
    ensures done + map[] == done
  {
  }

  class DatadirModification {
    const tline: Tline
    var lsn: Lsn
    var pendingUpdates: map<Key, Val>
    var pendingDeletions: seq<Range>
    var pendingNblocks: int

    function Value(): State
      reads this, tline
    {
      State(tline.Value(), Modification(lsn, pendingUpdates, pendingDeletions, pendingNblocks))
    }

    /** begin_modification */
    constructor (tline: Tline, lsn: Lsn)
      ensures this.tline == tline && Value() == Begin(tline.Value(), lsn)
    {
      this.tline, this.lsn := tline, lsn;
      pendingUpdates, pendingDeletions, pendingNblocks := map[], [], 0;
    }

    function Get(key: Key): Option<Val>
      reads this, tline
    {
      View(Value(), key)
    }

    method Put(key: Key, val: Val)
      modifies this`pendingUpdates
      ensures pendingUpdates == old(pendingUpdates)[key := val]
    {
      pendingUpdates := pendingUpdates[key := val];
    }

    /** The database's relations, in a database that may have to be added to the list first. */
    method RelDirForCreation(rel: RelTag, dbs: map<Db, bool>, dir: Option<Val>)
      returns (rels: Option<set<(u32, u8)>>, ghost dbputs: map<Key, Val>)
      modifies this`pendingUpdates
      ensures pendingUpdates == old(pendingUpdates) + dbputs
      ensures if DbOf(rel) !in dbs
              then rels == Some({}) && dbputs == map[DBDIR_KEY := DbDirectory(dbs[DbOf(rel) := false])]
              else dbputs == map[]
                   && rels == if dir.Some? && dir.value.RelDirectory? then Some(dir.value.rels) else None
    {
      dbputs := map[];
      if DbOf(rel) !in dbs {
        Put(DBDIR_KEY, DbDirectory(dbs[DbOf(rel) := false]));
        dbputs := map[DBDIR_KEY := DbDirectory(dbs[DbOf(rel) := false])];
        rels := Some({});
      } else {
        rels := if dir.Some? && dir.value.RelDirectory? then Some(dir.value.rels) else None;
      }
    }

    method PutRelCreation(rel: RelTag, nblocks: u32) returns (error: Option<Error>)
      modifies this, tline`cache
      ensures var plan := CreateIn(old(Value()), rel, nblocks);
              Value() == Apply(old(Value()), plan) && error == plan.error
    {
      if rel.relnode == 0 { return Some(InvalidRelnode); }
      var dbdir, dir := Get(DBDIR_KEY), Get(DirKey(DbOf(rel)));
      if dbdir.None? || !dbdir.value.DbDirectory? { return Some(Unreadable); }
      var rels;
      ghost var dbputs;
      rels, dbputs := RelDirForCreation(rel, dbdir.value.dbdirs, dir);
      if rels.None? { return Some(Unreadable); }
      if ForkOf(rel) in rels.value { return Some(AlreadyExists); }
      var size, rest := NBlocks(nblocks), RelDirectory(rels.value + {ForkOf(rel)});
      Put(DirKey(DbOf(rel)), rest);
      Put(RelSizeToKey(rel), size);
      PutsJoin(old(pendingUpdates), dbputs, DirKey(DbOf(rel)), rest, RelSizeToKey(rel), size);
      pendingNblocks := pendingNblocks + nblocks;
      tline.cache := tline.cache[rel := (lsn, nblocks)];
      error := None;
    }

    method PutRelTruncation(rel: RelTag, nblocks: u32) returns (error: Option<Error>)
      modifies this, tline`cache
      ensures var plan := TruncateIn(old(Value()), rel, nblocks);
              Value() == Apply(old(Value()), plan) && error == plan.error
    {
      if rel.relnode == 0 { return Some(InvalidRelnode); }
      var known := tline.GetRelExists(rel, tline.lastLsn);
      if known.None? { return Some(Unreadable); }
      if known.value {
        var size := Get(RelSizeToKey(rel));
        if size.None? || !size.value.NBlocks? { return Some(Unreadable); }
        Put(RelSizeToKey(rel), NBlocks(nblocks));
        tline.cache := tline.cache[rel := (lsn, nblocks)];
        pendingNblocks := pendingNblocks - (size.value.nblocks - nblocks);
      }
      error := None;
    }

    method PutRelExtend(rel: RelTag, nblocks: u32) returns (error: Option<Error>)
      modifies this, tline`cache
      ensures var plan := ExtendIn(old(Value()), rel, nblocks);
              Value() == Apply(old(Value()), plan) && error == plan.error
    {
      if rel.relnode == 0 { return Some(InvalidRelnode); }
      var size := Get(RelSizeToKey(rel));
      if size.None? || !size.value.NBlocks? { return Some(Unreadable); }
      if nblocks > size.value.nblocks {
        Put(RelSizeToKey(rel), NBlocks(nblocks));
        tline.cache := tline.cache[rel := (lsn, nblocks)];
        pendingNblocks := pendingNblocks + (nblocks - size.value.nblocks);
      }
      error := None;
    }

    /** The first part of the drop: the directory. */
    method Unlist(rel: RelTag, rels: set<(u32, u8)>)
      modifies this`pendingUpdates
      ensures pendingUpdates == old(pendingUpdates) +
                                if ForkOf(rel) in rels
                                then map[DirKey(DbOf(rel)) := RelDirectory(rels - {ForkOf(rel)})] else map[]
    {
      if ForkOf(rel) in rels { Put(DirKey(DbOf(rel)), RelDirectory(rels - {ForkOf(rel)})); }
    }

    /** The last part of the drop: the blocks, the cache, and the range to delete. */
    method ForgetRel(rel: RelTag, nblocks: u32) returns (error: Option<Error>)
      modifies this`pendingNblocks, this`pendingDeletions, tline`cache
      ensures pendingNblocks == old(pendingNblocks) - nblocks && tline.cache == old(tline.cache) - {rel}
      ensures rel.forknum == 0xff ==> error == Some(ForkOverflow) && pendingDeletions == old(pendingDeletions)
      ensures rel.forknum != 0xff ==> error.None? && pendingDeletions == old(pendingDeletions) + [RelKeyRange(rel)]
    {
      pendingNblocks := pendingNblocks - nblocks;
      tline.cache := tline.cache - {rel};
      if rel.forknum == 0xff { return Some(ForkOverflow); }
      pendingDeletions := pendingDeletions + [RelKeyRange(rel)];
      error := None;
    }

    method PutRelDrop(rel: RelTag) returns (error: Option<Error>)
      modifies this, tline`cache
      ensures var plan := DropIn(old(Value()), rel);
              Value() == Apply(old(Value()), plan) && error == plan.error
    {
      if rel.relnode == 0 { return Some(InvalidRelnode); }
      var dir := Get(DirKey(DbOf(rel)));
      if dir.None? || !dir.value.RelDirectory? { return Some(Unreadable); }
      var size := Get(RelSizeToKey(rel));
      Unlist(rel, dir.value.rels);
      if size.None? || !size.value.NBlocks? { return Some(Unreadable); }
      error := ForgetRel(rel, size.value.nblocks);
    }

    method RemoveDb(db: Db, total: nat) returns (error: Option<Error>)
      modifies this
      ensures var plan := DropDbPlan(Some(total), old(Get(DBDIR_KEY)), tline.cache, db);
              Value() == Apply(old(Value()), plan) && error == plan.error
    {
      var dbdir := Get(DBDIR_KEY);
      if dbdir.None? || !dbdir.value.DbDirectory? { return Some(Unreadable); }
      if db in dbdir.value.dbdirs { Put(DBDIR_KEY, DbDirectory(dbdir.value.dbdirs - {db})); }
      pendingNblocks := pendingNblocks - total;
      pendingDeletions := pendingDeletions + [DbdirKeyRange(db.0, db.1)];
      error := None;
    }

    method DropDbdir(db: Db) returns (error: Option<Error>, ghost order: seq<RelTag>)
      modifies this, tline`cache
      ensures var plan := DropDbIn(old(Value()), db, order);
              Value() == Apply(old(Value()), plan) && error == plan.error
      ensures var rels := RelsOf(At(tline.store, tline.lastLsn), db); rels.Some? ==> Enumerates(order, rels.value, db)
    {
      var total;
      total, order := tline.DbSize(db, tline.lastLsn);
      if total.None? { return Some(Unreadable), order; }
      error := RemoveDb(db, total.value);
    }

    method PutRelPage(rel: RelTag, blknum: u32, page: Val) returns (error: Option<Error>)
      modifies this`pendingUpdates
      ensures var plan := PagePlan(tline.cache, rel, blknum, page);
              Value() == Apply(old(Value()), plan) && error == plan.error
    {
      if rel.relnode == 0 { return Some(InvalidRelnode); }
      Put(RelBlockToKey(rel, blknum), page);
      error := None;
    }

    method PutIf(needed: bool, key: Key, val: Val)
      modifies this`pendingUpdates
      ensures pendingUpdates == old(pendingUpdates) + if needed then map[key := val] else map[]
    {
      if needed { Put(key, val); }
    }

    method PutRelmapFile(db: Db, img: Page) returns (error: Option<Error>)
      modifies this`pendingUpdates
      ensures var plan := RelmapPlan(old(Get(DBDIR_KEY)), tline.cache, db, img);
              Value() == Apply(old(Value()), plan) && error == plan.error
    {
      var dbdir := Get(DBDIR_KEY);
      if dbdir.None? || !dbdir.value.DbDirectory? { return Some(Unreadable); }
      var dbs := dbdir.value.dbdirs;
      PutIf(!(db in dbs && dbs[db]), DBDIR_KEY, DbDirectory(dbs[db := true]));
      PutIf(db !in dbs, DirKey(db), RelDirectory({}));
      PutIf(true, RelmapFileKey(db.0, db.1), Image(img));
      ghost var marked := if db in dbs && dbs[db] then map[] else map[DBDIR_KEY := DbDirectory(dbs[db := true])];
      ghost var created := if db in dbs then map[] else map[DirKey(db) := RelDirectory({})];
      PutsAssociate(old(pendingUpdates), marked, created, map[RelmapFileKey(db.0, db.1) := Image(img)]);
      error := None;
    }

    /** Data blocks go to the store one by one; the rest is kept. */
    /** One pending value: a block is written, anything else is kept. */
    method DrainOne(key: Key, val: Val, retained: map<Key, Val>, ghost store: Store, ghost done: map<Key, Val>)
        returns (retained': map<Key, Val>)
      requires key !in done && retained == done - Blocks(done).Keys && tline.store == Written(store, Blocks(done), lsn)
      modifies tline`store
      ensures retained' == done[key := val] - Blocks(done[key := val]).Keys
      ensures tline.store == Written(store, Blocks(done[key := val]), lsn)
    {
      retained' := retained;
      if IsBlockKey(key) {
        BlockDrained(done, key, val);
        WrittenStep(store, Blocks(done), key, val, lsn);
        tline.store := tline.store[(key, lsn) := val];
      } else {
        OtherDrained(done, key, val);
        retained' := retained[key := val];
      }
    }

    method DrainBlocks()
      modifies this`pendingUpdates, tline`store
      ensures tline.store == Written(old(tline.store), Blocks(old(pendingUpdates)), lsn)
      ensures pendingUpdates == old(pendingUpdates) - Blocks(old(pendingUpdates)).Keys
    {
      var todo, retained := pendingUpdates, map[];
      ghost var done: map<Key, Val>, store := map[], tline.store;
      NothingDrained(store, todo, lsn);
      while todo != map[]
        invariant todo.Keys !! done.Keys && done + todo == old(pendingUpdates)
        invariant retained == done - Blocks(done).Keys && tline.store == Written(store, Blocks(done), lsn)
        decreases |todo|
      {
        var key :| key in todo;
        MoveOne(done, todo, key);
        retained := DrainOne(key, todo[key], retained, store, done);
        done, todo := done[key := todo[key]], todo - {key};
      }
      AllDrained(done);
      pendingUpdates := retained;
    }

    method FlushBlocks()
      modifies this, tline
      ensures Value() == Flush(old(Value()))
    {
      if pendingNblocks < FLUSH_THRESHOLD { return; }
      DrainBlocks();
      tline.logicalSize := tline.logicalSize + pendingNblocks * BLCKSZ;
      pendingNblocks := 0;
    }

    method WriteUpdates()
      modifies this`pendingUpdates, tline`store
      ensures tline.store == Written(old(tline.store), old(pendingUpdates), lsn) && pendingUpdates == map[]
    {
      var todo := pendingUpdates;
      pendingUpdates := map[];
      ghost var done: map<Key, Val> := map[];
      while todo != map[]
        invariant todo.Keys !! done.Keys && done + todo == old(pendingUpdates) && pendingUpdates == map[]
        invariant tline.store == Written(old(tline.store), done, lsn)
        decreases |todo|
      {
        var key :| key in todo;
        WrittenStep(old(tline.store), done, key, todo[key], lsn);
        tline.store := tline.store[(key, lsn) := todo[key]];
        MoveOne(done, todo, key);
        done := done[key := todo[key]];
        todo := todo - {key};
      }
      assert done + todo == done;
    }

    method WriteDeletions()
      modifies this`pendingDeletions, tline`deleted
      ensures pendingDeletions == []
      ensures tline.deleted == old(tline.deleted) + AllAt(old(pendingDeletions), lsn)
    {
      var i := 0;
      while i < |pendingDeletions|
        invariant i <= |pendingDeletions| && pendingDeletions == old(pendingDeletions)
        invariant tline.deleted == old(tline.deleted) + AllAt(pendingDeletions, lsn)[..i]
      {
        tline.deleted := tline.deleted + [(pendingDeletions[i], lsn)];
        i := i + 1;
      }
      pendingDeletions := [];
    }

    method CommitAll()
      modifies this, tline
      ensures Value() == Commit(old(Value()))
    {
      var nblocks := pendingNblocks;
      pendingNblocks := 0;
      WriteUpdates();
      WriteDeletions();
      tline.lastLsn := lsn;
      tline.logicalSize := tline.logicalSize + nblocks * BLCKSZ;
    }
  }
}
