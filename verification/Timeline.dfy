/**
  What a modification sees of a timeline: a store of versioned values, the LSN of the last record,
  the relation size cache and the incremental logical size. Deleted ranges are remembered and have no
  effect on reads.
*/
module Timelines {
  import opened Options
  import opened Keys
  import opened KeyLayout
  import opened Snapshots

  type Lsn = nat
  type Store = map<(Key, Lsn), Val>
  type Cache = map<RelTag, (Lsn, u32)>

  datatype Timeline = Timeline(
    store: Store, lastLsn: Lsn, cache: Cache, logicalSize: int, deleted: seq<(Range, Lsn)>)

  /** The newest version not above the LSN. */
  function Get(store: Store, key: Key, lsn: Lsn): Option<Val>
    decreases lsn
  {
    if (key, lsn) in store then Some(store[(key, lsn)])
    else if lsn == 0 then None
    else Get(store, key, lsn - 1)
  }

  function At(store: Store, lsn: Lsn): Snapshot {
    k => Get(store, k, lsn)
  }

  function Stamped(values: map<Key, Val>, lsn: Lsn): Store {
    map k | k in values :: (k, lsn) := values[k]
  }

  /** The store with these values as versions of one LSN. */
  function Written(store: Store, values: map<Key, Val>, lsn: Lsn): Store {
    store + Stamped(values, lsn)
  }

  /** No version of the key lies in (a, b]. */
  predicate Unwritten(store: Store, key: Key, a: Lsn, b: Lsn) {
    forall l :: a < l <= b ==> (key, l) !in store
  }

  lemma {:induction false} GetStays(store: Store, key: Key, a: Lsn, b: Lsn)
    requires a <= b && Unwritten(store, key, a, b)
    ensures Get(store, key, b) == Get(store, key, a)
    decreases b
  {
    if a < b { GetStays(store, key, a, b - 1); }
  }

  /** Stores that agree up to an LSN read the same up to it. */
  lemma {:induction false} GetAgrees(a: Store, b: Store, key: Key, lsn: Lsn)
    requires forall l :: l <= lsn ==>
               ((key, l) in a <==> (key, l) in b) && ((key, l) in a ==> a[(key, l)] == b[(key, l)])
    ensures Get(a, key, lsn) == Get(b, key, lsn)
    decreases lsn
  {
    if (key, lsn) !in a && lsn > 0 { GetAgrees(a, b, key, lsn - 1); }
  }

  lemma GetBelowWritten(store: Store, values: map<Key, Val>, lsn: Lsn, key: Key, l: Lsn)
    requires l < lsn
    ensures Get(Written(store, values, lsn), key, l) == Get(store, key, l)
  {
    GetAgrees(Written(store, values, lsn), store, key, l);
  }

  lemma GetWritten(store: Store, values: map<Key, Val>, lsn: Lsn, key: Key)
    ensures Get(Written(store, values, lsn), key, lsn) ==
            if key in values then Some(values[key]) else Get(store, key, lsn)
  {
    if key !in values { GetAgrees(Written(store, values, lsn), store, key, lsn); }
  }

  // --- the relation size cache and the reads that go through it

  function CachedRelSize(cache: Cache, rel: RelTag, lsn: Lsn): Option<u32> {
    if rel in cache && lsn >= cache[rel].0 then Some(cache[rel].1) else None
  }

  function UpdateCachedRelSize(cache: Cache, rel: RelTag, lsn: Lsn, nblocks: u32): Cache {
    if rel in cache && lsn < cache[rel].0 then cache else cache[rel := (lsn, nblocks)]
  }

  function RelExists(store: Store, cache: Cache, rel: RelTag, lsn: Lsn): Option<bool> {
    if rel.relnode == 0 then None
    else if CachedRelSize(cache, rel, lsn).Some? then Some(true)
    else
      match RelsOf(At(store, lsn), (rel.spcnode, rel.dbnode))
      case None => None
      case Some(rels) => Some((rel.relnode, rel.forknum) in rels)
  }

  /** Free space and visibility map forks that do not exist count as empty. */
  predicate MayBeMissing(rel: RelTag) {
    rel.forknum == FSM_FORKNUM || rel.forknum == VISIBILITYMAP_FORKNUM
  }

  /** get_rel_size: the size, and the cache afterwards. */
  function GetRelSize(store: Store, cache: Cache, rel: RelTag, lsn: Lsn, latest: bool): (Option<u32>, Cache) {
    if rel.relnode == 0 then (None, cache)
    else if CachedRelSize(cache, rel, lsn).Some? then (CachedRelSize(cache, rel, lsn), cache)
    else
      var exists_ := if MayBeMissing(rel) then RelExists(store, cache, rel, lsn) else Some(true);
      if exists_.None? then (None, cache)
      else if !exists_.value then (Some(0), cache)
      else
        match SizeAt(At(store, lsn), RelSizeToKey(rel))
        case None => (None, cache)
        case Some(n) => (Some(n), if latest then UpdateCachedRelSize(cache, rel, lsn, n) else cache)
  }

  /** The sizes of these relations, read in this order, up to the first that cannot be read. */
  function SumRelSizes(store: Store, cache: Cache, rels: seq<RelTag>, lsn: Lsn): (Option<nat>, Cache) {
    if rels == [] then (Some(0), cache)
    else
      var (sum, cache1) := SumRelSizes(store, cache, rels[..|rels| - 1], lsn);
      if sum.None? then (None, cache1)
      else
        var (n, cache2) := GetRelSize(store, cache1, rels[|rels| - 1], lsn, true);
        (if n.None? then None else Some(sum.value + n.value), cache2)
  }

  lemma SumOneMore(store: Store, cache: Cache, rels: seq<RelTag>, rel: RelTag, lsn: Lsn)
    ensures SumRelSizes(store, cache, rels + [rel], lsn) ==
            var (sum, cache1) := SumRelSizes(store, cache, rels, lsn);
            if sum.None? then (None, cache1)
            else
              var (n, cache2) := GetRelSize(store, cache1, rel, lsn, true);
              (if n.None? then None else Some(sum.value + n.value), cache2)
  {
    assert (rels + [rel])[..|rels|] == rels;
  }

  /** get_db_size: the relations of the database, in this order. */
  function GetDbSize(store: Store, cache: Cache, db: Db, order: seq<RelTag>, lsn: Lsn): (Option<nat>, Cache) {
    if RelsOf(At(store, lsn), db).None? then (None, cache) else SumRelSizes(store, cache, order, lsn)
  }
}
