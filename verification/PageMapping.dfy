/**
  The three mappings of the page cache and their size gauges, as one object whose methods are the
  sections the source runs under a mapping lock. `mapping` is the map the step machine works with.
*/
module PageMapping {
  import opened Options
  import opened PageCacheTypes

  datatype Version = Version(lsn: Lsn, slotIdx: nat)

  predicate Sorted(vs: seq<Version>) {
    forall i, j :: 0 <= i < j < |vs| ==> vs[i].lsn < vs[j].lsn
  }

  /** binary_search_by_key on the LSNs: the position of `lsn`, or where it would have to be inserted. */
  method BinarySearch(vs: seq<Version>, lsn: Lsn) returns (found: bool, idx: nat)
    requires Sorted(vs)
    ensures idx <= |vs|
    ensures forall j :: 0 <= j < idx ==> vs[j].lsn < lsn
    ensures found ==> idx < |vs| && vs[idx].lsn == lsn
    ensures !found ==> forall j :: idx <= j < |vs| ==> lsn < vs[j].lsn
  {
    var lo, hi := 0, |vs|;
    while lo < hi
      invariant 0 <= lo <= hi <= |vs|
      invariant forall j :: 0 <= j < lo ==> vs[j].lsn < lsn
      invariant forall j :: hi <= j < |vs| ==> lsn < vs[j].lsn
    {
      var mid := (lo + hi) / 2;
      if vs[mid].lsn == lsn {
        return true, mid;
      } else if vs[mid].lsn < lsn {
        lo := mid + 1;
      } else {
        hi := mid;
      }
    }
    return false, lo;
  }

  // --- the three maps as parts of one mapping

  ghost predicate VersionsOf(versions: map<HashKey, seq<Version>>, m: map<CacheKey, nat>) {
    && (forall h :: h in versions ==> versions[h] != [] && Sorted(versions[h]))
    && (forall h, v :: h in versions && v in versions[h] ==>
          MaterializedPage(h, v.lsn) in m && m[MaterializedPage(h, v.lsn)] == v.slotIdx)
    && (forall k :: k in m && k.MaterializedPage? ==>
          k.hashKey in versions && Version(k.lsn, m[k]) in versions[k.hashKey])
  }

  ghost predicate BlocksOf(kind: Kind, blocks: map<(nat, nat), nat>, m: map<CacheKey, nat>) {
    && (forall p :: p in blocks ==> BlockKey(kind, p) in m && m[BlockKey(kind, p)] == blocks[p])
    && (forall k :: k in m && !k.MaterializedPage? && KindOf(k) == kind ==> (k.fileId, k.blkno) in blocks)
  }

  function BlockKey(kind: Kind, p: (nat, nat)): CacheKey {
    if kind.Ephemeral? then EphemeralPage(p.0, p.1) else ImmutableFilePage(p.0, p.1)
  }

  ghost predicate GaugesOf(bytes: map<Kind, int>, m: map<CacheKey, nat>) {
    && bytes.Keys == {Materialized, Ephemeral, Immutable}
    && (forall kind :: kind in bytes ==> bytes[kind] == PAGE_SZ * |KeysOfKind(m, kind)|)
  }

  function Inserted(vs: seq<Version>, idx: nat, v: Version): seq<Version>
    requires idx <= |vs|
  {
    vs[..idx] + [v] + vs[idx..]
  }

  /** Inserting at the position binary search reports keeps the list sorted and adds one version. */
  lemma InsertedVersions(vs: seq<Version>, idx: nat, v: Version)
    requires Sorted(vs) && idx <= |vs|
    requires forall j :: 0 <= j < idx ==> vs[j].lsn < v.lsn
    requires forall j :: idx <= j < |vs| ==> v.lsn < vs[j].lsn
    ensures Sorted(Inserted(vs, idx, v))
    ensures forall x :: x in Inserted(vs, idx, v) <==> x == v || x in vs
  {
    assert vs == vs[..idx] + vs[idx..];
  }

  function Without(vs: seq<Version>, idx: nat): seq<Version>
    requires idx < |vs|
  {
    vs[..idx] + vs[idx + 1..]
  }

  lemma WithoutVersion(vs: seq<Version>, idx: nat)
    requires Sorted(vs) && idx < |vs|
    ensures Sorted(Without(vs, idx))
    ensures forall x :: x in Without(vs, idx) <==> x in vs && x.lsn != vs[idx].lsn
  {
    assert vs == vs[..idx] + [vs[idx]] + vs[idx + 1..];
  }

  lemma InsertVersion(versions: map<HashKey, seq<Version>>, m: map<CacheKey, nat>, h: HashKey,
                      vs: seq<Version>, v: Version)
    requires VersionsOf(versions, m) && Sorted(vs) && vs != [] && MaterializedPage(h, v.lsn) !in m
    requires forall x :: x in vs <==> x == v || (h in versions && x in versions[h])
    ensures VersionsOf(versions[h := vs], m[MaterializedPage(h, v.lsn) := v.slotIdx])
  {
  }

  lemma RemoveVersion(versions: map<HashKey, seq<Version>>, m: map<CacheKey, nat>, h: HashKey,
                      vs: seq<Version>, lsn: Lsn)
    requires VersionsOf(versions, m) && Sorted(vs) && h in versions
    requires forall x :: x in vs <==> x in versions[h] && x.lsn != lsn
    ensures VersionsOf(if vs == [] then versions - {h} else versions[h := vs], m - {MaterializedPage(h, lsn)})
  {
    if vs == [] { assert forall x :: x in versions[h] ==> x !in vs; }
  }

  lemma InsertBlock(kind: Kind, blocks: map<(nat, nat), nat>, m: map<CacheKey, nat>, p: (nat, nat), slotIdx: nat)
    requires BlocksOf(kind, blocks, m) && !kind.Materialized?
    ensures BlocksOf(kind, blocks[p := slotIdx], m[BlockKey(kind, p) := slotIdx])
  {
  }

  lemma RemoveBlock(kind: Kind, blocks: map<(nat, nat), nat>, m: map<CacheKey, nat>, p: (nat, nat))
    requires BlocksOf(kind, blocks, m) && !kind.Materialized?
    ensures BlocksOf(kind, blocks - {p}, m - {BlockKey(kind, p)})
  {
  }

  /** A change at one key leaves the maps of the other kinds alone. */
  lemma OtherVersions(versions: map<HashKey, seq<Version>>, m: map<CacheKey, nat>, k: CacheKey, slotIdx: nat)
    requires VersionsOf(versions, m) && !k.MaterializedPage?
    ensures VersionsOf(versions, m[k := slotIdx]) && VersionsOf(versions, m - {k})
  {
  }

  lemma OtherBlocks(kind: Kind, blocks: map<(nat, nat), nat>, m: map<CacheKey, nat>, k: CacheKey, slotIdx: nat)
    requires BlocksOf(kind, blocks, m) && !kind.Materialized? && KindOf(k) != kind
    ensures BlocksOf(kind, blocks, m[k := slotIdx]) && BlocksOf(kind, blocks, m - {k})
  {
  }

  lemma GaugesAfter(bytes: map<Kind, int>, m: map<CacheKey, nat>, k: CacheKey, slotIdx: nat)
    requires GaugesOf(bytes, m)
    ensures k !in m ==> GaugesOf(bytes[KindOf(k) := bytes[KindOf(k)] + PAGE_SZ], m[k := slotIdx])
    ensures k in m ==> GaugesOf(bytes[KindOf(k) := bytes[KindOf(k)] - PAGE_SZ], m - {k})
  {
    forall kind
      ensures k !in m ==>
        |KeysOfKind(m[k := slotIdx], kind)| == |KeysOfKind(m, kind)| + (if KindOf(k) == kind then 1 else 0)
    {
      if k !in m { CountAfterInsert(m, k, slotIdx, kind); }
    }
    forall kind
      ensures k in m ==>
        |KeysOfKind(m - {k}, kind)| == |KeysOfKind(m, kind)| - (if KindOf(k) == kind then 1 else 0)
    {
      if k in m { CountAfterRemove(m, k, kind); }
    }
  }

  method TryInsertVersion(versions: map<HashKey, seq<Version>>, h: HashKey, lsn: Lsn, slotIdx: nat,
                          ghost m: map<CacheKey, nat>)
      returns (existing: Option<nat>, versions': map<HashKey, seq<Version>>)
    requires VersionsOf(versions, m)
    ensures existing == if MaterializedPage(h, lsn) in m then Some(m[MaterializedPage(h, lsn)]) else None
    ensures existing.Some? ==> versions' == versions
    ensures existing.None? ==> VersionsOf(versions', m[MaterializedPage(h, lsn) := slotIdx])
  {
    var list := if h in versions then versions[h] else [];
    var found, idx := BinarySearch(list, lsn);
    if found {
      assert list[idx] in versions[h];
      return Some(list[idx].slotIdx), versions;
    }
    InsertedVersions(list, idx, Version(lsn, slotIdx));
    InsertVersion(versions, m, h, Inserted(list, idx, Version(lsn, slotIdx)), Version(lsn, slotIdx));
    return None, versions[h := Inserted(list, idx, Version(lsn, slotIdx))];
  }

  method TryRemoveVersion(versions: map<HashKey, seq<Version>>, h: HashKey, lsn: Lsn, ghost m: map<CacheKey, nat>)
      returns (found: bool, versions': map<HashKey, seq<Version>>)
    requires VersionsOf(versions, m) && h in versions
    ensures found <==> MaterializedPage(h, lsn) in m
    ensures if found then VersionsOf(versions', m - {MaterializedPage(h, lsn)}) else versions' == versions
  {
    var idx;
    found, idx := BinarySearch(versions[h], lsn);
    versions' := versions;
    if found {
      assert versions[h][idx] in versions[h];
      WithoutVersion(versions[h], idx);
      var list := Without(versions[h], idx);
      RemoveVersion(versions, m, h, list, lsn);
      versions' := if list == [] then versions - {h} else versions[h := list];
    }
  }

  datatype Maps = Maps(
    materialized: map<HashKey, seq<Version>>, ephemeral: map<(nat, nat), nat>, immutable: map<(nat, nat), nat>,
    currentBytes: map<Kind, int>)

  ghost predicate MapsOf(p: Maps, m: map<CacheKey, nat>) {
    && VersionsOf(p.materialized, m)
    && BlocksOf(Ephemeral, p.ephemeral, m)
    && BlocksOf(Immutable, p.immutable, m)
    && GaugesOf(p.currentBytes, m)
  }

  /** An insertion into the map of the key's kind is an insertion into the mapping. */
  lemma MapsAfterInsert(p: Maps, p': Maps, m: map<CacheKey, nat>, k: CacheKey, slotIdx: nat)
    requires MapsOf(p, m) && k !in m
    requires if k.MaterializedPage? then VersionsOf(p'.materialized, m[k := slotIdx])
             else p'.materialized == p.materialized
    requires p'.ephemeral == if k.EphemeralPage? then p.ephemeral[(k.fileId, k.blkno) := slotIdx] else p.ephemeral
    requires p'.immutable == if k.ImmutableFilePage? then p.immutable[(k.fileId, k.blkno) := slotIdx] else p.immutable
    requires p'.currentBytes == p.currentBytes[KindOf(k) := p.currentBytes[KindOf(k)] + PAGE_SZ]
    ensures MapsOf(p', m[k := slotIdx])
  {
    GaugesAfter(p.currentBytes, m, k, slotIdx);
    if !k.MaterializedPage? { OtherVersions(p.materialized, m, k, slotIdx); }
    if k.EphemeralPage? { InsertBlock(Ephemeral, p.ephemeral, m, (k.fileId, k.blkno), slotIdx); }
    else { OtherBlocks(Ephemeral, p.ephemeral, m, k, slotIdx); }
    if k.ImmutableFilePage? { InsertBlock(Immutable, p.immutable, m, (k.fileId, k.blkno), slotIdx); }
    else { OtherBlocks(Immutable, p.immutable, m, k, slotIdx); }
  }

  lemma MapsAfterRemove(p: Maps, p': Maps, m: map<CacheKey, nat>, k: CacheKey)
    requires MapsOf(p, m) && k in m
    requires if k.MaterializedPage? then VersionsOf(p'.materialized, m - {k}) else p'.materialized == p.materialized
    requires p'.ephemeral == if k.EphemeralPage? then p.ephemeral - {(k.fileId, k.blkno)} else p.ephemeral
    requires p'.immutable == if k.ImmutableFilePage? then p.immutable - {(k.fileId, k.blkno)} else p.immutable
    requires p'.currentBytes == p.currentBytes[KindOf(k) := p.currentBytes[KindOf(k)] - PAGE_SZ]
    ensures MapsOf(p', m - {k})
  {
    GaugesAfter(p.currentBytes, m, k, 0);
    if !k.MaterializedPage? { OtherVersions(p.materialized, m, k, 0); }
    if k.EphemeralPage? { RemoveBlock(Ephemeral, p.ephemeral, m, (k.fileId, k.blkno)); }
    else { OtherBlocks(Ephemeral, p.ephemeral, m, k, 0); }
    if k.ImmutableFilePage? { RemoveBlock(Immutable, p.immutable, m, (k.fileId, k.blkno)); }
    else { OtherBlocks(Immutable, p.immutable, m, k, 0); }
  }

  /** The entry is taken out of its map, and its gauge goes down. */
  method RemoveEntry(p: Maps, key: CacheKey, ghost m: map<CacheKey, nat>)
      returns (found: bool, panicked: bool, p': Maps)
    requires MapsOf(p, m)
    ensures (found <==> key in m) && (found ==> MapsOf(p', m - {key}))
    ensures panicked <==> key !in m && !(key.MaterializedPage? && key.hashKey in p.materialized)
  {
    found, panicked, p' := false, false, p;
    match key {
      case MaterializedPage(h, lsn) =>
        if h !in p.materialized { return false, true, p; }
        var versions;
        found, versions := TryRemoveVersion(p.materialized, h, lsn, m);
        if !found { return; }
        p' := p.(materialized := versions);
      case EphemeralPage(f, b) =>
        if (f, b) !in p.ephemeral { return false, true, p; }
        p' := p.(ephemeral := p.ephemeral - {(f, b)});
      case ImmutableFilePage(f, b) =>
        if (f, b) !in p.immutable { return false, true, p; }
        p' := p.(immutable := p.immutable - {(f, b)});
    }
    found := true;
    p' := p'.(currentBytes := p.currentBytes[KindOf(key) := p.currentBytes[KindOf(key)] - PAGE_SZ]);
    MapsAfterRemove(p, p', m, key);
  }

  class Mappings {
    var maps: Maps
    ghost var mapping: map<CacheKey, nat>

    /** Version lists are non-empty and strictly sorted, the gauges count the entries, and the three
        maps hold exactly `mapping`. */
    ghost predicate Valid()
      reads this
    {
      MapsOf(maps, mapping)
    }

    constructor ()
      ensures Valid() && mapping == map[]
    {
      maps := Maps(map[], map[], map[], map[Materialized := 0, Ephemeral := 0, Immutable := 0]);
      mapping := map[];
    }

    /** search_mapping: the best match and its slot, `key` itself when there is none. */
    method SearchMapping(key: CacheKey) returns (slot: Option<nat>, found: CacheKey)
      requires Valid()
      ensures slot.Some? ==> IsBestMatch(mapping, key, found) && mapping[found] == slot.value
      ensures slot.None? ==> found == key && forall k :: !IsBestMatch(mapping, key, k)
    {
      match key
      case MaterializedPage(h, lsn) =>
        if h !in maps.materialized { return None, key; }
        var versions := maps.materialized[h];
        var ok, idx := BinarySearch(versions, lsn);
        if !ok {
          if idx == 0 { return None, key; }
          idx := idx - 1;
        }
        assert versions[idx] in versions;
        return Some(versions[idx].slotIdx), MaterializedPage(h, versions[idx].lsn);
      case EphemeralPage(f, b) =>
        return if (f, b) in maps.ephemeral then Some(maps.ephemeral[(f, b)]) else None, key;
      case ImmutableFilePage(f, b) =>
        return if (f, b) in maps.immutable then Some(maps.immutable[(f, b)]) else None, key;
    }

    /** search_mapping_for_write: an exact search. */
    method SearchMappingForWrite(key: CacheKey) returns (slot: Option<nat>)
      requires Valid()
      ensures slot == if key in mapping then Some(mapping[key]) else None
    {
      match key
      case MaterializedPage(h, lsn) =>
        if h !in maps.materialized { return None; }
        var ok, idx := BinarySearch(maps.materialized[h], lsn);
        if ok { assert maps.materialized[h][idx] in maps.materialized[h]; }
        return if ok then Some(maps.materialized[h][idx].slotIdx) else None;
      case EphemeralPage(f, b) =>
        return if (f, b) in maps.ephemeral then Some(maps.ephemeral[(f, b)]) else None;
      case ImmutableFilePage(f, b) =>
        return if (f, b) in maps.immutable then Some(maps.immutable[(f, b)]) else None;
    }

    /** try_insert_mapping: the slot already mapped, or None and a new entry. */
    method TryInsertMapping(key: CacheKey, slotIdx: nat) returns (existing: Option<nat>)
      requires Valid()
      modifies this
      ensures Valid()
      ensures existing == if key in old(mapping) then Some(old(mapping)[key]) else None
      ensures mapping == if key in old(mapping) then old(mapping) else old(mapping)[key := slotIdx]
    {
      var p := maps;
      match key {
        case MaterializedPage(h, lsn) =>
          var slot, versions := TryInsertVersion(p.materialized, h, lsn, slotIdx, mapping);
          if slot.Some? { return slot; }
          p := p.(materialized := versions);
        case EphemeralPage(f, b) =>
          if (f, b) in p.ephemeral { return Some(p.ephemeral[(f, b)]); }
          p := p.(ephemeral := p.ephemeral[(f, b) := slotIdx]);
        case ImmutableFilePage(f, b) =>
          if (f, b) in p.immutable { return Some(p.immutable[(f, b)]); }
          p := p.(immutable := p.immutable[(f, b) := slotIdx]);
      }
      p := p.(currentBytes := p.currentBytes[KindOf(key) := p.currentBytes[KindOf(key)] + PAGE_SZ]);
      MapsAfterInsert(maps, p, mapping, key, slotIdx);
      maps, mapping := p, mapping[key := slotIdx];
      return None;
    }

    /** remove_mapping. `panicked` is the source's "could not find old key in mapping"; a version
        missing from an existing list is passed over in silence. */
    method RemoveMapping(key: CacheKey) returns (panicked: bool)
      requires Valid()
      modifies this
      ensures Valid()
      ensures mapping == old(mapping) - {key}
      ensures panicked <==> key !in old(mapping) && !(key.MaterializedPage? && key.hashKey in old(maps).materialized)
    {
      var found, p;
      found, panicked, p := RemoveEntry(maps, key, mapping);
      if found {
        maps, mapping := p, mapping - {key};
      }
    }
  }
}
