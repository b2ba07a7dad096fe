/** collect_keyspace: the keys in use, gathered in key order. */
module CollectKeyspace {
  import opened Keys
  import opened KeyLayout
  import opened Snapshots
  import opened Seqs
  import KS = KeySpaces

  // --- sorting

  predicate Increasing<T(!new)>(s: seq<T>, rank: T -> int) {
    forall i, j :: 0 <= i < j < |s| ==> rank(s[i]) < rank(s[j])
  }

  lemma InsertIncreasing<T(!new)>(s: seq<T>, rank: T -> int, x: T, i: nat)
    requires Increasing(s, rank) && i <= |s|
    requires forall j :: 0 <= j < i ==> rank(s[j]) < rank(x)
    requires forall j :: i <= j < |s| ==> rank(x) < rank(s[j])
    ensures Increasing(s[..i] + [x] + s[i..], rank)
  {
    var longer := s[..i] + [x] + s[i..];
    forall a, b | 0 <= a < b < |longer| ensures rank(longer[a]) < rank(longer[b]) {
      assert longer[a] == if a < i then s[a] else if a == i then x else s[a - 1];
      assert longer[b] == if b < i then s[b] else if b == i then x else s[b - 1];
    }
  }

  lemma InsertElement<T>(s: seq<T>, x: T, i: nat, y: T)
    requires i <= |s|
    ensures y in s[..i] + [x] + s[i..] <==> y == x || y in s
  {
    assert s == s[..i] + s[i..];
  }

  /** collect and sort_unstable; `rank` says the order as a number. */
  method Sorted<T(!new, ==)>(elems: set<T>, rank: T -> int) returns (s: seq<T>)
    requires forall x, y :: x in elems && y in elems && rank(x) == rank(y) ==> x == y
    ensures Increasing(s, rank) && forall x :: x in s <==> x in elems
  {
    s := [];
    var rest := elems;
    while rest != {}
      invariant rest <= elems && Increasing(s, rank) && forall x :: x in s <==> x in elems && x !in rest
      decreases |rest|
    {
      var x :| x in rest;
      var i := 0;
      while i < |s| && rank(s[i]) < rank(x)
        invariant 0 <= i <= |s| && forall j :: 0 <= j < i ==> rank(s[j]) < rank(x)
      {
        i := i + 1;
      }
      if i < |s| { assert s[i] in s; }
      InsertIncreasing(s, rank, x, i);
      forall y ensures y in s[..i] + [x] + s[i..] <==> y == x || y in s { InsertElement(s, x, i, y); }
      s := s[..i] + [x] + s[i..];
      rest := rest - {x};
    }
  }

  // --- live keys

  /** The keys of a list of ranges. */
  ghost function KeysIn(rs: seq<Range>): iset<Key> {
    iset k: Key | AnyKeyIn(rs, k)
  }

  /** The first n keys from a on, where blocks start, and the size key of the same fork or segment. */
  ghost function BlockKeys(a: Key, n: u32): iset<Key> {
    iset k: Key | k == a.(field6 := k.field6) && (k.field6 < n || k.field6 == SIZE_BLOCK)
  }

  /** The keys in use below one relation fork: its blocks and its size. */
  ghost function RelKeys(get: Snapshot, rel: RelTag): iset<Key> {
    var size := SizeAt(get, RelSizeToKey(rel));
    BlockKeys(RelBlockToKey(rel, 0), if size.Some? then size.value else 0)
  }

  ghost function ForkKeys(get: Snapshot, db: Db): iset<Key> {
    if RelsOf(get, db).Some? then iset r, k | r in RelsOf(get, db).value && k in RelKeys(get, Rel(db, r)) :: k
    else iset{}
  }

  ghost function DbKeys(get: Snapshot, db: Db): iset<Key> {
    iset{RelmapFileKey(db.0, db.1), RelDirToKey(db.0, db.1)} + ForkKeys(get, db)
  }

  ghost function SegmentKeys(get: Snapshot, kind: SlruKind, segno: u32): iset<Key> {
    var size := SizeAt(get, SlruSegmentSizeToKey(kind, segno));
    BlockKeys(SlruBlockToKey(kind, segno, 0), if size.Some? then size.value else 0)
  }

  ghost function SlruKeys(get: Snapshot, kind: SlruKind): iset<Key> {
    iset{SlruDirToKey(kind)} +
    if SegmentsOf(get, kind).Some?
    then iset s, k | s in SegmentsOf(get, kind).value && k in SegmentKeys(get, kind, s) :: k
    else iset{}
  }

  /** Everything the directories of a snapshot say is in use. */
  ghost function LiveKeys(get: Snapshot): iset<Key> {
    RelationKeys(get) + AllSlruKeys(get) + TwophaseKeys(get) + iset{CONTROLFILE_KEY} + iset{CHECKPOINT_KEY}
  }

  ghost function AllSlruKeys(get: Snapshot): iset<Key> {
    SlruKeys(get, Clog) + SlruKeys(get, MultiXactMembers) + SlruKeys(get, MultiXactOffsets)
  }

  ghost function RelationKeys(get: Snapshot): iset<Key> {
    iset{DBDIR_KEY} +
    if DbDirs(get).Some? then iset db, k | db in DbDirs(get).value && k in DbKeys(get, db) :: k else iset{}
  }

  ghost function TwophaseKeys(get: Snapshot): iset<Key> {
    iset{TWOPHASEDIR_KEY} +
    if Xids(get).Some? then iset xid | xid in Xids(get).value :: TwophaseFileKey(xid) else iset{}
  }

  /** Every directory that is listed can be read, and every size. */
  ghost predicate DbReadable(get: Snapshot, db: Db) {
    RelsOf(get, db).Some? && forall r :: r in RelsOf(get, db).value ==> SizeAt(get, RelSizeToKey(Rel(db, r))).Some?
  }

  ghost predicate SlruReadable(get: Snapshot, kind: SlruKind) {
    SegmentsOf(get, kind).Some? &&
    forall s :: s in SegmentsOf(get, kind).value ==> SizeAt(get, SlruSegmentSizeToKey(kind, s)).Some?
  }

  ghost predicate DbsReadable(get: Snapshot) {
    DbDirs(get).Some? && forall db :: db in DbDirs(get).value ==> DbReadable(get, db)
  }

  ghost predicate Readable(get: Snapshot) {
    DbsReadable(get) && SlrusReadable(get) && Xids(get).Some?
  }

  ghost predicate SlrusReadable(get: Snapshot) {
    SlruReadable(get, Clog) && SlruReadable(get, MultiXactMembers) && SlruReadable(get, MultiXactOffsets)
  }

  /** Numbers that Postgres never uses and that collect_keyspace cannot cope with: they give a
      database, a relation fork or a prepared transaction the key of a directory. */
  ghost predicate Clashes(get: Snapshot) {
    DbClash(get) || (Xids(get).Some? && 0 in Xids(get).value)
  }

  ghost predicate DbClash(get: Snapshot) {
    DbDirs(get).Some? &&
    ((0, 0) in DbDirs(get).value ||
     exists db :: db in DbDirs(get).value && RelsOf(get, db).Some? && (0, 0) in RelsOf(get, db).value)
  }

  datatype Result = Collected(ranges: seq<KS.Range>) | Unreadable | AssertionFailed
  datatype Outcome = Done | Missing | Failed

  // --- what is added, in the order it is added

  /** The successor of a key that is not among the very last. */
  function Next(k: Key): Key
    requires k.field1 <= 3
  {
    NextExists(k);
    Add(k, 1).value
  }

  lemma NextExists(k: Key)
    requires k.field1 <= 3
    ensures Add(k, 1).Some?
  {
  }

  function One(k: Key): Range
    requires k.field1 <= 3
  {
    Range(k, Next(k))
  }

  /** The blocks of a relation fork or segment, and its size, which comes right after them. */
  function BlockRanges(a: Key, n: u32): seq<Range>
    requires a.field1 <= 3
  {
    [Range(a, a.(field6 := n)), One(a.(field6 := SIZE_BLOCK))]
  }

  function SizeOr0(get: Snapshot, key: Key): u32 {
    var size := SizeAt(get, key);
    if size.Some? then size.value else 0
  }

  /** The blocks from `a` on and their size. */
  function RunRanges(get: Snapshot, a: Key): seq<Range>
    requires a.field1 <= 3
  {
    BlockRanges(a, SizeOr0(get, a.(field6 := SIZE_BLOCK)))
  }

  /** Where relation forks and SLRU segments start. */
  predicate Firsts(keys: seq<Key>) {
    forall i :: 0 <= i < |keys| ==> keys[i].field1 <= 3 && keys[i].field6 == 0
  }

  ghost function RunParts(get: Snapshot, firsts: seq<Key>): (ps: seq<seq<Range>>)
    requires Firsts(firsts)
    ensures |ps| == |firsts| && forall i :: 0 <= i < |ps| ==> ps[i] == RunRanges(get, firsts[i])
  {
    seq(|firsts|, i requires 0 <= i < |firsts| => RunRanges(get, firsts[i]))
  }

  function ForkFirsts(db: Db, forks: seq<(u32, u8)>): (keys: seq<Key>)
    ensures Firsts(keys) && |keys| == |forks|
    ensures forall i :: 0 <= i < |keys| ==> keys[i] == RelBlockToKey(Rel(db, forks[i]), 0)
  {
    seq(|forks|, i requires 0 <= i < |forks| => RelBlockToKey(Rel(db, forks[i]), 0))
  }

  function SegmentFirsts(kind: SlruKind, segs: seq<u32>): (keys: seq<Key>)
    ensures Firsts(keys) && |keys| == |segs|
    ensures forall i :: 0 <= i < |keys| ==> keys[i] == SlruBlockToKey(kind, segs[i], 0)
  {
    seq(|segs|, i requires 0 <= i < |segs| => SlruBlockToKey(kind, segs[i], 0))
  }

  ghost function DbRanges(get: Snapshot, db: Db, forks: seq<(u32, u8)>): seq<Range> {
    [One(RelmapFileKey(db.0, db.1))] + [One(RelDirToKey(db.0, db.1))] + Flatten(RunParts(get, ForkFirsts(db, forks)))
  }

  ghost function DbParts(get: Snapshot, dbs: seq<Db>, forks: seq<seq<(u32, u8)>>): (ps: seq<seq<Range>>)
    requires |forks| == |dbs|
    ensures |ps| == |dbs| && forall i :: 0 <= i < |ps| ==> ps[i] == DbRanges(get, dbs[i], forks[i])
  {
    seq(|dbs|, i requires 0 <= i < |dbs| => DbRanges(get, dbs[i], forks[i]))
  }

  ghost function SlruRanges(get: Snapshot, kind: SlruKind, segs: seq<u32>): seq<Range> {
    [One(SlruDirToKey(kind))] + Flatten(RunParts(get, SegmentFirsts(kind, segs)))
  }

  ghost function XidParts(xids: seq<u32>): (ps: seq<seq<Range>>)
    ensures |ps| == |xids| && forall i :: 0 <= i < |ps| ==> ps[i] == [One(TwophaseFileKey(xids[i]))]
  {
    seq(|xids|, i requires 0 <= i < |xids| => [One(TwophaseFileKey(xids[i]))])
  }

  /** The accumulator takes these ranges, added one after the other. */
  predicate Accepted(rs: seq<Range>) {
    KS.AddAll(rs).Some?
  }

  lemma {:induction false} AcceptedPrefix(a: seq<Range>, b: seq<Range>)
    ensures Accepted(a + b) ==> Accepted(a)
  {
    if b == [] {
      assert a + b == a;
    } else {
      assert (a + b)[..|a + b| - 1] == a + b[..|b| - 1];
      AcceptedPrefix(a, b[..|b| - 1]);
    }
  }

  lemma AcceptedInTurn(added: seq<Range>, a: seq<Range>, b: seq<Range>, c: seq<Range>)
    ensures added + (a + b + c) == added + a + b + c && added + (a + c) == added + a + c
    ensures Accepted(added + (a + b + c)) ==> Accepted(added + a) && Accepted(added + a + b)
    ensures Accepted(added + (a + c)) ==> Accepted(added + a)
  {
    assert added + (a + b + c) == added + a + b + c == added + a + (b + c);
    assert added + (a + c) == added + a + c;
    AcceptedPrefix(added + a, b + c);
    AcceptedPrefix(added + a + b, c);
    AcceptedPrefix(added + a, c);
  }

  method AddBlocks(acc: KS.KeySpaceAccum, a: Key, n: u32) returns (ok: bool)
    requires acc.Valid() && a.field6 == 0 && a.field1 <= 3
    modifies acc
    ensures acc.Valid() && (ok <==> Accepted(old(acc.added) + BlockRanges(a, n)))
    ensures ok ==> acc.added == old(acc.added) + BlockRanges(a, n)
  {
    ghost var added := acc.added;
    var size := a.(field6 := SIZE_BLOCK);
    NextExists(size);
    var r := Range(a, a.(field6 := n));
    assert added + BlockRanges(a, n) == (added + [r]) + [One(size)];
    AcceptedPrefix(added + [r], [One(size)]);
    ok := acc.AddRange(r);
    if ok {
      ok := acc.AddKey(size);
    }
  }

  lemma {:induction false} ConcatStep(parts: seq<seq<Range>>, i: nat, added: seq<Range>)
    requires i < |parts|
    ensures added + Flatten(parts[..i + 1]) == added + Flatten(parts[..i]) + parts[i]
    ensures Accepted(added + Flatten(parts)) ==> Accepted(added + Flatten(parts[..i + 1]))
    decreases |parts| - i
  {
    assert parts[..i + 1][..i] == parts[..i];
    if i + 1 == |parts| {
      assert parts[..i + 1] == parts;
    } else {
      ConcatStep(parts, i + 1, added);
      AcceptedPrefix(added + Flatten(parts[..i + 1]), parts[i + 1]);
    }
  }

  method AddOne(acc: KS.KeySpaceAccum, k: Key) returns (ok: bool)
    requires acc.Valid() && k.field1 <= 3
    modifies acc
    ensures acc.Valid() && (ok <==> Accepted(old(acc.added) + [One(k)]))
    ensures ok ==> acc.added == old(acc.added) + [One(k)]
  {
    NextExists(k);
    ok := acc.AddKey(k);
  }

  /** The sizes of the first n relations or segments can be read. */
  predicate SizesReadable(get: Snapshot, firsts: seq<Key>, n: nat)
    requires n <= |firsts|
  {
    forall i :: 0 <= i < n ==> SizeAt(get, firsts[i].(field6 := SIZE_BLOCK)).Some?
  }

  /** The loop over the relations of a database, or over the segments of an SLRU. */
  method AddRuns(acc: KS.KeySpaceAccum, get: Snapshot, firsts: seq<Key>) returns (out: Outcome)
    requires acc.Valid() && Firsts(firsts)
    modifies acc
    ensures acc.Valid()
    ensures out.Missing? ==> !SizesReadable(get, firsts, |firsts|)
    ensures out.Failed? ==> !Accepted(old(acc.added) + Flatten(RunParts(get, firsts)))
    ensures out.Done? ==> SizesReadable(get, firsts, |firsts|)
    ensures out.Done? ==> acc.added == old(acc.added) + Flatten(RunParts(get, firsts))
  {
    ghost var added, parts := acc.added, RunParts(get, firsts);
    for i := 0 to |firsts|
      invariant acc.Valid() && acc.added == added + Flatten(parts[..i]) && SizesReadable(get, firsts, i)
    {
      var size := SizeAt(get, firsts[i].(field6 := SIZE_BLOCK));
      if size.None? { return Missing; }
      ConcatStep(parts, i, added);
      var ok := AddBlocks(acc, firsts[i], size.value);
      if !ok { return Failed; }
    }
    out := Done;
    assert parts[..|firsts|] == parts;
  }

  /** Order of forks within a database, and of databases. */
  function ForkRank(r: (u32, u8)): int { r.0 * U8 + r.1 }

  function DbRank(db: Db): int { db.0 * U32 + db.1 }

  /** `s` lists the elements of a set in order. */
  ghost predicate Lists<T(!new)>(s: seq<T>, elems: set<T>, rank: T -> int) {
    Increasing(s, rank) && forall x :: x in s <==> x in elems
  }

  ghost predicate ForksOk(get: Snapshot, db: Db, forks: seq<(u32, u8)>) {
    if RelsOf(get, db).Some? then Lists(forks, RelsOf(get, db).value, ForkRank) else forks == []
  }

  ghost predicate SegmentsOk(get: Snapshot, kind: SlruKind, segs: seq<u32>) {
    if SegmentsOf(get, kind).Some? then Lists(segs, SegmentsOf(get, kind).value, x => x) else segs == []
  }

  lemma ReadableForks(get: Snapshot, db: Db, forks: seq<(u32, u8)>)
    requires ForksOk(get, db, forks) && RelsOf(get, db).Some?
    ensures SizesReadable(get, ForkFirsts(db, forks), |forks|) <==> DbReadable(get, db)
  {
    forall i | 0 <= i < |forks|
      ensures RelSizeToKey(Rel(db, forks[i])) == ForkFirsts(db, forks)[i].(field6 := SIZE_BLOCK) && forks[i] in forks
    {
    }
    if SizesReadable(get, ForkFirsts(db, forks), |forks|) {
      forall r | r in RelsOf(get, db).value ensures SizeAt(get, RelSizeToKey(Rel(db, r))).Some? {
        var i :| 0 <= i < |forks| && forks[i] == r;
      }
    }
  }

  lemma ReadableSegments(get: Snapshot, kind: SlruKind, segs: seq<u32>)
    requires SegmentsOk(get, kind, segs) && SegmentsOf(get, kind).Some?
    ensures SizesReadable(get, SegmentFirsts(kind, segs), |segs|) <==> SlruReadable(get, kind)
  {
    forall i | 0 <= i < |segs|
      ensures SlruSegmentSizeToKey(kind, segs[i]) == SegmentFirsts(kind, segs)[i].(field6 := SIZE_BLOCK)
              && segs[i] in segs
    {
    }
    if SizesReadable(get, SegmentFirsts(kind, segs), |segs|) {
      forall seg | seg in SegmentsOf(get, kind).value ensures SizeAt(get, SlruSegmentSizeToKey(kind, seg)).Some? {
        var i :| 0 <= i < |segs| && segs[i] == seg;
      }
    }
  }

  method AddDb(acc: KS.KeySpaceAccum, get: Snapshot, db: Db) returns (out: Outcome, ghost forks: seq<(u32, u8)>)
    requires acc.Valid()
    modifies acc
    ensures acc.Valid()
    ensures (out.Missing? ==> !DbReadable(get, db)) && (out.Done? ==> DbReadable(get, db))
    ensures ForksOk(get, db, forks)
    ensures out.Failed? ==> !Accepted(old(acc.added) + DbRanges(get, db, forks))
    ensures out.Done? ==> acc.added == old(acc.added) + DbRanges(get, db, forks)
  {
    ghost var added := acc.added;
    var relmap, reldir := RelmapFileKey(db.0, db.1), RelDirToKey(db.0, db.1);
    var rels := RelsOf(get, db);
    var sorted := [];
    if rels.Some? { sorted := Sorted(rels.value, ForkRank); }
    forks := sorted;
    if rels.Some? { ReadableForks(get, db, sorted); }
    AcceptedInTurn(added, [One(relmap)], [One(reldir)], Flatten(RunParts(get, ForkFirsts(db, forks))));
    var ok := AddOne(acc, relmap);
    if !ok { return Failed, forks; }
    ok := AddOne(acc, reldir);
    if !ok { return Failed, forks; }
    if rels.None? { return Missing, forks; }
    out := AddRuns(acc, get, ForkFirsts(db, sorted));
  }

  /** Each list of forks lists the relations of its database. */
  ghost predicate ForksListed(get: Snapshot, dbs: seq<Db>, forks: seq<seq<(u32, u8)>>) {
    |forks| == |dbs| && forall i :: 0 <= i < |dbs| ==> ForksOk(get, dbs[i], forks[i])
  }

  lemma ForksListedPush(get: Snapshot, dbs: seq<Db>, i: nat, forks: seq<seq<(u32, u8)>>, f: seq<(u32, u8)>)
    requires i < |dbs| && ForksListed(get, dbs[..i], forks) && ForksOk(get, dbs[i], f)
    ensures ForksListed(get, dbs[..i + 1], forks + [f])
  {
    forall j | 0 <= j <= i ensures ForksOk(get, dbs[..i + 1][j], (forks + [f])[j]) {
      if j < i { assert dbs[..i][j] == dbs[j]; }
    }
  }

  lemma DbPartsStep(get: Snapshot, dbs: seq<Db>, i: nat, forks: seq<seq<(u32, u8)>>, f: seq<(u32, u8)>,
                    added: seq<Range>)
    requires i < |dbs| && |forks| == i
    ensures added + Flatten(DbParts(get, dbs[..i + 1], forks + [f])) ==
            added + Flatten(DbParts(get, dbs[..i], forks)) + DbRanges(get, dbs[i], f)
  {
    var parts := DbParts(get, dbs[..i + 1], forks + [f]);
    assert parts[..i] == DbParts(get, dbs[..i], forks);
    ConcatStep(parts, i, added);
    assert parts[..i + 1] == parts;
  }

  ghost predicate AllReadable(get: Snapshot, dbs: seq<Db>, n: nat)
    requires n <= |dbs|
  {
    forall i :: 0 <= i < n ==> DbReadable(get, dbs[i])
  }

  lemma OneMoreReadable(get: Snapshot, dbs: seq<Db>, n: nat)
    requires n < |dbs| && AllReadable(get, dbs, n) && DbReadable(get, dbs[n])
    ensures AllReadable(get, dbs, n + 1)
  {
    forall i | 0 <= i < n + 1 ensures DbReadable(get, dbs[i]) { assert i < n || i == n; }
  }

  /** One turn of the loop over the databases. */
  method AddNextDb(acc: KS.KeySpaceAccum, get: Snapshot, dbs: seq<Db>, i: nat, ghost added: seq<Range>,
                   ghost forks: seq<seq<(u32, u8)>>)
      returns (out: Outcome, ghost forks': seq<seq<(u32, u8)>>)
    requires acc.Valid() && i < |dbs| && ForksListed(get, dbs[..i], forks)
    requires acc.added == added + Flatten(DbParts(get, dbs[..i], forks))
    modifies acc
    ensures acc.Valid() && ForksListed(get, dbs[..i + 1], forks')
    ensures (out.Missing? ==> !DbReadable(get, dbs[i])) && (out.Done? ==> DbReadable(get, dbs[i]))
    ensures out.Failed? ==> !Accepted(added + Flatten(DbParts(get, dbs[..i + 1], forks')))
    ensures out.Done? ==> acc.added == added + Flatten(DbParts(get, dbs[..i + 1], forks'))
  {
    ghost var f;
    out, f := AddDb(acc, get, dbs[i]);
    DbPartsStep(get, dbs, i, forks, f, added);
    ForksListedPush(get, dbs, i, forks, f);
    forks' := forks + [f];
  }

  /** The loop over the databases; n tells how far it came. */
  method AddDbs(acc: KS.KeySpaceAccum, get: Snapshot, dbs: seq<Db>)
      returns (out: Outcome, ghost n: nat, ghost forks: seq<seq<(u32, u8)>>)
    requires acc.Valid()
    modifies acc
    ensures acc.Valid() && n <= |dbs| && ForksListed(get, dbs[..n], forks)
    ensures out.Missing? ==> exists db :: db in dbs && !DbReadable(get, db)
    ensures out.Done? ==> AllReadable(get, dbs, |dbs|)
    ensures out.Failed? ==> !Accepted(old(acc.added) + Flatten(DbParts(get, dbs[..n], forks)))
    ensures out.Done? ==> n == |dbs| && acc.added == old(acc.added) + Flatten(DbParts(get, dbs[..n], forks))
  {
    ghost var added := acc.added;
    n, forks, out := 0, [], Done;
    for i := 0 to |dbs|
      invariant acc.Valid() && n == i && ForksListed(get, dbs[..i], forks) && AllReadable(get, dbs, i)
      invariant acc.added == added + Flatten(DbParts(get, dbs[..i], forks))
    {
      out, forks := AddNextDb(acc, get, dbs, i, added, forks);
      n := i + 1;
      if !out.Done? {
        assert dbs[i] in dbs;
        return;
      }
      OneMoreReadable(get, dbs, i);
    }
    out := Done;
  }

  method AddSlru(acc: KS.KeySpaceAccum, get: Snapshot, kind: SlruKind) returns (out: Outcome, ghost segs: seq<u32>)
    requires acc.Valid()
    modifies acc
    ensures acc.Valid()
    ensures (out.Missing? ==> !SlruReadable(get, kind)) && (out.Done? ==> SlruReadable(get, kind))
    ensures SegmentsOk(get, kind, segs)
    ensures out.Failed? ==> !Accepted(old(acc.added) + SlruRanges(get, kind, segs))
    ensures out.Done? ==> acc.added == old(acc.added) + SlruRanges(get, kind, segs)
  {
    ghost var added := acc.added;
    var dir := SlruDirToKey(kind);
    var segments := SegmentsOf(get, kind);
    var sorted: seq<u32> := [];
    if segments.Some? { sorted := Sorted(segments.value, x => x); }
    segs := sorted;
    if segments.Some? { ReadableSegments(get, kind, sorted); }
    AcceptedInTurn(added, [One(dir)], [], Flatten(RunParts(get, SegmentFirsts(kind, segs))));
    var ok := AddOne(acc, dir);
    if !ok { return Failed, segs; }
    if segments.None? { return Missing, segs; }
    out := AddRuns(acc, get, SegmentFirsts(kind, sorted));
  }

  method AddXids(acc: KS.KeySpaceAccum, xids: seq<u32>) returns (ok: bool)
    requires acc.Valid()
    modifies acc
    ensures acc.Valid() && (ok <==> Accepted(old(acc.added) + Flatten(XidParts(xids))))
    ensures ok ==> acc.added == old(acc.added) + Flatten(XidParts(xids))
  {
    ghost var added, parts := acc.added, XidParts(xids);
    for i := 0 to |xids|
      invariant acc.Valid() && acc.added == added + Flatten(parts[..i])
    {
      ConcatStep(parts, i, added);
      ok := AddOne(acc, TwophaseFileKey(xids[i]));
      if !ok { return; }
    }
    ok := true;
    assert parts[..|xids|] == parts;
  }

  // --- order

  /** In order, from lo on and up to hi. */
  predicate Within(rs: seq<Range>, lo: Key, hi: Key) {
    && InKeyOrder(rs) && !Less(hi, lo)
    && (rs != [] ==> !Less(rs[0].start, lo) && !Less(hi, rs[|rs| - 1].end))
  }

  lemma Transitive(a: Key, b: Key, c: Key)
    ensures !Less(b, a) && !Less(c, b) ==> !Less(c, a)
  {
    LessIsValueOrder(b, a);
    LessIsValueOrder(c, b);
    LessIsValueOrder(c, a);
  }

  lemma WithinConcat(a: seq<Range>, b: seq<Range>, lo: Key, mid: Key, hi: Key)
    requires Within(a, lo, mid) && Within(b, mid, hi)
    ensures Within(a + b, lo, hi)
  {
    Transitive(lo, mid, hi);
    if a != [] { Transitive(a[|a| - 1].end, mid, hi); }
    if b != [] { Transitive(lo, mid, b[0].start); }
    if a != [] && b != [] { Transitive(a[|a| - 1].end, mid, b[0].start); }
    var s := a + b;
    forall i, j | 0 <= i && j == i + 1 < |s| ensures !Less(s[j].start, s[i].end) {
      if j < |a| {
        assert s[i] == a[i] && s[j] == a[j];
      } else if i >= |a| {
        assert s[i] == b[i - |a|] && s[j] == b[j - |a|];
      }
    }
  }

  lemma Widen(rs: seq<Range>, lo: Key, hi: Key, lo': Key, hi': Key)
    requires Within(rs, lo, hi) && !Less(lo, lo') && !Less(hi', hi)
    ensures Within(rs, lo', hi')
  {
    Transitive(lo', lo, hi);
    Transitive(lo', hi, hi');
    if rs != [] {
      Transitive(lo', lo, rs[0].start);
      Transitive(rs[|rs| - 1].end, hi, hi');
    }
  }

  lemma WithinOne(k: Key)
    requires k.field1 <= 3
    ensures Within([One(k)], k, Next(k))
  {
  }

  lemma WithinBlocks(a: Key, n: u32)
    requires a.field6 == 0
    ensures Within([Range(a, a.(field6 := n))], a, a.(field6 := SIZE_BLOCK))
  {
  }

  lemma WithinRun(get: Snapshot, a: Key)
    requires a.field1 <= 3 && a.field6 == 0
    ensures Within(RunRanges(get, a), a, Next(a.(field6 := SIZE_BLOCK)))
  {
    var n, size := SizeOr0(get, a.(field6 := SIZE_BLOCK)), a.(field6 := SIZE_BLOCK);
    WithinBlocks(a, n);
    WithinOne(size);
    WithinConcat([Range(a, a.(field6 := n))], [One(size)], a, size, Next(size));
    assert RunRanges(get, a) == [Range(a, a.(field6 := n))] + [One(size)];
  }

  /** Parts that stay within their own bounds, one after the other. */
  lemma {:induction false} WithinParts(parts: seq<seq<Range>>, los: seq<Key>, his: seq<Key>, lo: Key, hi: Key)
    requires |parts| == |los| == |his| && !Less(hi, lo)
    requires forall i :: 0 <= i < |parts| ==> Within(parts[i], los[i], his[i]) && !Less(los[i], lo) && !Less(hi, his[i])
    requires forall i, j :: 0 <= i < j < |parts| ==> !Less(los[j], his[i])
    ensures Within(Flatten(parts), lo, hi)
  {
    if parts != [] {
      var n := |parts| - 1;
      WithinParts(parts[..n], los[..n], his[..n], lo, los[n]);
      WithinConcat(Flatten(parts[..n]), parts[n], lo, los[n], his[n]);
      Widen(Flatten(parts), lo, his[n], lo, hi);
    }
  }

  // --- the order of the keys of a cluster

  function DbEnd(db: Db): Key { Next(Key(0, db.0, db.1, U32_MAX, U8 - 1, U32_MAX)) }

  function SlruEnd(kind: SlruKind): Key { Key(1, SlruNumber(kind) + 1, 0, 0, 0, 0) }

  lemma ForkBounds(db: Db, r: (u32, u8))
    ensures !Less(RelBlockToKey(Rel(db, r), 0), Next(RelDirToKey(db.0, db.1))) <==> r != (0, 0)
    ensures !Less(DbEnd(db), Next(RelSizeToKey(Rel(db, r))))
  {
    assert Next(RelDirToKey(db.0, db.1)) == Key(0, db.0, db.1, 0, 0, 2);
    NextIsMonotone(RelSizeToKey(Rel(db, r)), Key(0, db.0, db.1, U32_MAX, U8 - 1, U32_MAX));
  }

  lemma NextIsMonotone(a: Key, b: Key)
    requires a.field1 <= 3 && b.field1 <= 3 && !Less(b, a)
    ensures !Less(Next(b), Next(a))
  {
    LessIsValueOrder(b, a);
    LessIsValueOrder(Next(b), Next(a));
  }

  lemma DbBounds(db: Db)
    ensures !Less(DbEnd(db), Next(RelDirToKey(db.0, db.1))) && !Less(DbEnd(db), RelmapFileKey(db.0, db.1))
    ensures Next(RelmapFileKey(db.0, db.1)) == RelDirToKey(db.0, db.1)
    ensures !Less(SlruDirToKey(Clog), DbEnd(db))
  {
  }

  lemma ForkOrder(db: Db, r: (u32, u8), r': (u32, u8))
    requires ForkRank(r) < ForkRank(r')
    ensures !Less(RelBlockToKey(Rel(db, r'), 0), Next(RelSizeToKey(Rel(db, r))))
  {
  }

  lemma DbOrder(db: Db, db': Db)
    ensures !Less(RelmapFileKey(db.0, db.1), Next(DBDIR_KEY)) <==> db != (0, 0)
    ensures DbRank(db) < DbRank(db') ==> !Less(RelmapFileKey(db'.0, db'.1), DbEnd(db))
  {
  }

  lemma SegmentOrder(kind: SlruKind, s: u32, s': u32)
    ensures !Less(SlruBlockToKey(kind, s, 0), Next(SlruDirToKey(kind)))
    ensures !Less(SlruEnd(kind), Next(SlruSegmentSizeToKey(kind, s))) && !Less(SlruEnd(kind), Next(SlruDirToKey(kind)))
    ensures s < s' ==> !Less(SlruBlockToKey(kind, s', 0), Next(SlruSegmentSizeToKey(kind, s)))
  {
  }

  lemma XidOrder(xid: u32, xid': u32)
    ensures !Less(TwophaseFileKey(xid), Next(TWOPHASEDIR_KEY)) <==> xid != 0
    ensures !Less(CONTROLFILE_KEY, Next(TwophaseFileKey(xid)))
    ensures xid < xid' ==> !Less(TwophaseFileKey(xid'), Next(TwophaseFileKey(xid)))
  {
  }

  lemma ForksWithin(get: Snapshot, db: Db, forks: seq<(u32, u8)>)
    requires Increasing(forks, ForkRank) && (0, 0) !in forks
    ensures Within(DbRanges(get, db, forks), RelmapFileKey(db.0, db.1), DbEnd(db))
  {
    var relmap, reldir := RelmapFileKey(db.0, db.1), RelDirToKey(db.0, db.1);
    var firsts := ForkFirsts(db, forks);
    var his := seq(|forks|, i requires 0 <= i < |forks| => Next(RelSizeToKey(Rel(db, forks[i]))));
    forall i | 0 <= i < |forks|
      ensures Within(RunParts(get, firsts)[i], firsts[i], his[i])
      ensures !Less(firsts[i], Next(reldir)) && !Less(DbEnd(db), his[i])
    {
      WithinRun(get, firsts[i]);
      ForkBounds(db, forks[i]);
    }
    forall i, j | 0 <= i < j < |forks| ensures !Less(firsts[j], his[i]) {
      ForkOrder(db, forks[i], forks[j]);
    }
    DbBounds(db);
    WithinParts(RunParts(get, firsts), firsts, his, Next(reldir), DbEnd(db));
    WithinOne(relmap);
    WithinOne(reldir);
    WithinConcat([One(relmap)], [One(reldir)], relmap, reldir, Next(reldir));
    WithinConcat([One(relmap)] + [One(reldir)], Flatten(RunParts(get, firsts)), relmap, Next(reldir), DbEnd(db));
  }

  lemma DbsWithin(get: Snapshot, dbs: seq<Db>, forks: seq<seq<(u32, u8)>>)
    requires Increasing(dbs, DbRank) && ForksListed(get, dbs, forks) && (0, 0) !in dbs
    requires forall i :: 0 <= i < |dbs| ==> (0, 0) !in forks[i]
    ensures Within(Flatten(DbParts(get, dbs, forks)), Next(DBDIR_KEY), SlruDirToKey(Clog))
  {
    var los := seq(|dbs|, i requires 0 <= i < |dbs| => RelmapFileKey(dbs[i].0, dbs[i].1));
    var his := seq(|dbs|, i requires 0 <= i < |dbs| => DbEnd(dbs[i]));
    forall i | 0 <= i < |dbs|
      ensures Within(DbParts(get, dbs, forks)[i], los[i], his[i])
      ensures !Less(los[i], Next(DBDIR_KEY)) && !Less(SlruDirToKey(Clog), his[i])
    {
      assert ForksOk(get, dbs[i], forks[i]) && dbs[i] in dbs;
      ForksWithin(get, dbs[i], forks[i]);
      DbOrder(dbs[i], dbs[i]);
      DbBounds(dbs[i]);
    }
    forall i, j | 0 <= i < j < |dbs| ensures !Less(los[j], his[i]) {
      DbOrder(dbs[i], dbs[j]);
    }
    WithinParts(DbParts(get, dbs, forks), los, his, Next(DBDIR_KEY), SlruDirToKey(Clog));
  }

  lemma SlruWithin(get: Snapshot, kind: SlruKind, segs: seq<u32>)
    requires SegmentsOk(get, kind, segs)
    ensures Within(SlruRanges(get, kind, segs), SlruDirToKey(kind), SlruEnd(kind))
  {
    var dir, firsts := SlruDirToKey(kind), SegmentFirsts(kind, segs);
    var his := seq(|segs|, i requires 0 <= i < |segs| => Next(SlruSegmentSizeToKey(kind, segs[i])));
    forall i | 0 <= i < |segs|
      ensures Within(RunParts(get, firsts)[i], firsts[i], his[i])
      ensures !Less(firsts[i], Next(dir)) && !Less(SlruEnd(kind), his[i])
    {
      WithinRun(get, firsts[i]);
      SegmentOrder(kind, segs[i], segs[i]);
    }
    forall i, j | 0 <= i < j < |segs| ensures !Less(firsts[j], his[i]) {
      SegmentOrder(kind, segs[i], segs[j]);
    }
    SegmentOrder(kind, 0, 0);
    WithinParts(RunParts(get, firsts), firsts, his, Next(dir), SlruEnd(kind));
    WithinOne(dir);
    WithinConcat([One(dir)], Flatten(RunParts(get, firsts)), dir, Next(dir), SlruEnd(kind));
  }

  lemma XidsWithin(xids: seq<u32>)
    requires Increasing(xids, x => x) && 0 !in xids
    ensures Within(Flatten(XidParts(xids)), Next(TWOPHASEDIR_KEY), CONTROLFILE_KEY)
  {
    var los := seq(|xids|, i requires 0 <= i < |xids| => TwophaseFileKey(xids[i]));
    var his := seq(|xids|, i requires 0 <= i < |xids| => Next(TwophaseFileKey(xids[i])));
    forall i | 0 <= i < |xids|
      ensures Within(XidParts(xids)[i], los[i], his[i]) && !Less(los[i], Next(TWOPHASEDIR_KEY))
              && !Less(CONTROLFILE_KEY, his[i])
    {
      WithinOne(los[i]);
      XidOrder(xids[i], xids[i]);
    }
    forall i, j | 0 <= i < j < |xids| ensures !Less(los[j], his[i]) {
      XidOrder(xids[i], xids[j]);
    }
    WithinParts(XidParts(xids), los, his, Next(TWOPHASEDIR_KEY), CONTROLFILE_KEY);
  }

  // --- an accepted list has no clash

  lemma OrderOfParts(a: seq<Range>, b: seq<Range>)
    ensures InKeyOrder(a + b) ==> InKeyOrder(a) && InKeyOrder(b)
  {
    if InKeyOrder(a + b) {
      assert forall i :: 0 <= i < |a| ==> (a + b)[i] == a[i];
      assert forall i :: 0 <= i < |b| ==> (a + b)[|a| + i] == b[i];
      forall i, j | 0 <= i && j == i + 1 < |b| ensures !Less(b[j].start, b[i].end) {
        assert !Less((a + b)[|a| + j].start, (a + b)[|a| + i].end);
      }
    }
  }

  lemma {:induction false} OrderOfConcat(parts: seq<seq<Range>>, i: nat)
    requires InKeyOrder(Flatten(parts)) && i < |parts|
    ensures InKeyOrder(parts[i])
  {
    var n := |parts| - 1;
    OrderOfParts(Flatten(parts[..n]), parts[n]);
    if i < n { OrderOfConcat(parts[..n], i); }
  }

  lemma {:induction false} FirstOfConcat(parts: seq<seq<Range>>)
    requires parts != [] && parts[0] != []
    ensures Flatten(parts) != [] && Flatten(parts)[0] == parts[0][0]
  {
    if |parts| > 1 { FirstOfConcat(parts[..|parts| - 1]); }
  }

  lemma JointOrder(a: seq<Range>, b: seq<Range>)
    requires InKeyOrder(a + b) && a != [] && b != []
    ensures !Less(b[0].start, a[|a| - 1].end)
  {
    assert (a + b)[|a|] == b[0] && (a + b)[|a| - 1] == a[|a| - 1];
  }

  lemma FirstForkClash(get: Snapshot, db: Db, forks: seq<(u32, u8)>)
    requires forks != [] && InKeyOrder(DbRanges(get, db, forks))
    ensures forks[0] != (0, 0)
  {
    var parts := RunParts(get, ForkFirsts(db, forks));
    FirstOfConcat(parts);
    JointOrder([One(RelmapFileKey(db.0, db.1))] + [One(RelDirToKey(db.0, db.1))], Flatten(parts));
    ForkBounds(db, forks[0]);
  }

  lemma NoForkClash(get: Snapshot, db: Db, forks: seq<(u32, u8)>)
    requires Increasing(forks, ForkRank) && InKeyOrder(DbRanges(get, db, forks))
    ensures (0, 0) !in forks
  {
    if forks != [] {
      FirstForkClash(get, db, forks);
      assert forall i :: 0 < i < |forks| ==> ForkRank(forks[0]) < ForkRank(forks[i]);
    }
  }

  lemma NoForkClashes(get: Snapshot, dbs: seq<Db>, forks: seq<seq<(u32, u8)>>, i: nat)
    requires ForksListed(get, dbs, forks) && InKeyOrder(Flatten(DbParts(get, dbs, forks))) && i < |dbs|
    ensures (0, 0) !in forks[i]
  {
    assert ForksOk(get, dbs[i], forks[i]);
    OrderOfConcat(DbParts(get, dbs, forks), i);
    NoForkClash(get, dbs[i], forks[i]);
  }

  lemma NoFirstDbClash(get: Snapshot, dbs: seq<Db>, forks: seq<seq<(u32, u8)>>)
    requires Increasing(dbs, DbRank) && |forks| == |dbs|
    requires InKeyOrder([One(DBDIR_KEY)] + Flatten(DbParts(get, dbs, forks)))
    ensures (0, 0) !in dbs
  {
    if dbs != [] {
      var parts := DbParts(get, dbs, forks);
      FirstOfConcat(parts);
      JointOrder([One(DBDIR_KEY)], Flatten(parts));
      DbOrder(dbs[0], dbs[0]);
      assert forall i :: 0 < i < |dbs| ==> DbRank(dbs[0]) < DbRank(dbs[i]);
    }
  }

  lemma NoDbClash(get: Snapshot, dbs: seq<Db>, forks: seq<seq<(u32, u8)>>)
    requires Increasing(dbs, DbRank) && ForksListed(get, dbs, forks)
    requires InKeyOrder([One(DBDIR_KEY)] + Flatten(DbParts(get, dbs, forks)))
    ensures (0, 0) !in dbs && forall i :: 0 <= i < |dbs| ==> (0, 0) !in forks[i]
  {
    OrderOfParts([One(DBDIR_KEY)], Flatten(DbParts(get, dbs, forks)));
    forall i | 0 <= i < |dbs| ensures (0, 0) !in forks[i] { NoForkClashes(get, dbs, forks, i); }
    NoFirstDbClash(get, dbs, forks);
  }

  lemma NoXidClash(xids: seq<u32>)
    requires Increasing(xids, x => x) && InKeyOrder([One(TWOPHASEDIR_KEY)] + Flatten(XidParts(xids)))
    ensures 0 !in xids
  {
    if xids != [] {
      FirstOfConcat(XidParts(xids));
      JointOrder([One(TWOPHASEDIR_KEY)], Flatten(XidParts(xids)));
      XidOrder(xids[0], xids[0]);
    }
  }

  // --- the keys of a list

  lemma KeysOfConcat(a: seq<Range>, b: seq<Range>)
    ensures KeysIn(a + b) == KeysIn(a) + KeysIn(b)
  {
    forall k ensures AnyKeyIn(a + b, k) <==> AnyKeyIn(a, k) || AnyKeyIn(b, k) {
      if AnyKeyIn(a, k) { var i :| 0 <= i < |a| && KeyIn(a[i], k); assert (a + b)[i] == a[i]; }
      if AnyKeyIn(b, k) { var i :| 0 <= i < |b| && KeyIn(b[i], k); assert (a + b)[|a| + i] == b[i]; }
    }
  }

  lemma KeysOfOne(k: Key)
    requires k.field1 <= 3
    ensures KeysIn([One(k)]) == iset{k}
  {
    forall x ensures AnyKeyIn([One(k)], x) <==> x == k {
      NextIsSuccessor(k, x);
      LessIsValueOrder(k, x);
      LessIsValueOrder(x, k);
      assert AnyKeyIn([One(k)], x) <==> KeyIn([One(k)][0], x);
    }
  }

  lemma KeysOfBlocks(a: Key, n: u32)
    requires a.field6 == 0
    ensures KeysIn([Range(a, a.(field6 := n))]) == iset k: Key | k == a.(field6 := k.field6) && k.field6 < n
  {
    var blocks := [Range(a, a.(field6 := n))];
    forall x ensures AnyKeyIn(blocks, x) <==> x == a.(field6 := x.field6) && x.field6 < n {
      assert AnyKeyIn(blocks, x) <==> KeyIn(blocks[0], x);
    }
  }

  lemma KeysOfRun(get: Snapshot, a: Key)
    requires a.field1 <= 3 && a.field6 == 0
    ensures KeysIn(RunRanges(get, a)) == BlockKeys(a, SizeOr0(get, a.(field6 := SIZE_BLOCK)))
  {
    var n, size := SizeOr0(get, a.(field6 := SIZE_BLOCK)), a.(field6 := SIZE_BLOCK);
    KeysOfBlocks(a, n);
    KeysOfOne(size);
    KeysOfConcat([Range(a, a.(field6 := n))], [One(size)]);
    assert RunRanges(get, a) == [Range(a, a.(field6 := n))] + [One(size)];
  }

  lemma {:induction false} KeysOfParts(parts: seq<seq<Range>>, k: Key)
    ensures k in KeysIn(Flatten(parts)) <==> exists i :: 0 <= i < |parts| && k in KeysIn(parts[i])
  {
    if parts != [] {
      var n := |parts| - 1;
      KeysOfConcat(Flatten(parts[..n]), parts[n]);
      KeysOfParts(parts[..n], k);
      if i :| 0 <= i < |parts| && k in KeysIn(parts[i]) {
        if i < n { assert parts[..n][i] == parts[i]; }
      }
    }
  }

  lemma KeyOfForks(get: Snapshot, db: Db, forks: seq<(u32, u8)>, k: Key)
    ensures k in KeysIn(Flatten(RunParts(get, ForkFirsts(db, forks)))) <==>
            exists i :: 0 <= i < |forks| && k in RelKeys(get, Rel(db, forks[i]))
  {
    var parts := RunParts(get, ForkFirsts(db, forks));
    KeysOfParts(parts, k);
    forall i | 0 <= i < |forks| ensures KeysIn(parts[i]) == RelKeys(get, Rel(db, forks[i])) {
      KeysOfRun(get, ForkFirsts(db, forks)[i]);
    }
  }

  lemma KeysOfForks(get: Snapshot, db: Db, forks: seq<(u32, u8)>)
    requires ForksOk(get, db, forks)
    ensures KeysIn(Flatten(RunParts(get, ForkFirsts(db, forks)))) == ForkKeys(get, db)
  {
    forall k ensures k in KeysIn(Flatten(RunParts(get, ForkFirsts(db, forks)))) <==> k in ForkKeys(get, db) {
      KeyOfForks(get, db, forks, k);
      assert forall i :: 0 <= i < |forks| ==> forks[i] in forks;
    }
  }

  lemma KeysOfDb(get: Snapshot, db: Db, forks: seq<(u32, u8)>)
    requires ForksOk(get, db, forks)
    ensures KeysIn(DbRanges(get, db, forks)) == DbKeys(get, db)
  {
    var relmap, reldir := RelmapFileKey(db.0, db.1), RelDirToKey(db.0, db.1);
    KeysOfOne(relmap);
    KeysOfOne(reldir);
    KeysOfConcat([One(relmap)], [One(reldir)]);
    KeysOfConcat([One(relmap)] + [One(reldir)], Flatten(RunParts(get, ForkFirsts(db, forks))));
    KeysOfForks(get, db, forks);
  }

  lemma KeyOfSegments(get: Snapshot, kind: SlruKind, segs: seq<u32>, k: Key)
    ensures k in KeysIn(Flatten(RunParts(get, SegmentFirsts(kind, segs)))) <==>
            exists i :: 0 <= i < |segs| && k in SegmentKeys(get, kind, segs[i])
  {
    var parts := RunParts(get, SegmentFirsts(kind, segs));
    KeysOfParts(parts, k);
    forall i | 0 <= i < |segs| ensures KeysIn(parts[i]) == SegmentKeys(get, kind, segs[i]) {
      KeysOfRun(get, SegmentFirsts(kind, segs)[i]);
    }
  }

  lemma KeysOfSlru(get: Snapshot, kind: SlruKind, segs: seq<u32>)
    requires SegmentsOk(get, kind, segs)
    ensures KeysIn(SlruRanges(get, kind, segs)) == SlruKeys(get, kind)
  {
    var dir, parts := SlruDirToKey(kind), RunParts(get, SegmentFirsts(kind, segs));
    KeysOfOne(dir);
    KeysOfConcat([One(dir)], Flatten(parts));
    forall k
      ensures k in KeysIn(Flatten(parts)) <==> exists i :: 0 <= i < |segs| && k in SegmentKeys(get, kind, segs[i])
    {
      KeyOfSegments(get, kind, segs, k);
    }
    assert forall i :: 0 <= i < |segs| ==> segs[i] in segs;
  }

  lemma KeysOfDbs(get: Snapshot, dbs: seq<Db>, forks: seq<seq<(u32, u8)>>)
    requires DbDirs(get).Some? && ForksListed(get, dbs, forks) && forall db :: db in dbs <==> db in DbDirs(get).value
    ensures KeysIn([One(DBDIR_KEY)] + Flatten(DbParts(get, dbs, forks))) == RelationKeys(get)
  {
    var parts := DbParts(get, dbs, forks);
    KeysOfOne(DBDIR_KEY);
    KeysOfConcat([One(DBDIR_KEY)], Flatten(parts));
    forall k ensures k in KeysIn(Flatten(parts)) <==> exists i :: 0 <= i < |dbs| && k in DbKeys(get, dbs[i]) {
      KeysOfParts(parts, k);
      forall i | 0 <= i < |dbs| ensures KeysIn(parts[i]) == DbKeys(get, dbs[i]) {
        KeysOfDb(get, dbs[i], forks[i]);
      }
    }
    assert forall i :: 0 <= i < |dbs| ==> dbs[i] in dbs;
  }

  lemma KeysOfXids(get: Snapshot, xids: seq<u32>)
    requires Xids(get).Some? && forall x :: x in xids <==> x in Xids(get).value
    ensures KeysIn([One(TWOPHASEDIR_KEY)] + Flatten(XidParts(xids))) == TwophaseKeys(get)
  {
    var parts := XidParts(xids);
    KeysOfOne(TWOPHASEDIR_KEY);
    KeysOfConcat([One(TWOPHASEDIR_KEY)], Flatten(parts));
    forall k ensures k in KeysIn(Flatten(parts)) <==> exists i :: 0 <= i < |xids| && k == TwophaseFileKey(xids[i]) {
      KeysOfParts(parts, k);
      forall i | 0 <= i < |xids| ensures KeysIn(parts[i]) == iset{TwophaseFileKey(xids[i])} {
        KeysOfOne(TwophaseFileKey(xids[i]));
      }
    }
    assert forall i :: 0 <= i < |xids| ==> xids[i] in xids;
  }

  // --- stages of collect_keyspace

  predicate Forward(rs: seq<Range>) {
    forall i :: 0 <= i < |rs| ==> !Less(rs[i].end, rs[i].start)
  }

  lemma {:induction false} ForwardParts(parts: seq<seq<Range>>)
    requires forall i :: 0 <= i < |parts| ==> Forward(parts[i])
    ensures Forward(Flatten(parts))
  {
    if parts != [] { ForwardParts(parts[..|parts| - 1]); }
  }

  lemma ForwardRuns(get: Snapshot, firsts: seq<Key>)
    requires Firsts(firsts)
    ensures Forward(Flatten(RunParts(get, firsts)))
  {
    forall i | 0 <= i < |firsts| ensures Forward(RunParts(get, firsts)[i]) { WithinRun(get, firsts[i]); }
    ForwardParts(RunParts(get, firsts));
  }

  lemma ForwardOne(k: Key)
    requires k.field1 <= 3
    ensures Forward([One(k)])
  {
    WithinOne(k);
  }

  lemma ForwardDbs(get: Snapshot, dbs: seq<Db>, forks: seq<seq<(u32, u8)>>)
    requires |dbs| == |forks|
    ensures Forward(Flatten(DbParts(get, dbs, forks)))
  {
    forall i | 0 <= i < |dbs| ensures Forward(DbParts(get, dbs, forks)[i]) {
      ForwardOne(RelmapFileKey(dbs[i].0, dbs[i].1));
      ForwardOne(RelDirToKey(dbs[i].0, dbs[i].1));
      ForwardRuns(get, ForkFirsts(dbs[i], forks[i]));
    }
    ForwardParts(DbParts(get, dbs, forks));
  }

  /** What has been added so far: unless there is a clash, it is in order and below `hi`. */
  ghost predicate Stage(get: Snapshot, rs: seq<Range>, hi: Key) {
    Forward(rs) && (!Clashes(get) ==> Within(rs, DBDIR_KEY, hi))
  }

  lemma NextStage(get: Snapshot, rs: seq<Range>, more: seq<Range>, mid: Key, hi: Key)
    requires Stage(get, rs, mid) && Forward(more) && (!Clashes(get) ==> Within(more, mid, hi))
    ensures Stage(get, rs + more, hi)
    ensures !Accepted(rs + more) ==> Clashes(get)
  {
    if !Clashes(get) {
      WithinConcat(rs, more, DBDIR_KEY, mid, hi);
      KS.AcceptedInOrder(rs + more);
    }
  }

  /** The first n databases of a snapshot in order, with their relations. */
  ghost predicate DbsListed(get: Snapshot, dbs: seq<Db>, n: nat, forks: seq<seq<(u32, u8)>>) {
    && DbDirs(get).Some? && n <= |dbs| && Lists(dbs, DbDirs(get).value.Keys, DbRank)
    && ForksListed(get, dbs[..n], forks)
  }

  lemma NoClashAmongDbs(get: Snapshot, dbs: seq<Db>, n: nat, forks: seq<seq<(u32, u8)>>)
    requires DbsListed(get, dbs, n, forks) && !DbClash(get)
    ensures (0, 0) !in dbs[..n] && forall i :: 0 <= i < n ==> (0, 0) !in forks[i]
  {
    forall i | 0 <= i < n ensures dbs[i] != (0, 0) && (0, 0) !in forks[i] {
      assert dbs[i] in dbs;
      assert dbs[..n][i] == dbs[i] && ForksOk(get, dbs[..n][i], forks[i]);
    }
  }

  lemma DbStage(get: Snapshot, dbs: seq<Db>, n: nat, forks: seq<seq<(u32, u8)>>)
    requires DbsListed(get, dbs, n, forks)
    ensures var rs := [One(DBDIR_KEY)] + Flatten(DbParts(get, dbs[..n], forks));
            Stage(get, rs, SlruDirToKey(Clog)) && (!Accepted(rs) ==> Clashes(get))
  {
    ForwardDbs(get, dbs[..n], forks);
    ForwardOne(DBDIR_KEY);
    WithinOne(DBDIR_KEY);
    if !Clashes(get) {
      NoClashAmongDbs(get, dbs, n, forks);
      DbsWithin(get, dbs[..n], forks);
    }
    NextStage(get, [One(DBDIR_KEY)], Flatten(DbParts(get, dbs[..n], forks)), Next(DBDIR_KEY), SlruDirToKey(Clog));
  }

  lemma DbsDone(get: Snapshot, dbs: seq<Db>, forks: seq<seq<(u32, u8)>>)
    requires DbsListed(get, dbs, |dbs|, forks)
             && Accepted([One(DBDIR_KEY)] + Flatten(DbParts(get, dbs[..|dbs|], forks)))
    ensures !DbClash(get)
    ensures KeysIn([One(DBDIR_KEY)] + Flatten(DbParts(get, dbs[..|dbs|], forks))) == RelationKeys(get)
  {
    assert dbs[..|dbs|] == dbs;
    ForwardDbs(get, dbs, forks);
    ForwardOne(DBDIR_KEY);
    KS.AcceptedInOrder([One(DBDIR_KEY)] + Flatten(DbParts(get, dbs, forks)));
    NoDbClash(get, dbs, forks);
    KeysOfDbs(get, dbs, forks);
    NoneClashes(get, dbs, forks);
  }

  lemma NoneClashes(get: Snapshot, dbs: seq<Db>, forks: seq<seq<(u32, u8)>>)
    requires DbsListed(get, dbs, |dbs|, forks) && (0, 0) !in dbs && forall i :: 0 <= i < |dbs| ==> (0, 0) !in forks[i]
    ensures !DbClash(get)
  {
    assert dbs[..|dbs|] == dbs;
    forall db | db in DbDirs(get).value && RelsOf(get, db).Some? ensures (0, 0) !in RelsOf(get, db).value {
      var i :| 0 <= i < |dbs| && dbs[i] == db;
      assert ForksOk(get, dbs[i], forks[i]);
    }
  }

  method AddListedDbs(get: Snapshot, acc: KS.KeySpaceAccum, dbs: seq<Db>) returns (out: Outcome)
    requires acc.Valid() && acc.added == [One(DBDIR_KEY)] && DbsListed(get, dbs, 0, [])
    modifies acc
    ensures acc.Valid()
    ensures out.Failed? ==> Clashes(get)
    ensures out.Missing? ==> exists db :: db in dbs && !DbReadable(get, db)
    ensures out.Done? ==> AllReadable(get, dbs, |dbs|) && !DbClash(get)
    ensures out.Done? ==> Stage(get, acc.added, SlruDirToKey(Clog)) && KeysIn(acc.added) == RelationKeys(get)
  {
    ghost var n, forks;
    out, n, forks := AddDbs(acc, get, dbs);
    DbStage(get, dbs, n, forks);
    if out.Done? { DbsDone(get, dbs, forks); }
  }

  method CollectDbs(get: Snapshot, acc: KS.KeySpaceAccum) returns (out: Outcome)
    requires acc.Valid() && acc.added == []
    modifies acc
    ensures acc.Valid()
    ensures out.Failed? ==> Clashes(get)
    ensures out.Missing? ==> !Readable(get)
    ensures out.Done? ==> DbsReadable(get) && !DbClash(get)
    ensures out.Done? ==> Stage(get, acc.added, SlruDirToKey(Clog)) && KeysIn(acc.added) == RelationKeys(get)
  {
    DbdirAccepted();
    var ok := AddOne(acc, DBDIR_KEY);
    var dbdirs := DbDirs(get);
    if dbdirs.None? { return Missing; }
    var dbs := Sorted(dbdirs.value.Keys, DbRank);
    out := AddListedDbs(get, acc, dbs);
  }

  lemma DbdirAccepted()
    ensures [] + [One(DBDIR_KEY)] == [One(DBDIR_KEY)] && Accepted([One(DBDIR_KEY)])
  {
    WithinOne(DBDIR_KEY);
    KS.AcceptedInOrder([One(DBDIR_KEY)]);
  }

  method CollectSlru(get: Snapshot, acc: KS.KeySpaceAccum, kind: SlruKind) returns (out: Outcome)
    requires acc.Valid() && Stage(get, acc.added, SlruDirToKey(kind))
    modifies acc
    ensures acc.Valid()
    ensures out.Failed? ==> Clashes(get)
    ensures (out.Missing? ==> !SlruReadable(get, kind)) && (out.Done? ==> SlruReadable(get, kind))
    ensures out.Done? ==> Stage(get, acc.added, SlruEnd(kind))
    ensures out.Done? ==> KeysIn(acc.added) == old(KeysIn(acc.added)) + SlruKeys(get, kind)
  {
    ghost var added, segs := acc.added, [];
    out, segs := AddSlru(acc, get, kind);
    SlruStage(get, added, kind, segs);
  }

  lemma SlruStage(get: Snapshot, added: seq<Range>, kind: SlruKind, segs: seq<u32>)
    requires Stage(get, added, SlruDirToKey(kind)) && SegmentsOk(get, kind, segs)
    ensures Stage(get, added + SlruRanges(get, kind, segs), SlruEnd(kind))
    ensures !Accepted(added + SlruRanges(get, kind, segs)) ==> Clashes(get)
    ensures KeysIn(added + SlruRanges(get, kind, segs)) == KeysIn(added) + SlruKeys(get, kind)
  {
    ForwardOne(SlruDirToKey(kind));
    ForwardRuns(get, SegmentFirsts(kind, segs));
    SlruWithin(get, kind, segs);
    NextStage(get, added, SlruRanges(get, kind, segs), SlruDirToKey(kind), SlruEnd(kind));
    KeysOfSlru(get, kind, segs);
    KeysOfConcat(added, SlruRanges(get, kind, segs));
  }

  lemma OneStage(get: Snapshot, added: seq<Range>, mid: Key, k: Key)
    requires Stage(get, added, mid) && k.field1 <= 3 && !Less(k, mid)
    ensures Stage(get, added + [One(k)], Next(k))
    ensures !Accepted(added + [One(k)]) ==> Clashes(get)
    ensures KeysIn(added + [One(k)]) == KeysIn(added) + iset{k}
  {
    ForwardOne(k);
    WithinOne(k);
    LessIsValueOrder(Next(k), k);
    if !Clashes(get) { Widen(added, DBDIR_KEY, mid, DBDIR_KEY, k); }
    NextStage(get, added, [One(k)], k, Next(k));
    KeysOfOne(k);
    KeysOfConcat(added, [One(k)]);
  }

  lemma XidStage(get: Snapshot, added: seq<Range>, xids: seq<u32>)
    requires Stage(get, added, Next(TWOPHASEDIR_KEY)) && Xids(get).Some? && Lists(xids, Xids(get).value, x => x)
    ensures Stage(get, added + Flatten(XidParts(xids)), CONTROLFILE_KEY)
    ensures !Accepted(added + Flatten(XidParts(xids))) ==> Clashes(get)
  {
    forall i | 0 <= i < |xids| ensures Forward(XidParts(xids)[i]) { ForwardOne(TwophaseFileKey(xids[i])); }
    ForwardParts(XidParts(xids));
    if !Clashes(get) { XidsWithin(xids); }
    NextStage(get, added, Flatten(XidParts(xids)), Next(TWOPHASEDIR_KEY), CONTROLFILE_KEY);
  }

  lemma XidsDone(get: Snapshot, added: seq<Range>, xids: seq<u32>)
    requires Forward(added + [One(TWOPHASEDIR_KEY)] + Flatten(XidParts(xids)))
    requires Accepted(added + [One(TWOPHASEDIR_KEY)] + Flatten(XidParts(xids)))
    requires Xids(get).Some? && Lists(xids, Xids(get).value, x => x)
    ensures 0 !in Xids(get).value
    ensures KeysIn(added + [One(TWOPHASEDIR_KEY)] + Flatten(XidParts(xids))) == KeysIn(added) + TwophaseKeys(get)
  {
    var part := [One(TWOPHASEDIR_KEY)] + Flatten(XidParts(xids));
    assert added + [One(TWOPHASEDIR_KEY)] + Flatten(XidParts(xids)) == added + part;
    KS.AcceptedInOrder(added + part);
    OrderOfParts(added, part);
    NoXidClash(xids);
    KeysOfXids(get, xids);
    KeysOfConcat(added, part);
  }

  method CollectTwophase(get: Snapshot, acc: KS.KeySpaceAccum) returns (out: Outcome)
    requires acc.Valid() && Stage(get, acc.added, SlruEnd(MultiXactOffsets))
    modifies acc
    ensures acc.Valid()
    ensures out.Failed? ==> Clashes(get)
    ensures out.Missing? ==> !Readable(get)
    ensures out.Done? ==> Stage(get, acc.added, CONTROLFILE_KEY) && Xids(get).Some? && 0 !in Xids(get).value
    ensures out.Done? ==> KeysIn(acc.added) == old(KeysIn(acc.added)) + TwophaseKeys(get)
  {
    ghost var added := acc.added;
    OneStage(get, added, SlruEnd(MultiXactOffsets), TWOPHASEDIR_KEY);
    var ok := AddOne(acc, TWOPHASEDIR_KEY);
    if !ok { return Failed; }
    var dir := Xids(get);
    if dir.None? { return Missing; }
    var xids := Sorted(dir.value, x => x);
    XidStage(get, acc.added, xids);
    ok := AddXids(acc, xids);
    if !ok { return Failed; }
    XidsDone(get, added, xids);
    out := Done;
  }

  lemma UnionAssociates(a: iset<Key>, b: iset<Key>, c: iset<Key>, d: iset<Key>)
    ensures a + b + c + d == a + (b + c + d)
  {
  }

  method CollectSlrus(get: Snapshot, acc: KS.KeySpaceAccum) returns (out: Outcome)
    requires acc.Valid() && Stage(get, acc.added, SlruDirToKey(Clog))
    modifies acc
    ensures acc.Valid()
    ensures out.Failed? ==> Clashes(get)
    ensures out.Missing? ==> !Readable(get)
    ensures out.Done? ==> Stage(get, acc.added, SlruEnd(MultiXactOffsets)) && SlrusReadable(get)
    ensures out.Done? ==> KeysIn(acc.added) == old(KeysIn(acc.added)) + AllSlruKeys(get)
  {
    ghost var keys := KeysIn(acc.added);
    assert SlruEnd(Clog) == SlruDirToKey(MultiXactMembers)
           && SlruEnd(MultiXactMembers) == SlruDirToKey(MultiXactOffsets);
    out := CollectSlru(get, acc, Clog);
    if !out.Done? { return; }
    out := CollectSlru(get, acc, MultiXactMembers);
    if !out.Done? { return; }
    out := CollectSlru(get, acc, MultiXactOffsets);
    UnionAssociates(keys, SlruKeys(get, Clog), SlruKeys(get, MultiXactMembers), SlruKeys(get, MultiXactOffsets));
  }

  method CollectMisc(get: Snapshot, acc: KS.KeySpaceAccum) returns (ok: bool)
    requires acc.Valid() && Stage(get, acc.added, CONTROLFILE_KEY)
    modifies acc
    ensures acc.Valid()
    ensures !ok ==> Clashes(get)
    ensures ok ==> Forward(acc.added)
    ensures ok ==> KeysIn(acc.added) == old(KeysIn(acc.added)) + iset{CONTROLFILE_KEY} + iset{CHECKPOINT_KEY}
  {
    OneStage(get, acc.added, CONTROLFILE_KEY, CONTROLFILE_KEY);
    ok := AddOne(acc, CONTROLFILE_KEY);
    if ok {
      OneStage(get, acc.added, Next(CONTROLFILE_KEY), CHECKPOINT_KEY);
      ok := AddOne(acc, CHECKPOINT_KEY);
    }
  }

  method CollectAll(get: Snapshot, acc: KS.KeySpaceAccum) returns (out: Outcome)
    requires acc.Valid() && acc.added == []
    modifies acc
    ensures acc.Valid()
    ensures out.Failed? ==> Clashes(get)
    ensures out.Missing? ==> !Readable(get)
    ensures out.Done? ==> Readable(get) && !Clashes(get) && Forward(acc.added) && KeysIn(acc.added) == LiveKeys(get)
  {
    out := CollectDbs(get, acc);
    if out.Done? { out := CollectSlrus(get, acc); }
    if out.Done? { out := CollectTwophase(get, acc); }
    if out.Done? {
      var ok := CollectMisc(get, acc);
      out := if ok then Done else Failed;
    }
  }

  /**
    collect_keyspace. It fails its ordering assertion only on a clash of numbers, and always then
    when everything can be read; otherwise the ranges are in order, do not overlap, and hold exactly
    the live keys.
  */
  method Collect(get: Snapshot) returns (result: Result)
    ensures result.Unreadable? ==> !Readable(get)
    ensures result.AssertionFailed? ==> Clashes(get)
    ensures result.Collected? ==> Readable(get) && !Clashes(get) && KS.WellSeparated(result.ranges)
    ensures result.Collected? ==> forall k: Key :: KS.Contains(result.ranges, KS.PosOf(k)) <==> k in LiveKeys(get)
  {
    var acc := new KS.KeySpaceAccum();
    var out := CollectAll(get, acc);
    match out
    case Missing => return Unreadable;
    case Failed => return AssertionFailed;
    case Done =>
      var ks := acc.ToKeyspace();
      assert forall k: Key :: AnyKeyIn(acc.added, k) <==> k in KeysIn(acc.added);
      return Collected(ks);
  }
}
