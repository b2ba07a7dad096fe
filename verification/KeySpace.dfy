/**
  Sets of keys as lists of ranges. A key appears here as its position, the 144-bit number it is:
  Keys.LessIsValueOrder makes key order the order of positions, Keys.Add makes Key::add addition,
  and SizeOfKeyRange carries key_range_size over.
*/
module KeySpaces {
  import opened Options
  import opened Arith
  import opened PostgresFfi
  import opened Seqs
  import Keys

  const LIMIT: int := Keys.LIMIT
  const LOW: int := Keys.LOW
  const U32_MAX: int := Keys.U32_MAX

  type Pos = v: int | 0 <= v < LIMIT

  datatype Range = Range(start: Pos, end: Pos)

  function PosOf(k: Keys.Key): Pos {
    Keys.ValueBounds(k);
    Keys.Value(k)
  }

  function RangeOf(r: Keys.Range): Range {
    Range(PosOf(r.start), PosOf(r.end))
  }

  function AddPos(v: Pos, n: nat): Option<Pos> {
    if v + n < LIMIT then Some(v + n) else None
  }

  function Length(r: Range): int {
    r.end - r.start
  }

  /** key_range_size, saturating. */
  function RangeSize(r: Range): nat {
    if r.start / LOW != r.end / LOW || r.end < r.start || r.end - r.start > U32_MAX then U32_MAX
    else r.end - r.start
  }

  lemma SizeOfKeyRange(r: Keys.Range)
    ensures RangeSize(RangeOf(r)) == Keys.KeyRangeSize(r) && Length(RangeOf(r)) == Keys.Length(r)
  {
    Keys.ValueBounds(r.start);
    Keys.ValueBounds(r.end);
    assert PosOf(r.start) / LOW == Keys.Prefix(r.start) && PosOf(r.end) / LOW == Keys.Prefix(r.end);
  }

  predicate InRange(r: Range, v: int) {
    r.start <= v < r.end
  }

  predicate Contains(rs: seq<Range>, v: int) {
    exists i :: 0 <= i < |rs| && InRange(rs[i], v)
  }

  /** In key order, with a gap between neighbours. */
  predicate Separated(rs: seq<Range>) {
    forall i, j :: 0 <= i < j < |rs| ==> rs[i].end < rs[j].start
  }

  predicate AllNonEmpty(rs: seq<Range>) {
    forall i :: 0 <= i < |rs| ==> rs[i].start < rs[i].end
  }

  predicate Canonical(rs: seq<Range>) {
    Separated(rs) && AllNonEmpty(rs)
  }

  lemma ContainsAppend(rs: seq<Range>, r: Range, v: int)
    ensures Contains(rs + [r], v) <==> Contains(rs, v) || InRange(r, v)
  {
    if Contains(rs, v) {
      var i :| 0 <= i < |rs| && InRange(rs[i], v);
      assert (rs + [r])[i] == rs[i];
    }
    if InRange(r, v) { assert (rs + [r])[|rs|] == r; }
  }

  lemma ContainsCons(ps: seq<Range>, v: int)
    requires ps != []
    ensures Contains(ps, v) <==> InRange(ps[0], v) || Contains(ps[1..], v)
  {
    if Contains(ps[1..], v) {
      var i :| 0 <= i < |ps| - 1 && InRange(ps[1..][i], v);
      assert InRange(ps[i + 1], v);
    }
    if Contains(ps, v) && !InRange(ps[0], v) {
      var i :| 0 <= i < |ps| && InRange(ps[i], v);
      assert ps[1..][i - 1] == ps[i];
    }
  }

  // --- the canonical form is unique

  lemma FirstKey(rs: seq<Range>)
    requires Canonical(rs) && rs != []
    ensures Contains(rs, rs[0].start) && forall v :: Contains(rs, v) ==> v >= rs[0].start
    ensures !Contains(rs, rs[0].end)
    ensures forall v :: rs[0].start <= v < rs[0].end ==> Contains(rs, v)
    ensures forall v :: Contains(rs[1..], v) <==> Contains(rs, v) && v >= rs[0].end
  {
    assert InRange(rs[0], rs[0].start);
    forall v ensures Contains(rs[1..], v) <==> Contains(rs, v) && v >= rs[0].end {
      if Contains(rs[1..], v) {
        var i :| 0 <= i < |rs| - 1 && InRange(rs[1..][i], v);
        assert InRange(rs[i + 1], v);
      }
      if Contains(rs, v) && v >= rs[0].end {
        var i :| 0 <= i < |rs| && InRange(rs[i], v);
        assert rs[1..][i - 1] == rs[i];
      }
    }
  }

  /** Two canonical lists of the same keys are the same list. */
  lemma {:induction false} CanonicalIsUnique(a: seq<Range>, b: seq<Range>)
    requires Canonical(a) && Canonical(b)
    requires forall v :: Contains(a, v) <==> Contains(b, v)
    ensures a == b
  {
    if a != [] { FirstKey(a); }
    if b != [] { FirstKey(b); }
    if a != [] && b != [] {
      assert a[0].start == b[0].start;
      assert a[0].end == b[0].end;
      CanonicalIsUnique(a[1..], b[1..]);
    }
  }

  // --- KeySpaceRandomAccum

  predicate SortedByStart(rs: seq<Range>) {
    forall i, j :: 0 <= i < j < |rs| ==> rs[i].start <= rs[j].start
  }

  lemma InsertSorted(s: seq<Range>, r: Range, at: nat)
    requires SortedByStart(s) && at <= |s|
    requires forall j :: 0 <= j < at ==> s[j].start <= r.start
    requires forall j :: at <= j < |s| ==> r.start <= s[j].start
    ensures SortedByStart(s[..at] + [r] + s[at..])
    ensures multiset(s[..at] + [r] + s[at..]) == multiset(s) + multiset{r}
  {
    assert s == s[..at] + s[at..];
  }

  method InsertByStart(s: seq<Range>, r: Range) returns (longer: seq<Range>)
    requires SortedByStart(s)
    ensures SortedByStart(longer) && multiset(longer) == multiset(s) + multiset{r}
  {
    var at := |s|;
    while at > 0 && r.start < s[at - 1].start
      invariant 0 <= at <= |s| && forall j :: at <= j < |s| ==> r.start <= s[j].start
    {
      at := at - 1;
    }
    InsertSorted(s, r, at);
    longer := s[..at] + [r] + s[at..];
  }

  /** sort_by_key on the start of the ranges. */
  method SortByStart(rs: seq<Range>) returns (s: seq<Range>)
    ensures SortedByStart(s) && multiset(s) == multiset(rs)
  {
    s := [];
    for i := 0 to |rs|
      invariant SortedByStart(s) && multiset(s) == multiset(rs[..i])
    {
      s := InsertByStart(s, rs[i]);
      assert rs[..i + 1] == rs[..i] + [rs[i]];
    }
    assert rs[..|rs|] == rs;
  }

  lemma PermutationContains(a: seq<Range>, b: seq<Range>, v: int)
    requires multiset(a) == multiset(b)
    ensures Contains(a, v) <==> Contains(b, v)
  {
    assert forall x :: x in a <==> x in multiset(a);
    assert forall x :: x in b <==> x in multiset(b);
    if Contains(a, v) { var i :| 0 <= i < |a| && InRange(a[i], v); assert a[i] in b; }
    if Contains(b, v) { var i :| 0 <= i < |b| && InRange(b[i], v); assert b[i] in a; }
  }

  lemma PermutationNonEmpty(a: seq<Range>, b: seq<Range>)
    requires multiset(a) == multiset(b) && AllNonEmpty(a)
    ensures AllNonEmpty(b)
  {
    forall i | 0 <= i < |b| ensures b[i].start < b[i].end {
      assert b[i] in multiset(b);
      assert b[i] in a;
    }
  }

  /** What the merging loop makes of the current range and the ranges still to come. */
  function MergeFrom(cur: Range, rs: seq<Range>): (ks: seq<Range>)
    ensures ks != []
    decreases |rs|
  {
    if rs == [] then [cur]
    else if cur.end < rs[0].start then [cur] + MergeFrom(rs[0], rs[1..])
    else if cur.end < rs[0].end then MergeFrom(Range(cur.start, rs[0].end), rs[1..])
    else MergeFrom(cur, rs[1..])
  }

  predicate StartsAfter(rs: seq<Range>, v: int) {
    forall i :: 0 <= i < |rs| ==> v <= rs[i].start
  }

  lemma {:induction false} MergeCovers(cur: Range, rs: seq<Range>, v: int)
    requires SortedByStart(rs) && StartsAfter(rs, cur.start)
    ensures Contains(MergeFrom(cur, rs), v) <==> InRange(cur, v) || Contains(rs, v)
    decreases |rs|
  {
    if rs == [] {
      ContainsCons([cur], v);
    } else {
      var r := rs[0];
      ContainsCons(rs, v);
      if cur.end < r.start {
        MergeCovers(r, rs[1..], v);
        ContainsCons([cur] + MergeFrom(r, rs[1..]), v);
      } else {
        MergeCovers(if cur.end < r.end then Range(cur.start, r.end) else cur, rs[1..], v);
      }
    }
  }

  lemma {:induction false} MergeSeparates(cur: Range, rs: seq<Range>)
    requires SortedByStart(rs) && StartsAfter(rs, cur.start)
    ensures Separated(MergeFrom(cur, rs)) && StartsAfter(MergeFrom(cur, rs), cur.start)
    ensures cur.start < cur.end && AllNonEmpty(rs) ==> AllNonEmpty(MergeFrom(cur, rs))
    decreases |rs|
  {
    if rs != [] {
      var r := rs[0];
      if cur.end < r.start {
        MergeSeparates(r, rs[1..]);
      } else {
        MergeSeparates(if cur.end < r.end then Range(cur.start, r.end) else cur, rs[1..]);
      }
    }
  }

  /** The merging loop over the ranges sorted by start. */
  method Merge(sorted: seq<Range>) returns (ks: seq<Range>)
    requires sorted != []
    ensures ks == MergeFrom(sorted[0], sorted)
  {
    ks := [];
    var start: Pos, end: Pos := sorted[0].start, sorted[0].end;
    assert sorted[0..] == sorted;
    for i := 0 to |sorted|
      invariant ks + MergeFrom(Range(start, end), sorted[i..]) == MergeFrom(sorted[0], sorted)
    {
      var r := sorted[i];
      assert sorted[i..][1..] == sorted[i + 1..];
      if end < r.start {
        Reassociate(ks, [Range(start, end)], MergeFrom(r, sorted[i + 1..]));
        ks := ks + [Range(start, end)];
        start, end := r.start, r.end;
      } else if end < r.end {
        end := r.end;
      }
    }
    ks := ks + [Range(start, end)];
  }

  class KeySpaceRandomAccum {
    var ranges: seq<Range>

    constructor ()
      ensures ranges == []
    {
      ranges := [];
    }

    method AddRange(r: Range)
      modifies this
      ensures ranges == old(ranges) + [r]
    {
      ranges := ranges + [r];
    }

    /** The union of what was added, whatever it was; the canonical form of it if no empty range was. */
    method ToKeyspace() returns (ks: seq<Range>)
      ensures forall v :: Contains(ks, v) <==> Contains(ranges, v)
      ensures Separated(ks)
      ensures AllNonEmpty(ranges) ==> Canonical(ks)
    {
      if ranges == [] { return []; }
      var sorted := SortByStart(ranges);
      ks := Merge(sorted);
      if AllNonEmpty(ranges) { PermutationNonEmpty(ranges, sorted); }
      assert StartsAfter(sorted, sorted[0].start);
      MergeSeparates(sorted[0], sorted);
      forall v ensures Contains(ks, v) <==> Contains(ranges, v) {
        MergeCovers(sorted[0], sorted, v);
        ContainsCons(sorted, v);
        PermutationContains(sorted, ranges, v);
      }
    }
  }

  /** Results for the same ranges added in any order agree. */
  lemma OrderDoesNotMatter(a: seq<Range>, b: seq<Range>, ka: seq<Range>, kb: seq<Range>)
    requires multiset(a) == multiset(b) && Canonical(ka) && Canonical(kb)
    requires forall v :: Contains(ka, v) <==> Contains(a, v)
    requires forall v :: Contains(kb, v) <==> Contains(b, v)
    ensures ka == kb
  {
    forall v ensures Contains(ka, v) <==> Contains(kb, v) { PermutationContains(a, b, v); }
    CanonicalIsUnique(ka, kb);
  }

  // --- overlaps

  /** Starts and ends both in order; what KeySpaceAccum and KeySpaceRandomAccum produce. */
  predicate InOrder(rs: seq<Range>) {
    forall i, j :: 0 <= i < j < |rs| ==> rs[i].start < rs[j].start && rs[i].end <= rs[j].end
  }

  /** binary_search_by_key on the starts. */
  method BinarySearchStart(rs: seq<Range>, key: Pos) returns (found: bool, idx: nat)
    requires InOrder(rs)
    ensures idx <= |rs|
    ensures forall j :: 0 <= j < idx ==> rs[j].start < key
    ensures forall j :: idx <= j < |rs| ==> key <= rs[j].start
    ensures found ==> idx < |rs| && rs[idx].start == key
  {
    var lo, hi := 0, |rs|;
    while lo < hi
      invariant 0 <= lo <= hi <= |rs|
      invariant forall j :: 0 <= j < lo ==> rs[j].start < key
      invariant forall j :: hi <= j < |rs| ==> key < rs[j].start
    {
      var mid := (lo + hi) / 2;
      if rs[mid].start == key {
        return true, mid;
      } else if rs[mid].start < key {
        lo := mid + 1;
      } else {
        hi := mid;
      }
    }
    return false, lo;
  }

  /** KeySpace::overlaps. For an empty query inside a range it says true, as the source's test wants. */
  method Overlaps(rs: seq<Range>, q: Range) returns (b: bool)
    requires InOrder(rs)
    ensures b <==> exists i :: 0 <= i < |rs| && rs[i].start < q.end && q.start < rs[i].end
    ensures q.start < q.end && AllNonEmpty(rs) ==> (b <==> exists v :: InRange(q, v) && Contains(rs, v))
  {
    var found, idx := BinarySearchStart(rs, q.end);
    if idx == 0 {
      b := false;
    } else {
      b := q.start < rs[idx - 1].end;
    }
    if b && q.start < q.end && AllNonEmpty(rs) {
      var v := if q.start <= rs[idx - 1].start then rs[idx - 1].start else q.start;
      assert InRange(q, v) && InRange(rs[idx - 1], v);
    }
  }

  // --- KeySpaceAccum

  /** In key order without overlap; ranges may be empty but not reversed. */
  predicate WellSeparated(rs: seq<Range>) {
    Separated(rs) && forall i :: 0 <= i < |rs| ==> rs[i].start <= rs[i].end
  }

  /** Each range starts where the one before ended, or later. */
  predicate Consecutive(rs: seq<Range>) {
    && (forall i :: 0 <= i < |rs| ==> rs[i].start <= rs[i].end)
    && (forall i, j :: 0 <= i && j == i + 1 < |rs| ==> rs[i].end <= rs[j].start)
  }

  lemma AccumStep(rs: seq<Range>, cur: Range, r: Range)
    requires WellSeparated(rs + [cur]) && cur.end <= r.start <= r.end
    ensures cur.end == r.start ==> WellSeparated(rs + [Range(cur.start, r.end)])
    ensures cur.end == r.start ==>
              forall v :: Contains(rs + [Range(cur.start, r.end)], v) <==> Contains(rs + [cur], v) || InRange(r, v)
    ensures cur.end < r.start ==> WellSeparated(rs + [cur] + [r])
    ensures cur.end < r.start ==>
              forall v :: Contains(rs + [cur] + [r], v) <==> Contains(rs + [cur], v) || InRange(r, v)
  {
    assert (rs + [cur])[|rs|] == cur;
    assert forall i :: 0 <= i < |rs| ==> (rs + [cur])[i] == rs[i] && rs[i].end < cur.start;
    forall v ensures cur.end == r.start ==>
                       (Contains(rs + [Range(cur.start, r.end)], v) <==> Contains(rs + [cur], v) || InRange(r, v)) {
      ContainsAppend(rs, Range(cur.start, r.end), v);
      ContainsAppend(rs, cur, v);
    }
    forall v ensures Contains(rs + [cur] + [r], v) <==> Contains(rs + [cur], v) || InRange(r, v) {
      ContainsAppend(rs + [cur], r, v);
    }
  }

  function Merged(accum: Option<Range>, ranges: seq<Range>): seq<Range> {
    if accum.Some? then ranges + [accum.value] else ranges
  }

  /** What was added came in order, and is what the merged ranges hold. */
  ghost predicate AccumOk(accum: Option<Range>, ranges: seq<Range>, added: seq<Range>) {
    && WellSeparated(Merged(accum, ranges))
    && Consecutive(added) && (accum.None? <==> added == []) && (accum.None? ==> ranges == [])
    && (accum.Some? ==> accum.value.end == added[|added| - 1].end)
    && forall v :: Contains(Merged(accum, ranges), v) <==> Contains(added, v)
  }

  lemma AddedNext(rs: seq<Range>, r: Range)
    requires Consecutive(rs) && r.start <= r.end
    ensures Consecutive(rs + [r]) <==> rs == [] || rs[|rs| - 1].end <= r.start
    ensures forall v :: Contains(rs + [r], v) <==> Contains(rs, v) || InRange(r, v)
  {
    if rs != [] { assert (rs + [r])[|rs| - 1] == rs[|rs| - 1] && (rs + [r])[|rs|] == r; }
    forall v ensures Contains(rs + [r], v) <==> Contains(rs, v) || InRange(r, v) { ContainsAppend(rs, r, v); }
  }

  lemma AccumAdded(cur: Range, ranges: seq<Range>, added: seq<Range>, r: Range)
    requires AccumOk(Some(cur), ranges, added) && cur.end <= r.start <= r.end
    ensures cur.end == r.start ==> AccumOk(Some(Range(cur.start, r.end)), ranges, added + [r])
    ensures cur.end < r.start ==> AccumOk(Some(r), ranges + [cur], added + [r])
  {
    AddedNext(added, r);
    AccumStep(ranges, cur, r);
  }

  ghost function RangesOf(rs: seq<Keys.Range>): (ps: seq<Range>)
    ensures |ps| == |rs| && forall i :: 0 <= i < |rs| ==> ps[i] == RangeOf(rs[i])
  {
    seq(|rs|, i requires 0 <= i < |rs| => RangeOf(rs[i]))
  }

  lemma KeyOrderIsConsecutive(rs: seq<Keys.Range>)
    ensures Keys.InKeyOrder(rs) <==> Consecutive(RangesOf(rs))
    ensures forall i :: 0 <= i < |rs| ==>
              (Keys.Less(rs[i].end, rs[i].start) <==> RangesOf(rs)[i].end < RangesOf(rs)[i].start)
  {
    forall i, j | 0 <= i < |rs| && 0 <= j < |rs|
      ensures Keys.Less(rs[j].start, rs[i].end) <==> RangesOf(rs)[j].start < RangesOf(rs)[i].end
    {
      Keys.LessIsValueOrder(rs[j].start, rs[i].end);
    }
    forall i | 0 <= i < |rs|
      ensures Keys.Less(rs[i].end, rs[i].start) <==> RangesOf(rs)[i].end < RangesOf(rs)[i].start
    {
      Keys.LessIsValueOrder(rs[i].end, rs[i].start);
    }
  }

  lemma KeyInIsContains(rs: seq<Keys.Range>, k: Keys.Key)
    ensures Keys.AnyKeyIn(rs, k) <==> Contains(RangesOf(rs), PosOf(k))
  {
    forall i | 0 <= i < |rs| ensures Keys.KeyIn(rs[i], k) <==> InRange(RangesOf(rs)[i], PosOf(k)) {
      Keys.LessIsValueOrder(k, rs[i].start);
      Keys.LessIsValueOrder(k, rs[i].end);
    }
  }

  datatype Accum = Accum(accum: Option<Range>, ranges: seq<Range>)

  /** One add_range; None is the failed assertion. */
  function AddTo(a: Accum, r: Range): Option<Accum> {
    if a.accum.None? then Some(Accum(Some(r), a.ranges))
    else
      var cur := a.accum.value;
      if r.start == cur.end then Some(Accum(Some(Range(cur.start, r.end)), a.ranges))
      else if r.start > cur.end then Some(Accum(Some(r), a.ranges + [cur]))
      else None
  }

  function AddAll(rs: seq<Keys.Range>): Option<Accum> {
    if rs == [] then Some(Accum(None, []))
    else
      var a := AddAll(rs[..|rs| - 1]);
      if a.None? then None else AddTo(a.value, RangeOf(rs[|rs| - 1]))
  }

  lemma RangesPush(rs: seq<Keys.Range>)
    requires rs != []
    ensures RangesOf(rs) == RangesOf(rs[..|rs| - 1]) + [RangeOf(rs[|rs| - 1])]
  {
  }

  /** Ranges, none reversed, are accepted exactly if each starts where the last ended or later; then
      the result holds their keys. */
  lemma {:induction false} AcceptedConsecutive(rs: seq<Keys.Range>)
    requires forall i :: 0 <= i < |rs| ==> RangesOf(rs)[i].start <= RangesOf(rs)[i].end
    ensures AddAll(rs).Some? <==> Consecutive(RangesOf(rs))
    ensures AddAll(rs).Some? ==> AccumOk(AddAll(rs).value.accum, AddAll(rs).value.ranges, RangesOf(rs))
  {
    if rs != [] {
      var init, r := rs[..|rs| - 1], RangeOf(rs[|rs| - 1]);
      var ps := RangesOf(init);
      RangesPush(rs);
      assert forall i :: 0 <= i < |init| ==> ps[i] == RangesOf(rs)[i];
      AcceptedConsecutive(init);
      AcceptedStep(AddAll(init), ps, r);
    }
  }

  lemma AcceptedStep(a: Option<Accum>, ps: seq<Range>, r: Range)
    requires r.start <= r.end && (a.Some? <==> Consecutive(ps))
    requires a.Some? ==> AccumOk(a.value.accum, a.value.ranges, ps)
    ensures (a.Some? && AddTo(a.value, r).Some?) <==> Consecutive(ps + [r])
    ensures a.Some? && AddTo(a.value, r).Some? ==>
              AccumOk(AddTo(a.value, r).value.accum, AddTo(a.value, r).value.ranges, ps + [r])
  {
    if a.None? {
      ConsecutivePrefix(ps, r);
    } else {
      AddedNext(ps, r);
      if a.value.accum.None? {
        assert Merged(Some(r), []) == ps + [r];
      } else if a.value.accum.value.end <= r.start {
        AccumAdded(a.value.accum.value, a.value.ranges, ps, r);
      }
    }
  }

  lemma ConsecutivePrefix(ps: seq<Range>, r: Range)
    ensures Consecutive(ps + [r]) ==> Consecutive(ps)
  {
    assert forall i :: 0 <= i < |ps| ==> (ps + [r])[i] == ps[i];
  }

  lemma AcceptedInOrder(rs: seq<Keys.Range>)
    requires forall i :: 0 <= i < |rs| ==> !Keys.Less(rs[i].end, rs[i].start)
    ensures AddAll(rs).Some? <==> Keys.InKeyOrder(rs)
    ensures AddAll(rs).Some? ==> AccumOk(AddAll(rs).value.accum, AddAll(rs).value.ranges, RangesOf(rs))
  {
    KeyOrderIsConsecutive(rs);
    AcceptedConsecutive(rs);
  }

  class KeySpaceAccum {
    var accum: Option<Range>
    var ranges: seq<Range>
    ghost var added: seq<Keys.Range>

    ghost predicate Valid()
      reads this
    {
      AddAll(added) == Some(Accum(accum, ranges))
    }

    constructor ()
      ensures Valid() && added == []
    {
      accum, ranges, added := None, [], [];
    }

    /** add_range; ok is false when the source's assertion fails. */
    method AddRange(range: Keys.Range) returns (ok: bool)
      requires Valid()
      modifies this
      ensures Valid()
      ensures ok <==> AddAll(old(added) + [range]).Some?
      ensures added == if ok then old(added) + [range] else old(added)
    {
      var r := RangeOf(range);
      assert (added + [range])[..|added|] == added;
      if accum.None? {
        accum := Some(r);
      } else if r.start == accum.value.end {
        accum := Some(Range(accum.value.start, r.end));
      } else {
        if r.start <= accum.value.end { return false; }
        ranges := ranges + [accum.value];
        accum := Some(r);
      }
      added := added + [range];
      ok := true;
    }

    /** add_key; fails also when the key has no successor. */
    method AddKey(k: Keys.Key) returns (ok: bool)
      requires Valid()
      modifies this
      ensures Valid()
      ensures ok <==> Keys.Add(k, 1).Some? && AddAll(old(added) + [Keys.Range(k, Keys.Add(k, 1).value)]).Some?
      ensures added == if ok then old(added) + [Keys.Range(k, Keys.Add(k, 1).value)] else old(added)
    {
      var next := Keys.AddCarry(k, 1);
      if next.None? { return false; }
      ok := AddRange(Keys.Range(k, next.value));
    }

    /** to_keyspace. */
    method ToKeyspace() returns (ks: seq<Range>)
      requires Valid()
      requires forall i :: 0 <= i < |added| ==> !Keys.Less(added[i].end, added[i].start)
      ensures WellSeparated(ks) && forall k: Keys.Key :: Contains(ks, PosOf(k)) <==> Keys.AnyKeyIn(added, k)
    {
      ks := if accum.Some? then ranges + [accum.value] else ranges;
      AcceptedInOrder(added);
      forall k: Keys.Key ensures Contains(ks, PosOf(k)) <==> Keys.AnyKeyIn(added, k) {
        KeyInIsContains(added, k);
      }
    }
  }

  // --- partition

  /** The inner loop of partition: before a turn, at its end, or stopped by a failed Key::add. */
  datatype Cutting = Cutting(start: Pos, remain: nat) | Ended | AddFailed

  /** One turn: a piece of n blocks is cut off. */
  function Turn(c: Cutting, n: nat): Cutting {
    if !c.Cutting? then c
    else if c.remain <= n then Ended
    else
      var next := AddPos(c.start, n);
      if next.None? then AddFailed else Cutting(next.value, c.remain - n)
  }

  function Turns(c: Cutting, n: nat, k: nat): Cutting {
    if k == 0 then c else Turn(Turns(c, n, k - 1), n)
  }

  ghost predicate LoopEnds(start: Pos, remain: nat, n: nat) {
    exists k: nat :: !Turns(Cutting(start, remain), n, k).Cutting?
  }

  /** Cutting pieces of no blocks off a range that has some leaves everything as it was. */
  lemma {:induction false} NoProgress(start: Pos, remain: nat, k: nat)
    requires remain > 0
    ensures Turns(Cutting(start, remain), 0, k) == Cutting(start, remain)
  {
    if k > 0 { NoProgress(start, remain, k - 1); }
  }

  lemma {:induction false} Progress(start: Pos, remain: nat, n: nat, k: nat)
    requires n > 0
    ensures var c := Turns(Cutting(start, remain), n, k); c.Cutting? ==> c.remain + k <= remain
  {
    if k > 0 { Progress(start, remain, n, k - 1); }
  }

  /** The loop ends if and only if pieces have blocks, or there are none to cut. */
  lemma LoopEndsIff(start: Pos, remain: nat, n: nat)
    ensures LoopEnds(start, remain, n) <==> n > 0 || remain == 0
  {
    if n > 0 {
      Progress(start, remain, n, remain + 1);
      assert !Turns(Cutting(start, remain), n, remain + 1).Cutting?;
    } else if remain == 0 {
      assert Turns(Cutting(start, remain), n, 0) == Cutting(start, remain);
      assert !Turns(Cutting(start, remain), n, 1).Cutting?;
    } else {
      forall k: nat ensures Turns(Cutting(start, remain), n, k).Cutting? { NoProgress(start, remain, k); }
    }
  }

  /** What partition can be given: a target of a block or more, or nothing to cut. */
  predicate Cuttable(rs: seq<Range>, n: nat) {
    n > 0 || forall i :: 0 <= i < |rs| ==> RangeSize(rs[i]) == 0
  }

  /** partition ends on every range if and only if the target is a block or more, or no range has any. */
  lemma PartitionEndsIff(rs: seq<Range>, targetSize: nat)
    ensures (forall i :: 0 <= i < |rs| ==> LoopEnds(rs[i].start, RangeSize(rs[i]), targetSize / BLCKSZ)) <==>
            targetSize >= BLCKSZ || forall i :: 0 <= i < |rs| ==> RangeSize(rs[i]) == 0
  {
    forall i | 0 <= i < |rs|
      ensures LoopEnds(rs[i].start, RangeSize(rs[i]), targetSize / BLCKSZ) <==>
              targetSize / BLCKSZ > 0 || RangeSize(rs[i]) == 0
    {
      LoopEndsIff(rs[i].start, RangeSize(rs[i]), targetSize / BLCKSZ);
    }
  }

  /** One key and a target of 8191 bytes. */
  lemma OneKeyNeverEnds()
    ensures RangeSize(Range(0, 1)) == 1 && !LoopEnds(0, RangeSize(Range(0, 1)), 8191 / BLCKSZ)
  {
    assert 0 / LOW == 1 / LOW;
    LoopEndsIff(0, 1, 8191 / BLCKSZ);
  }

  /** The pieces partition cuts a range of reported size `size` into. None is a failed Key::add. */
  function Pieces(r: Range, size: nat, n: nat): Option<seq<Range>>
    requires n > 0 || size == 0
    decreases size
  {
    if size <= n then Some([r])
    else
      var next := AddPos(r.start, n);
      if next.None? then None
      else
        var rest := Pieces(Range(next.value, r.end), size - n, n);
        if rest.None? then None else Some([Range(r.start, next.value)] + rest.value)
  }

  /** The full pieces cut off a range of reported size `size` do not reach beyond its `length`. */
  predicate Fits(size: nat, length: int, n: nat)
    requires n > 0 || size == 0
  {
    size <= n || (size - 1) / n * n <= length
  }

  /** Whether a range fits can be seen piece by piece. */
  lemma FitsStep(size: nat, length: int, n: nat)
    requires 0 < n < size
    ensures Fits(size, length, n) <==> n <= length && Fits(size - n, length - n, n)
  {
    QuotientStep(size - 1, n);
    if size - n <= n { QuotientBound(size - n - 1, n, 1); }
  }

  lemma HonestSizeFits(size: nat, length: int, n: nat)
    requires (n > 0 || size == 0) && size <= length
    ensures Fits(size, length, n)
  {
    if size > n { QuotientBound(size - 1, n, (size - 1) / n); }
  }

  /** The pieces follow each other from the start of the range to its end. */
  predicate Chain(ps: seq<Range>, r: Range) {
    && ps != [] && ps[0].start == r.start && ps[|ps| - 1].end == r.end
    && (forall i :: 0 <= i < |ps| - 1 ==> ps[i].end == ps[i + 1].start)
    && (forall i :: 0 <= i < |ps| ==> ps[i].start <= ps[i].end)
  }

  lemma {:induction false} ChainCovers(ps: seq<Range>, r: Range)
    requires Chain(ps, r)
    ensures r.start <= r.end
    ensures forall v :: Contains(ps, v) <==> InRange(r, v)
    ensures forall i :: 0 <= i < |ps| ==> r.start <= ps[i].start && ps[i].end <= r.end
    ensures forall i, j :: 0 <= i < j < |ps| ==> ps[i].end <= ps[j].start
  {
    if |ps| == 1 {
      assert forall v :: InRange(ps[0], v) <==> InRange(r, v);
    } else {
      var rest := Range(ps[0].end, r.end);
      ChainCovers(ps[1..], rest);
      forall v ensures Contains(ps, v) <==> InRange(r, v) {
        ContainsCons(ps, v);
      }
    }
  }

  lemma {:induction false} FittingPieces(r: Range, size: nat, n: nat)
    requires (n > 0 || size == 0) && 0 <= Length(r) && Fits(size, Length(r), n)
    ensures Pieces(r, size, n).Some? && Chain(Pieces(r, size, n).value, r)
    ensures forall i :: 0 <= i < |Pieces(r, size, n).value| ==>
              Length(Pieces(r, size, n).value[i]) <= n || Length(r) > size
    decreases size
  {
    if size > n {
      FitsStep(size, Length(r), n);
      FittingPieces(Range(AddPos(r.start, n).value, r.end), size - n, n);
    }
  }

  lemma {:induction false} MisfitReachesBeyond(r: Range, size: nat, n: nat) returns (v: int)
    requires (n > 0 || size == 0) && 0 <= Length(r) && !Fits(size, Length(r), n)
    requires Pieces(r, size, n).Some?
    ensures Contains(Pieces(r, size, n).value, v) && v >= r.end
    decreases size
  {
    var ps, next := Pieces(r, size, n).value, AddPos(r.start, n).value;
    FitsStep(size, Length(r), n);
    if n > Length(r) {
      v := next - 1;
    } else {
      v := MisfitReachesBeyond(Range(next, r.end), size - n, n);
      assert ps[1..] == Pieces(Range(next, r.end), size - n, n).value;
    }
    ContainsCons(ps, v);
  }

  /** A range is cut into pieces that hold exactly its keys, in order and without overlap, if and
      only if it is not cut, or the full pieces its reported size asks for fit into it. */
  lemma PiecesAreExact(r: Range, n: nat)
    requires (n > 0 || RangeSize(r) == 0) && 0 <= Length(r)
    ensures Fits(RangeSize(r), Length(r), n) <==>
              && Pieces(r, RangeSize(r), n).Some?
              && forall v :: Contains(Pieces(r, RangeSize(r), n).value, v) <==> InRange(r, v)
    ensures Fits(RangeSize(r), Length(r), n) ==> Chain(Pieces(r, RangeSize(r), n).value, r)
  {
    if Fits(RangeSize(r), Length(r), n) {
      FittingPieces(r, RangeSize(r), n);
      ChainCovers(Pieces(r, RangeSize(r), n).value, r);
    } else if Pieces(r, RangeSize(r), n).Some? {
      var v := MisfitReachesBeyond(r, RangeSize(r), n);
    }
  }

  /** Every range inside one field1..field4 prefix, and every long one, fits. */
  lemma OnePrefixFits(r: Range, n: nat)
    requires n > 0 || RangeSize(r) == 0
    requires 0 <= Length(r) && (r.start / LOW == r.end / LOW || Length(r) >= U32_MAX)
    ensures Fits(RangeSize(r), Length(r), n)
  {
    HonestSizeFits(RangeSize(r), Length(r), n);
  }

  /** A short range across two prefixes does not: its 16 keys are cut as if they were 2^32 - 1. */
  lemma ShortRangeAcrossPrefixes()
    ensures var r := Range(3 * LOW - 10, 3 * LOW + 6); Length(r) == 16 && !Fits(RangeSize(r), Length(r), 10)
  {
    var r := Range(3 * LOW - 10, 3 * LOW + 6);
    assert r.start / LOW == 2 && r.end / LOW == 3;
    assert (U32_MAX - 1) / 10 * 10 > 16;
  }

  function AllPieces(rs: seq<Range>, n: nat): Option<seq<Range>>
    requires Cuttable(rs, n)
  {
    if rs == [] then Some([])
    else
      var init, last := AllPieces(rs[..|rs| - 1], n), Pieces(rs[|rs| - 1], RangeSize(rs[|rs| - 1]), n);
      if init.None? || last.None? then None else Some(init.value + last.value)
  }

  lemma {:induction false} FailureStays(rs: seq<Range>, i: nat, n: nat)
    requires Cuttable(rs, n) && i <= |rs| && AllPieces(rs[..i], n).None?
    ensures AllPieces(rs, n).None?
    decreases |rs| - i
  {
    if i == |rs| {
      assert rs[..i] == rs;
    } else {
      assert rs[..i + 1][..i] == rs[..i];
      FailureStays(rs, i + 1, n);
    }
  }

  function Blocks(p: seq<Range>): int {
    if p == [] then 0 else Blocks(p[..|p| - 1]) + Length(p[|p| - 1])
  }

  /** Every range counts its keys right. */
  predicate Honest(rs: seq<Range>) {
    forall i :: 0 <= i < |rs| ==> RangeSize(rs[i]) == Length(rs[i])
  }

  /** Parts are non-empty and not too big. */
  predicate PartsOk(parts: seq<seq<Range>>, n: nat) {
    forall i :: 0 <= i < |parts| ==> parts[i] != [] && Blocks(parts[i]) <= n
  }

  lemma BlocksPush(p: seq<Range>, r: Range)
    ensures Blocks(p + [r]) == Blocks(p) + Length(r)
  {
    assert (p + [r])[..|p|] == p;
  }

  function Singles(ps: seq<Range>): seq<seq<Range>> {
    if ps == [] then [] else Singles(ps[..|ps| - 1]) + [[ps[|ps| - 1]]]
  }

  lemma {:induction false} SinglesFlatten(parts: seq<seq<Range>>, ps: seq<Range>)
    ensures Flatten(parts + Singles(ps)) == Flatten(parts) + ps
  {
    if ps == [] {
      assert parts + Singles(ps) == parts;
    } else {
      var init, last := ps[..|ps| - 1], [ps[|ps| - 1]];
      SinglesFlatten(parts, init);
      assert parts + Singles(ps) == (parts + Singles(init)) + [last];
      FlattenPush(parts + Singles(init), last);
      assert ps == init + last;
    }
  }

  lemma {:induction false} SinglesOk(ps: seq<Range>, n: nat)
    requires forall i :: 0 <= i < |ps| ==> Length(ps[i]) <= n
    ensures PartsOk(Singles(ps), n)
  {
    if ps != [] {
      SinglesOk(ps[..|ps| - 1], n);
      BlocksPush([], ps[|ps| - 1]);
    }
  }

  /** The inner loop of partition: cut full pieces off the range; return what is left. */
  method Split(range: Range, size: nat, n: nat, parts: seq<seq<Range>>)
      returns (ok: bool, parts': seq<seq<Range>>, start: Pos, remain: nat, ghost cut: seq<Range>)
    requires n > 0 || size == 0
    ensures ok <==> Pieces(range, size, n).Some?
    ensures ok ==> parts' == parts + Singles(cut) && cut + [Range(start, range.end)] == Pieces(range, size, n).value
    ensures ok ==> remain <= n && start == range.start + size - remain
    ensures forall i :: 0 <= i < |cut| ==> Length(cut[i]) == n
    ensures size <= n ==> cut == [] && start == range.start
    ensures Turns(Cutting(range.start, size), n, |cut| + 1) == if ok then Ended else AddFailed
  {
    remain, start, parts', cut := size, range.start, parts, [];
    while remain > n
      invariant remain <= size && start == range.start + size - remain
      invariant Turns(Cutting(range.start, size), n, |cut|) == Cutting(start, remain)
      invariant Pieces(range, size, n).None? <==> Pieces(Range(start, range.end), remain, n).None?
      invariant Pieces(range, size, n).Some? ==>
                  cut + Pieces(Range(start, range.end), remain, n).value == Pieces(range, size, n).value
      invariant parts' == parts + Singles(cut)
      invariant forall i :: 0 <= i < |cut| ==> Length(cut[i]) == n
      invariant size <= n ==> cut == [] && start == range.start
    {
      var next := AddPos(start, n);
      if next.None? { return false, parts', start, remain, cut; }
      var piece := Range(start, next.value);
      ghost var rest := Pieces(Range(next.value, range.end), remain - n, n);
      if rest.Some? { assert cut + ([piece] + rest.value) == (cut + [piece]) + rest.value; }
      assert (cut + [piece])[..|cut|] == cut;
      parts' := parts' + [[piece]];
      cut := cut + [piece];
      start := next.value;
      remain := remain - n;
    }
    ok := true;
  }

  lemma CutOrCurrent(a: seq<Range>, cut: seq<Range>, current: seq<Range>, last: Range)
    requires cut == [] || current == []
    ensures (a + cut) + (current + [last]) == (a + current) + (cut + [last])
  {
  }

  /** What one range adds: full pieces as parts of their own, the rest to the current part. */
  lemma PartsAfter(parts: seq<seq<Range>>, cut: seq<Range>, current: seq<Range>, last: Range)
    requires cut == [] || current == []
    ensures Flatten(parts + Singles(cut)) + (current + [last]) == Flatten(parts) + current + (cut + [last])
  {
    SinglesFlatten(parts, cut);
    CutOrCurrent(Flatten(parts), cut, current, last);
  }

  /** Starting a new part when the range is too much for the current one. */
  method NewPart(size: nat, n: nat, parts: seq<seq<Range>>, current: seq<Range>, currentSize: nat)
      returns (parts': seq<seq<Range>>, current': seq<Range>, currentSize': nat)
    requires current == [] ==> currentSize == 0
    ensures Flatten(parts') + current' == Flatten(parts) + current
    ensures current' == [] ==> currentSize' == 0
    ensures size > n ==> current' == []
    ensures Blocks(current) == currentSize <= n && PartsOk(parts, n) ==>
              Blocks(current') == currentSize' && (size <= n ==> currentSize' + size <= n) && PartsOk(parts', n)
  {
    parts', current', currentSize' := parts, current, currentSize;
    if currentSize + size > n && current != [] {
      FlattenPush(parts, current);
      parts', current', currentSize' := parts + [current], [], 0;
    }
  }

  /** The loop body of partition: put one range into the parts, starting a new part if need be. */
  method AddToParts(r: Range, n: nat, parts: seq<seq<Range>>, current: seq<Range>, currentSize: nat)
      returns (ok: bool, parts': seq<seq<Range>>, current': seq<Range>, currentSize': nat)
    requires (n > 0 || RangeSize(r) == 0) && (current == [] ==> currentSize == 0)
    ensures ok <==> Pieces(r, RangeSize(r), n).Some?
    ensures ok ==>
              && current' != []
              && Flatten(parts') + current' == Flatten(parts) + current + Pieces(r, RangeSize(r), n).value
    ensures ok && RangeSize(r) == Length(r) && Blocks(current) == currentSize <= n && PartsOk(parts, n) ==>
              Blocks(current') == currentSize' <= n && PartsOk(parts', n)
  {
    var size := RangeSize(r);
    var before, part, partSize := NewPart(size, n, parts, current, currentSize);
    var start, remain;
    ghost var cut;
    ok, parts', start, remain, cut := Split(r, size, n, before);
    current', currentSize' := part + [Range(start, r.end)], partSize + remain;
    if ok {
      PartsAfter(before, cut, part, Range(start, r.end));
      BlocksPush(part, Range(start, r.end));
      SinglesOk(cut, n);
    }
  }

  /** KeySpace::partition. The pieces of all ranges in order, grouped into parts; if the sizes are
      right every part holds at most target_size bytes of pages. */
  method Partition(rs: seq<Range>, targetSize: nat) returns (parts: Option<seq<seq<Range>>>)
    requires Cuttable(rs, targetSize / BLCKSZ)
    ensures parts.Some? <==> AllPieces(rs, targetSize / BLCKSZ).Some?
    ensures parts.Some? ==> Flatten(parts.value) == AllPieces(rs, targetSize / BLCKSZ).value
    ensures parts.Some? && Honest(rs) ==> PartsOk(parts.value, targetSize / BLCKSZ)
  {
    var n := targetSize / BLCKSZ;
    var done, current := [], [];
    var currentSize: nat := 0;
    for i := 0 to |rs|
      invariant AllPieces(rs[..i], n).Some? && Flatten(done) + current == AllPieces(rs[..i], n).value
      invariant Honest(rs) ==> Blocks(current) == currentSize <= n && PartsOk(done, n)
      invariant current == [] ==> currentSize == 0
    {
      assert rs[..i + 1][..i] == rs[..i];
      var ok;
      ok, done, current, currentSize := AddToParts(rs[i], n, done, current, currentSize);
      if !ok {
        FailureStays(rs, i + 1, n);
        return None;
      }
    }
    assert rs[..|rs|] == rs;
    if current != [] {
      FlattenPush(done, current);
      done := done + [current];
    }
    return Some(done);
  }

  /** In key order, neighbours may touch. */
  predicate Ordered(rs: seq<Range>) {
    forall i, j :: 0 <= i < j < |rs| ==> rs[i].end <= rs[j].start
  }

  lemma ContainsConcat(a: seq<Range>, b: seq<Range>, v: int)
    ensures Contains(a + b, v) <==> Contains(a, v) || Contains(b, v)
  {
    if Contains(a, v) { var i :| 0 <= i < |a| && InRange(a[i], v); assert (a + b)[i] == a[i]; }
    if Contains(b, v) { var i :| 0 <= i < |b| && InRange(b[i], v); assert (a + b)[|a| + i] == b[i]; }
  }

  /** Pieces of one more range go after those of the ranges before it. */
  lemma OrderedJoin(a: seq<Range>, b: seq<Range>, r: Range)
    requires Ordered(a) && (forall i :: 0 <= i < |a| ==> a[i].end <= r.start) && Chain(b, r)
    ensures Ordered(a + b) && forall i :: 0 <= i < |a + b| ==> (a + b)[i].end <= r.end
  {
    ChainCovers(b, r);
  }

  /** Ranges in order, each cut exactly. */
  predicate CutExactly(rs: seq<Range>, n: nat) {
    && Cuttable(rs, n) && Ordered(rs)
    && forall i :: 0 <= i < |rs| ==> 0 <= Length(rs[i]) && Fits(RangeSize(rs[i]), Length(rs[i]), n)
  }

  /** These pieces are in order, hold exactly the ranges' keys, and end where the ranges end. */
  ghost predicate SameKeys(ps: seq<Range>, rs: seq<Range>) {
    && Ordered(ps) && (forall v :: Contains(ps, v) <==> Contains(rs, v))
    && (rs == [] ==> ps == []) && (rs != [] ==> forall i :: 0 <= i < |ps| ==> ps[i].end <= rs[|rs| - 1].end)
  }

  lemma OneRangeMore(a: seq<Range>, b: seq<Range>, init: seq<Range>, r: Range)
    requires SameKeys(a, init) && Chain(b, r) && (init != [] ==> init[|init| - 1].end <= r.start)
    ensures SameKeys(a + b, init + [r])
  {
    OrderedJoin(a, b, r);
    PiecesJoin(a, b, init, r, init + [r]);
  }

  /** partition preserves meaning: from ranges in order, each cut exactly, the parts concatenated are in
      order, do not overlap, and hold exactly the same keys. */
  lemma {:induction false} AllPiecesKeepKeys(rs: seq<Range>, n: nat)
    requires CutExactly(rs, n)
    ensures AllPieces(rs, n).Some? && SameKeys(AllPieces(rs, n).value, rs)
  {
    if rs != [] {
      var init, r := rs[..|rs| - 1], rs[|rs| - 1];
      AllPiecesKeepKeys(init, n);
      PiecesAreExact(r, n);
      OneRangeMore(AllPieces(init, n).value, Pieces(r, RangeSize(r), n).value, init, r);
      assert rs == init + [r];
    }
  }

  lemma PiecesJoin(a: seq<Range>, b: seq<Range>, init: seq<Range>, r: Range, rs: seq<Range>)
    requires Chain(b, r) && rs == init + [r] && forall v :: Contains(a, v) <==> Contains(init, v)
    ensures forall v :: Contains(a + b, v) <==> Contains(rs, v)
  {
    ChainCovers(b, r);
    forall v ensures Contains(a + b, v) <==> Contains(rs, v) {
      ContainsConcat(a, b, v);
      ContainsAppend(init, r, v);
    }
  }
}
