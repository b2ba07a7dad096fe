/** A relation exported by add_rel and imported by import_rel, segment by segment. */
module Transfer {
  import opened Options
  import opened Keys
  import opened KeyLayout
  import opened Snapshots
  import opened Modifications
  import opened DatadirModifications
  import opened PostgresFfi
  import opened Seqs

  const U32_LIMIT: nat := 0x1_0000_0000

  /** A segment file; its name gives the relation and the segment number. */
  datatype Segment = Segment(segno: nat, data: seq<byte>)

  predicate WholePages(pages: seq<Page>) {
    forall i :: 0 <= i < |pages| ==> |pages[i]| == BLCKSZ
  }

  lemma {:induction false} FlattenedLength(pages: seq<Page>)
    requires WholePages(pages)
    ensures |Flatten(pages)| == |pages| * BLCKSZ
    decreases |pages|
  {
    if pages != [] { FlattenedLength(pages[..|pages| - 1]); }
  }

  lemma FlattenNext(pages: seq<Page>, i: nat, j: nat)
    requires i <= j < |pages|
    ensures Flatten(pages[i..j + 1]) == Flatten(pages[i..j]) + pages[j]
  {
    assert pages[i..j + 1] == pages[i..j] + [pages[j]];
    FlattenPush(pages[i..j], pages[j]);
  }

  function PageAt(data: seq<byte>, i: nat): Page
    requires (i + 1) * BLCKSZ <= |data|
  {
    data[i * BLCKSZ..(i + 1) * BLCKSZ]
  }

  lemma PageInBoth(a: seq<byte>, b: seq<byte>, i: nat)
    requires (i + 1) * BLCKSZ <= |a|
    ensures PageAt(a + b, i) == PageAt(a, i)
  {
  }

  lemma PageAtEnd(a: seq<byte>, page: Page, i: nat)
    requires |a| == i * BLCKSZ && |page| == BLCKSZ
    ensures PageAt(a + page, i) == page
  {
  }

  lemma {:induction false} PageAtFlatten(pages: seq<Page>, i: nat)
    requires WholePages(pages) && i < |pages|
    ensures |Flatten(pages)| == |pages| * BLCKSZ && PageAt(Flatten(pages), i) == pages[i]
    decreases |pages|
  {
    var before, last := pages[..|pages| - 1], pages[|pages| - 1];
    FlattenedLength(pages);
    FlattenedLength(before);
    if i < |before| {
      PageAtFlatten(before, i);
      PageInBoth(Flatten(before), last, i);
    } else {
      PageAtEnd(Flatten(before), last, i);
    }
  }

  // --- export

  function SegmentEnd(n: nat, segno: nat): nat {
    if (segno + 1) * RELSEG_SIZE < n then (segno + 1) * RELSEG_SIZE else n
  }

  /** Segment numbers of a relation of n blocks; an empty relation has segment 0. */
  predicate HasSegment(n: nat, segno: nat) {
    segno == 0 || segno * RELSEG_SIZE < n
  }

  function SegmentPages(pages: seq<Page>, segno: nat): seq<Page>
    requires HasSegment(|pages|, segno)
  {
    pages[segno * RELSEG_SIZE..SegmentEnd(|pages|, segno)]
  }

  predicate IsSegment(pages: seq<Page>, seg: Segment) {
    HasSegment(|pages|, seg.segno) && seg.data == Flatten(SegmentPages(pages, seg.segno))
  }

  /** Larger relations cannot be exported. */
  predicate Fits(n: nat) {
    n <= U32_LIMIT - RELSEG_SIZE
  }

  datatype Export = Exported(segments: seq<Segment>) | ReadFailed | ExportOverflow

  /** The pages of the first n blocks; one that cannot be read counts as empty. */
  function PagesRead(read: nat -> Option<Page>, n: nat): seq<Page> {
    seq(n, b requires 0 <= b < n => if read(b).Some? then read(b).value else [])
  }

  predicate AllRead(read: nat -> Option<Page>, startblk: nat, endblk: nat) {
    forall b :: startblk <= b < endblk ==> read(b).Some?
  }

  method SegmentData(read: nat -> Option<Page>, startblk: nat, endblk: nat, ghost pages: seq<Page>)
      returns (data: Option<seq<byte>>)
    requires startblk <= endblk <= |pages| && pages == PagesRead(read, |pages|)
    ensures data.Some? <==> AllRead(read, startblk, endblk)
    ensures data.Some? ==> data.value == Flatten(pages[startblk..endblk])
  {
    var segment: seq<byte> := [];
    for blknum := startblk to endblk
      invariant AllRead(read, startblk, blknum) && segment == Flatten(pages[startblk..blknum])
    {
      var page := read(blknum);
      if page.None? { return None; }
      FlattenNext(pages, startblk, blknum);
      segment := segment + page.value;
    }
    data := Some(segment);
  }

  /** The segments written so far. */
  predicate SegmentsOf(pages: seq<Page>, segs: seq<Segment>) {
    forall i :: 0 <= i < |segs| ==> segs[i].segno == i && IsSegment(pages, segs[i])
  }

  /** All segments of the relation, in order. */
  ghost predicate WholeExport(pages: seq<Page>, segs: seq<Segment>) {
    SegmentsOf(pages, segs) && forall segno: nat :: HasSegment(|pages|, segno) <==> segno < |segs|
  }

  /** The next segment, unless a page of it cannot be read. */
  method NextSegment(nblocks: u32, read: nat -> Option<Page>, done: seq<Segment>, ghost pages: seq<Page>)
      returns (more: Option<seq<Segment>>)
    requires |done| * RELSEG_SIZE < nblocks && pages == PagesRead(read, nblocks) && SegmentsOf(pages, done)
    ensures more.Some? <==> AllRead(read, |done| * RELSEG_SIZE, SegmentEnd(nblocks, |done|))
    ensures more.Some? ==> |more.value| == |done| + 1 && SegmentsOf(pages, more.value)
  {
    var startblk := |done| * RELSEG_SIZE;
    var endblk := if startblk + RELSEG_SIZE < nblocks then startblk + RELSEG_SIZE else nblocks;
    var data := SegmentData(read, startblk, endblk, pages);
    if data.None? { return None; }
    more := Some(done + [Segment(|done|, data.value)]);
  }

  lemma ExportEnds(pages: seq<Page>, segs: seq<Segment>)
    requires SegmentsOf(pages, segs) && segs != []
    requires (|segs| - 1) * RELSEG_SIZE < |pages| <= |segs| * RELSEG_SIZE
    ensures WholeExport(pages, segs)
  {
  }

  /** add_rel, from what get_rel_size and get_rel_page_at_lsn answer. The last segment that can be is never
      reached: startblk + RELSEG_SIZE overflows there, before its pages are read. */
  method AddRel(size: Option<u32>, read: nat -> Option<Page>) returns (result: Export)
    ensures result.ReadFailed? <==>
            size.None? || !AllRead(read, 0, if Fits(size.value) then size.value else U32_LIMIT - RELSEG_SIZE)
    ensures result.ExportOverflow? ==> !Fits(size.value)
    ensures result.Exported? ==>
              && Fits(size.value) && AllRead(read, 0, size.value)
              && WholeExport(PagesRead(read, size.value), result.segments)
  {
    if size.None? { return ReadFailed; }
    var nblocks := size.value;
    if nblocks == 0 { return Exported([Segment(0, [])]); }
    ghost var pages := PagesRead(read, nblocks);
    var startblk := 0;
    var done: seq<Segment> := [];
    while startblk < nblocks
      invariant startblk == if |done| * RELSEG_SIZE < nblocks then |done| * RELSEG_SIZE else nblocks
      invariant |done| > 0 ==> (|done| - 1) * RELSEG_SIZE < nblocks
      invariant |done| * RELSEG_SIZE <= U32_LIMIT - RELSEG_SIZE
      invariant SegmentsOf(pages, done) && AllRead(read, 0, startblk)
    {
      if startblk + RELSEG_SIZE >= U32_LIMIT { return ExportOverflow; }
      var more := NextSegment(nblocks, read, done, pages);
      if more.None? { return ReadFailed; }
      startblk := SegmentEnd(nblocks, |done|);
      done := more.value;
    }
    ExportEnds(pages, done);
    result := Exported(done);
  }

  // --- import

  datatype ImportError = BadLength | Overflow | Failed(error: Error)
  datatype Imported = Imported(state: State, error: Option<ImportError>)

  function PutPages(s: State, rel: RelTag, start: nat, pages: seq<Page>): (s': State)
    requires start + |pages| <= U32_LIMIT
    ensures s'.tl == s.tl && s'.m == s.m.(updates := s'.m.updates)
  {
    if pages == [] then s
    else
      var n := |pages| - 1;
      var before := PutPages(s, rel, start, pages[..n]);
      before.(m := before.m.(updates := before.m.updates[RelBlockToKey(rel, start + n) := Image(pages[n])]))
  }

  function PagesOf(data: seq<byte>): seq<Page> {
    seq(|data| / BLCKSZ, i requires 0 <= i < |data| / BLCKSZ => PageAt(data, i))
  }

  /** import_rel on one segment file. Creation fails when an earlier segment has created the relation. */
  function ImportSegment(s: State, rel: RelTag, seg: Segment): Imported {
    if |seg.data| % BLCKSZ != 0 then Imported(s, Some(BadLength))
    else
      var pages, start := PagesOf(seg.data), seg.segno * RELSEG_SIZE;
      if start + |pages| >= U32_LIMIT then Imported(s, Some(Overflow)) else ImportPages(s, rel, start, pages)
  }

  function Created(s: State, rel: RelTag, nblocks: u32): State {
    Apply(s, CreateIn(s, rel, nblocks))
  }

  /** The part of import_rel after the creation. */
  function FillAndExtend(s: State, rel: RelTag, start: nat, pages: seq<Page>): Imported
    requires start + |pages| < U32_LIMIT
  {
    var filled := PutPages(s, rel, start, pages);
    var extended := ExtendIn(filled, rel, start + |pages|);
    Imported(Apply(filled, extended), if extended.error.Some? then Some(Failed(extended.error.value)) else None)
  }

  function ImportPages(s: State, rel: RelTag, start: nat, pages: seq<Page>): Imported
    requires start + |pages| < U32_LIMIT
  {
    var error := CreateIn(s, rel, |pages|).error;
    if error.Some? && error.value != AlreadyExists then Imported(Created(s, rel, |pages|), Some(Failed(error.value)))
    else FillAndExtend(Created(s, rel, |pages|), rel, start, pages)
  }

  /** What a key holds once the pages are put. */
  function WithPages(old_: Option<Val>, k: Key, rel: RelTag, start: nat, pages: seq<Page>): Option<Val> {
    if k == RelBlockToKey(rel, k.field6) && start <= k.field6 < start + |pages|
    then Some(Image(pages[k.field6 - start])) else old_
  }

  lemma {:induction false} PutPagesView(s: State, rel: RelTag, start: nat, pages: seq<Page>, k: Key)
    requires start + |pages| <= U32_LIMIT
    ensures View(PutPages(s, rel, start, pages), k) == WithPages(View(s, k), k, rel, start, pages)
    decreases |pages|
  {
    if pages != [] { PutPagesView(s, rel, start, pages[..|pages| - 1], k); }
  }

  // --- what importing does to a relation

  /** The relation can be created. */
  predicate Absent(s: State, rel: RelTag) {
    && DbDirs(Viewed(s)).Some?
    && (DbOf(rel) in DbDirs(Viewed(s)).value ==>
          RelsOf(Viewed(s), DbOf(rel)).Some? && ForkOf(rel) !in RelsOf(Viewed(s), DbOf(rel)).value)
  }

  predicate Listed(s: State, rel: RelTag) {
    && DbDirs(Viewed(s)).Some? && DbOf(rel) in DbDirs(Viewed(s)).value
    && RelsOf(Viewed(s), DbOf(rel)).Some? && ForkOf(rel) in RelsOf(Viewed(s), DbOf(rel)).value
  }

  /** The relation does not exist, or exists with this size. */
  predicate HasSize(s: State, rel: RelTag, size: Option<u32>) {
    rel.relnode != 0 &&
    if size.None? then Absent(s, rel) else Listed(s, rel) && View(s, RelSizeToKey(rel)) == Some(NBlocks(size.value))
  }

  function BlocksIn(size: Option<u32>): u32 {
    if size.Some? then size.value else 0
  }

  /** No data block of the relation differs. */
  ghost predicate SameBlocks(s: State, s': State, rel: RelTag) {
    forall b: u32 :: b != SIZE_BLOCK ==> View(s', RelBlockToKey(rel, b)) == View(s, RelBlockToKey(rel, b))
  }

  lemma CreateFound(s: State, rel: RelTag, n: u32)
    requires rel.relnode != 0 && Listed(s, rel)
    ensures CreateIn(s, rel, n).error == Some(AlreadyExists) && Created(s, rel, n) == s
  {
  }

  lemma CreatePutsNoBlock(s: State, rel: RelTag, n: u32)
    requires rel.relnode != 0
    ensures forall b: u32 :: b != SIZE_BLOCK ==> RelBlockToKey(rel, b) !in CreateIn(s, rel, n).puts
  {
  }

  lemma CreateNew(s: State, rel: RelTag, n: u32)
    requires HasSize(s, rel, None)
    ensures CreateIn(s, rel, n).error.None? && Created(s, rel, n).m.nblocks == s.m.nblocks + n
    ensures SameBlocks(s, Created(s, rel, n), rel)
  {
    CreatePutsNoBlock(s, rel, n);
  }

  lemma CreateLists(s: State, rel: RelTag, n: u32)
    requires HasSize(s, rel, None)
    ensures HasSize(Created(s, rel, n), rel, Some(n))
  {
    var plan := CreateIn(s, rel, n);
    ViewAfter(s, plan, DBDIR_KEY);
    ViewAfter(s, plan, DirKey(DbOf(rel)));
    ViewAfter(s, plan, RelSizeToKey(rel));
  }

  /** Created or found, the relation is there, and none of its blocks has changed. */
  lemma CreatedEffect(s: State, rel: RelTag, n: u32, size: Option<u32>)
    requires HasSize(s, rel, size)
    ensures var s', error := Created(s, rel, n), CreateIn(s, rel, n).error;
            && (error.None? || error.value == AlreadyExists) && SameBlocks(s, s', rel)
            && HasSize(s', rel, Some(if size.Some? then size.value else n))
            && s'.m.nblocks == s.m.nblocks + if size.Some? then 0 else n
  {
    if size.Some? {
      CreateFound(s, rel, n);
    } else {
      CreateNew(s, rel, n);
      CreateLists(s, rel, n);
    }
  }

  lemma ExtendEffect(s: State, rel: RelTag, n: u32, size: u32)
    requires HasSize(s, rel, Some(size))
    ensures var plan := ExtendIn(s, rel, n);
            var s' := Apply(s, plan);
            && plan.error.None? && HasSize(s', rel, Some(Max(size, n)))
            && s'.m.nblocks == s.m.nblocks + Max(size, n) - size && SameBlocks(s, s', rel)
  {
  }

  lemma PutPagesEffect(s: State, rel: RelTag, start: nat, pages: seq<Page>, size: u32)
    requires HasSize(s, rel, Some(size)) && start + |pages| < U32_LIMIT
    ensures HasSize(PutPages(s, rel, start, pages), rel, Some(size))
  {
    PutPagesView(s, rel, start, pages, DBDIR_KEY);
    PutPagesView(s, rel, start, pages, DirKey(DbOf(rel)));
    PutPagesView(s, rel, start, pages, RelSizeToKey(rel));
  }

  /** Every data block is as it was, but for the pages put over it. */
  ghost predicate BlocksFilled(s: State, s': State, rel: RelTag, start: nat, pages: seq<Page>) {
    forall b: u32 :: b != SIZE_BLOCK ==>
      View(s', RelBlockToKey(rel, b)) ==
      WithPages(View(s, RelBlockToKey(rel, b)), RelBlockToKey(rel, b), rel, start, pages)
  }

  lemma FilledEffect(s: State, created: State, rel: RelTag, start: nat, pages: seq<Page>, size: u32)
    requires HasSize(created, rel, Some(size)) && start + |pages| < U32_LIMIT && SameBlocks(s, created, rel)
    ensures HasSize(PutPages(created, rel, start, pages), rel, Some(size))
    ensures BlocksFilled(s, PutPages(created, rel, start, pages), rel, start, pages)
  {
    PutPagesEffect(created, rel, start, pages, size);
    forall b: u32 | b != SIZE_BLOCK
      ensures View(PutPages(created, rel, start, pages), RelBlockToKey(rel, b)) ==
              WithPages(View(s, RelBlockToKey(rel, b)), RelBlockToKey(rel, b), rel, start, pages)
    {
      PutPagesView(created, rel, start, pages, RelBlockToKey(rel, b));
    }
  }

  lemma StillFilled(s: State, filled: State, s': State, rel: RelTag, start: nat, pages: seq<Page>)
    requires BlocksFilled(s, filled, rel, start, pages) && SameBlocks(filled, s', rel)
    ensures BlocksFilled(s, s', rel, start, pages)
  {
  }

  lemma ExtendedEffect(s: State, filled: State, rel: RelTag, start: nat, pages: seq<Page>, size: u32, n: u32)
    requires HasSize(filled, rel, Some(size)) && n == start + |pages| && BlocksFilled(s, filled, rel, start, pages)
    ensures var plan := ExtendIn(filled, rel, n);
            var s' := Apply(filled, plan);
            && plan.error.None? && HasSize(s', rel, Some(Max(size, n)))
            && s'.m.nblocks == filled.m.nblocks + Max(size, n) - size && BlocksFilled(s, s', rel, start, pages)
  {
    ExtendEffect(filled, rel, n, size);
    StillFilled(s, filled, Apply(filled, ExtendIn(filled, rel, n)), rel, start, pages);
  }

  /** The pages are put, the relation has this size, and the modification this block count. */
  ghost predicate ImportedTo(s: State, done: Imported, rel: RelTag, start: nat, pages: seq<Page>,
                             size: u32, nblocks: int)
  {
    && done.error.None? && HasSize(done.state, rel, Some(size)) && done.state.m.nblocks == nblocks
    && BlocksFilled(s, done.state, rel, start, pages)
  }

  lemma FillAndExtendEffect(s: State, created: State, rel: RelTag, start: nat, pages: seq<Page>, size: u32,
                            done: Imported, size': u32, nblocks: int)
    requires HasSize(created, rel, Some(size)) && start + |pages| < U32_LIMIT && SameBlocks(s, created, rel)
    requires done == FillAndExtend(created, rel, start, pages)
    requires size' == Max(size, start + |pages|) && nblocks == created.m.nblocks + size' - size
    ensures ImportedTo(s, done, rel, start, pages, size', nblocks)
  {
    var filled, n := PutPages(created, rel, start, pages), start + |pages|;
    FilledEffect(s, created, rel, start, pages, size);
    ExtendedEffect(s, filled, rel, start, pages, size, n);
    assert done == Imported(Apply(filled, ExtendIn(filled, rel, n)), None);
  }

  lemma ImportCreates(s: State, rel: RelTag, start: nat, pages: seq<Page>, size: Option<u32>)
    requires HasSize(s, rel, size) && start + |pages| < U32_LIMIT
    ensures ImportPages(s, rel, start, pages) == FillAndExtend(Created(s, rel, |pages|), rel, start, pages)
  {
    CreatedEffect(s, rel, |pages|, size);
  }

  /** What import_rel counts: the blocks the creation counts, and those the extension adds. */
  lemma CountedOnce(size: Option<u32>, pages: u32, n: u32, before: int, created: int)
    requires pages <= n && created == before + if size.Some? then 0 else pages
    ensures var size1 := if size.Some? then size.value else pages;
            && Max(size1, n) == Max(BlocksIn(size), n)
            && created + Max(size1, n) - size1 == before + Max(BlocksIn(size), n) - BlocksIn(size)
  {
  }

  lemma ImportedEffect(s: State, rel: RelTag, start: nat, pages: seq<Page>, size: Option<u32>,
                       done: Imported, size': u32, nblocks: int)
    requires HasSize(s, rel, size) && start + |pages| < U32_LIMIT && done == ImportPages(s, rel, start, pages)
    requires size' == Max(BlocksIn(size), start + |pages|) && nblocks == s.m.nblocks + size' - BlocksIn(size)
    ensures ImportedTo(s, done, rel, start, pages, size', nblocks)
  {
    var created, size1 := Created(s, rel, |pages|), if size.Some? then size.value else |pages|;
    ImportCreates(s, rel, start, pages, size);
    CreatedEffect(s, rel, |pages|, size);
    CountedOnce(size, |pages|, start + |pages|, s.m.nblocks, created.m.nblocks);
    FillAndExtendEffect(s, created, rel, start, pages, size1, done, size', nblocks);
  }

  /** Importing grows the relation to the end of the segment, counts the growth, and puts the pages. */
  lemma ImportEffect(s: State, rel: RelTag, start: nat, pages: seq<Page>, size: Option<u32>)
    requires HasSize(s, rel, size) && start + |pages| < U32_LIMIT
    ensures var size' := Max(BlocksIn(size), start + |pages|);
            ImportedTo(s, ImportPages(s, rel, start, pages), rel, start, pages,
                       size', s.m.nblocks + size' - BlocksIn(size))
  {
    var size' := Max(BlocksIn(size), start + |pages|);
    ImportedEffect(s, rel, start, pages, size,
                   ImportPages(s, rel, start, pages), size', s.m.nblocks + size' - BlocksIn(size));
  }

  // --- whole relations

  lemma WholeBlocks(n: nat)
    ensures n * BLCKSZ % BLCKSZ == 0 && n * BLCKSZ / BLCKSZ == n
  {
  }

  lemma PagesOfFlatten(part: seq<Page>)
    requires WholePages(part)
    ensures |Flatten(part)| % BLCKSZ == 0 && PagesOf(Flatten(part)) == part
  {
    FlattenedLength(part);
    WholeBlocks(|part|);
    forall i | 0 <= i < |part| ensures PageAt(Flatten(part), i) == part[i] { PageAtFlatten(part, i); }
  }

  lemma SegmentReadsBack(pages: seq<Page>, seg: Segment)
    requires WholePages(pages) && IsSegment(pages, seg)
    ensures |seg.data| % BLCKSZ == 0 && PagesOf(seg.data) == SegmentPages(pages, seg.segno)
  {
    PagesOfFlatten(SegmentPages(pages, seg.segno));
  }

  function ImportAll(s: State, rel: RelTag, segs: seq<Segment>): Imported {
    if segs == [] then Imported(s, None)
    else
      var before := ImportAll(s, rel, segs[..|segs| - 1]);
      if before.error.Some? then before else ImportSegment(before.state, rel, segs[|segs| - 1])
  }

  /** The size after these segments of a relation of n blocks. */
  function Reached(n: u32, segs: seq<Segment>): Option<u32> {
    if segs == [] then None
    else Some(Max(BlocksIn(Reached(n, segs[..|segs| - 1])), SegmentEnd(n, segs[|segs| - 1].segno)))
  }

  predicate InSegment(n: nat, segno: nat, b: nat) {
    segno * RELSEG_SIZE <= b < SegmentEnd(n, segno)
  }

  /** Block b of the relation is in one of the segments. */
  predicate Covered(n: nat, segs: seq<Segment>, b: nat) {
    exists j :: 0 <= j < |segs| && InSegment(n, segs[j].segno, b)
  }

  ghost predicate HasPages(s: State, rel: RelTag, pages: seq<Page>, segs: seq<Segment>) {
    forall b: nat :: b < |pages| && b < SIZE_BLOCK && Covered(|pages|, segs, b) ==>
      View(s, RelBlockToKey(rel, b)) == Some(Image(pages[b]))
  }

  lemma HasPagesStep(s: State, s': State, rel: RelTag, pages: seq<Page>, segs: seq<Segment>, seg: Segment)
    requires HasPages(s, rel, pages, segs) && HasSegment(|pages|, seg.segno)
    requires BlocksFilled(s, s', rel, seg.segno * RELSEG_SIZE, SegmentPages(pages, seg.segno))
    ensures HasPages(s', rel, pages, segs + [seg])
  {
    forall b: nat | b < |pages| && b < SIZE_BLOCK && Covered(|pages|, segs + [seg], b)
      ensures View(s', RelBlockToKey(rel, b)) == Some(Image(pages[b]))
    {
      if !InSegment(|pages|, seg.segno, b) { assert Covered(|pages|, segs, b); }
    }
  }

  /** The state after these segments, when the block count was `blocks` before them. */
  ghost predicate Progress(blocks: int, s: State, rel: RelTag, pages: seq<Page>, segs: seq<Segment>)
    requires Fits(|pages|)
  {
    && HasSize(s, rel, Reached(|pages|, segs)) && s.m.nblocks == blocks + BlocksIn(Reached(|pages|, segs))
    && HasPages(s, rel, pages, segs)
  }

  lemma SegmentImport(s: State, rel: RelTag, pages: seq<Page>, seg: Segment)
    requires WholePages(pages) && Fits(|pages|) && IsSegment(pages, seg)
    ensures seg.segno * RELSEG_SIZE + |SegmentPages(pages, seg.segno)| == SegmentEnd(|pages|, seg.segno) < U32_LIMIT
    ensures ImportSegment(s, rel, seg) == ImportPages(s, rel, seg.segno * RELSEG_SIZE, SegmentPages(pages, seg.segno))
  {
    SegmentReadsBack(pages, seg);
  }

  lemma ReachedStep(n: u32, segs: seq<Segment>, seg: Segment)
    ensures Reached(n, segs + [seg]) == Some(Max(BlocksIn(Reached(n, segs)), SegmentEnd(n, seg.segno)))
  {
    assert (segs + [seg])[..|segs|] == segs;
  }

  lemma ProgressFrom(blocks: int, s: State, done: Imported, rel: RelTag, pages: seq<Page>, segs: seq<Segment>,
                     seg: Segment, size: u32, nblocks: int)
    requires Fits(|pages|) && HasSegment(|pages|, seg.segno) && HasPages(s, rel, pages, segs)
    requires ImportedTo(s, done, rel, seg.segno * RELSEG_SIZE, SegmentPages(pages, seg.segno), size, nblocks)
    requires Reached(|pages|, segs + [seg]) == Some(size) && nblocks == blocks + size
    ensures done.error.None? && Progress(blocks, done.state, rel, pages, segs + [seg])
  {
    HasPagesStep(s, done.state, rel, pages, segs, seg);
  }

  lemma SegmentEffect(s: State, rel: RelTag, pages: seq<Page>, seg: Segment, size: Option<u32>,
                      done: Imported, size': u32, nblocks: int)
    requires WholePages(pages) && Fits(|pages|) && IsSegment(pages, seg) && HasSize(s, rel, size)
    requires done == ImportSegment(s, rel, seg) && size' == Max(BlocksIn(size), SegmentEnd(|pages|, seg.segno))
    requires nblocks == s.m.nblocks + size' - BlocksIn(size)
    ensures ImportedTo(s, done, rel, seg.segno * RELSEG_SIZE, SegmentPages(pages, seg.segno), size', nblocks)
  {
    SegmentImport(s, rel, pages, seg);
    ImportedEffect(s, rel, seg.segno * RELSEG_SIZE, SegmentPages(pages, seg.segno), size, done, size', nblocks);
  }

  lemma ProgressStep(blocks: int, s: State, rel: RelTag, pages: seq<Page>, segs: seq<Segment>, seg: Segment)
    requires WholePages(pages) && Fits(|pages|) && IsSegment(pages, seg) && Progress(blocks, s, rel, pages, segs)
    ensures var done := ImportSegment(s, rel, seg);
            done.error.None? && Progress(blocks, done.state, rel, pages, segs + [seg])
  {
    var size, done := Reached(|pages|, segs), ImportSegment(s, rel, seg);
    var size' := Max(BlocksIn(size), SegmentEnd(|pages|, seg.segno));
    ReachedStep(|pages|, segs, seg);
    SegmentEffect(s, rel, pages, seg, size, done, size', blocks + size');
    ProgressFrom(blocks, s, done, rel, pages, segs, seg, size', blocks + size');
  }

  lemma ProgressStart(s: State, rel: RelTag, pages: seq<Page>)
    requires HasSize(s, rel, None) && Fits(|pages|)
    ensures Progress(s.m.nblocks, s, rel, pages, [])
  {
  }

  lemma ImportOneMore(s: State, rel: RelTag, segs: seq<Segment>, seg: Segment)
    requires ImportAll(s, rel, segs).error.None?
    ensures ImportAll(s, rel, segs + [seg]) == ImportSegment(ImportAll(s, rel, segs).state, rel, seg)
  {
    assert (segs + [seg])[..|segs|] == segs;
  }

  lemma {:induction false} ImportAllEffect(s: State, rel: RelTag, pages: seq<Page>, segs: seq<Segment>)
    requires WholePages(pages) && Fits(|pages|) && Progress(s.m.nblocks, s, rel, pages, [])
    requires forall j :: 0 <= j < |segs| ==> IsSegment(pages, segs[j])
    ensures var done := ImportAll(s, rel, segs); done.error.None? && Progress(s.m.nblocks, done.state, rel, pages, segs)
    decreases |segs|
  {
    if segs != [] {
      var before, seg := segs[..|segs| - 1], segs[|segs| - 1];
      assert segs == before + [seg];
      ImportAllEffect(s, rel, pages, before);
      ImportOneMore(s, rel, before, seg);
      ProgressStep(s.m.nblocks, ImportAll(s, rel, before).state, rel, pages, before, seg);
    }
  }

  /** The last segment ends where the relation ends. */
  lemma {:induction false} ReachedEnd(n: u32, segs: seq<Segment>, j: nat)
    requires j < |segs| && (forall i :: 0 <= i < |segs| ==> HasSegment(n, segs[i].segno))
             && SegmentEnd(n, segs[j].segno) == n
    ensures Reached(n, segs) == Some(n)
    decreases |segs|
  {
    ReachedWithin(n, segs[..|segs| - 1]);
    if j < |segs| - 1 { ReachedEnd(n, segs[..|segs| - 1], j); }
  }

  lemma {:induction false} ReachedWithin(n: u32, segs: seq<Segment>)
    ensures BlocksIn(Reached(n, segs)) <= n
    decreases |segs|
  {
    if segs != [] { ReachedWithin(n, segs[..|segs| - 1]); }
  }

  /** Every segment of the relation is there, each as add_rel writes it; order and repetition are free. */
  ghost predicate AllSegments(pages: seq<Page>, segs: seq<Segment>) {
    && (forall j :: 0 <= j < |segs| ==> IsSegment(pages, segs[j]))
    && (forall segno: nat :: HasSegment(|pages|, segno) ==> exists j :: 0 <= j < |segs| && segs[j].segno == segno)
  }

  /** What add_rel writes is the whole relation. */
  lemma ExportIsWhole(pages: seq<Page>, segs: seq<Segment>)
    requires WholeExport(pages, segs)
    ensures AllSegments(pages, segs)
  {
    forall segno: nat | HasSegment(|pages|, segno) ensures exists j :: 0 <= j < |segs| && segs[j].segno == segno {
      assert segs[segno].segno == segno;
    }
  }

  lemma AllCovered(pages: seq<Page>, segs: seq<Segment>, b: nat)
    requires AllSegments(pages, segs) && b < |pages|
    ensures Covered(|pages|, segs, b)
  {
    var segno := b / RELSEG_SIZE;
    assert HasSegment(|pages|, segno);
    var j :| 0 <= j < |segs| && segs[j].segno == segno;
    assert InSegment(|pages|, segs[j].segno, b);
  }

  /** The relation is there with its size and every page, and its blocks are counted. */
  ghost predicate Restored(s: State, s': State, rel: RelTag, pages: seq<Page>) {
    && Listed(s', rel) && |pages| < U32_LIMIT && View(s', RelSizeToKey(rel)) == Some(NBlocks(|pages|))
    && s'.m.nblocks == s.m.nblocks + |pages|
    && forall b: nat :: b < |pages| ==> View(s', RelBlockToKey(rel, b)) == Some(Image(pages[b]))
  }

  /** Importing the segments of a relation restores its size and every page, and adds exactly its size
      to the block count. */
  lemma RoundTrip(s: State, rel: RelTag, pages: seq<Page>, segs: seq<Segment>)
    requires HasSize(s, rel, None) && WholePages(pages) && Fits(|pages|) && AllSegments(pages, segs)
    ensures ImportAll(s, rel, segs).error.None? && Restored(s, ImportAll(s, rel, segs).state, rel, pages)
  {
    ProgressStart(s, rel, pages);
    ImportAllEffect(s, rel, pages, segs);
    var last := if |pages| == 0 then 0 else (|pages| - 1) / RELSEG_SIZE;
    assert HasSegment(|pages|, last);
    var j :| 0 <= j < |segs| && segs[j].segno == last;
    ReachedEnd(|pages|, segs, j);
    forall b: nat | b < |pages| ensures Covered(|pages|, segs, b) { AllCovered(pages, segs, b); }
  }

  // --- the loop over a segment file

  lemma PutOnePage(s: State, rel: RelTag, start: nat, pages: seq<Page>, i: nat)
    requires i < |pages| && start + |pages| < U32_LIMIT && rel.relnode != 0
    ensures PutPages(s, rel, start, pages[..i + 1]) ==
            Apply(PutPages(s, rel, start, pages[..i]), PagePlan(s.tl.cache, rel, start + i, Image(pages[i])))
  {
    assert pages[..i + 1][..i] == pages[..i];
  }

  method PutNextPage(m: DatadirModification, rel: RelTag, start: nat, data: seq<byte>, i: nat, ghost s: State)
    requires rel.relnode != 0 && start + |PagesOf(data)| < U32_LIMIT && i < |PagesOf(data)|
    requires m.Value() == PutPages(s, rel, start, PagesOf(data)[..i])
    modifies m`pendingUpdates
    ensures m.Value() == PutPages(s, rel, start, PagesOf(data)[..i + 1])
  {
    PutOnePage(s, rel, start, PagesOf(data), i);
    var _ := m.PutRelPage(rel, start + i, Image(PageAt(data, i)));
  }

  method PutSegmentPages(m: DatadirModification, rel: RelTag, start: nat, data: seq<byte>) returns (blknum: u32)
    requires rel.relnode != 0 && start + |PagesOf(data)| < U32_LIMIT
    modifies m`pendingUpdates
    ensures m.Value() == PutPages(old(m.Value()), rel, start, PagesOf(data)) && blknum == start + |PagesOf(data)|
  {
    ghost var s, pages := m.Value(), PagesOf(data);
    blknum := start;
    while blknum - start < |data| / BLCKSZ
      invariant start <= blknum <= start + |pages| && m.Value() == PutPages(s, rel, start, pages[..blknum - start])
    {
      PutNextPage(m, rel, start, data, blknum - start, s);
      blknum := blknum + 1;
    }
    assert pages[..blknum - start] == pages;
  }

  /** Creation, where an existing relation is no error. */
  method CreateOrKeep(m: DatadirModification, rel: RelTag, nblocks: u32) returns (error: Option<Error>)
    modifies m, m.tline`cache
    ensures m.Value() == Created(old(m.Value()), rel, nblocks)
    ensures var e := CreateIn(old(m.Value()), rel, nblocks).error;
            error == (if e == Some(AlreadyExists) then None else e) && (error.None? ==> rel.relnode != 0)
  {
    error := m.PutRelCreation(rel, nblocks);
    if error == Some(AlreadyExists) { error := None; }
  }

  method PutAndExtend(m: DatadirModification, rel: RelTag, start: nat, data: seq<byte>)
      returns (error: Option<ImportError>)
    requires rel.relnode != 0 && start + |PagesOf(data)| < U32_LIMIT
    modifies m, m.tline`cache
    ensures Imported(m.Value(), error) == FillAndExtend(old(m.Value()), rel, start, PagesOf(data))
  {
    var blknum := PutSegmentPages(m, rel, start, data);
    var extended := m.PutRelExtend(rel, blknum);
    error := if extended.Some? then Some(Failed(extended.value)) else None;
  }

  method ImportRel(m: DatadirModification, rel: RelTag, seg: Segment) returns (error: Option<ImportError>)
    modifies m, m.tline`cache
    ensures Imported(m.Value(), error) == ImportSegment(old(m.Value()), rel, seg)
  {
    if |seg.data| % BLCKSZ != 0 { return Some(BadLength); }
    var nblocks, start := |seg.data| / BLCKSZ, seg.segno * RELSEG_SIZE;
    assert nblocks == |PagesOf(seg.data)|;
    if start + nblocks >= U32_LIMIT { return Some(Overflow); }
    var created := CreateOrKeep(m, rel, nblocks);
    if created.Some? { return Some(Failed(created.value)); }
    error := PutAndExtend(m, rel, start, seg.data);
  }

  // --- export and import

  /** Every page that can be read has BLCKSZ bytes. */
  ghost predicate ReadsWholePages(read: nat -> Option<Page>) {
    forall b :: read(b).Some? ==> |read(b).value| == BLCKSZ
  }

  lemma WholeWhenRead(read: nat -> Option<Page>, n: nat)
    requires ReadsWholePages(read) && AllRead(read, 0, n)
    ensures WholePages(PagesRead(read, n))
  {
  }

  lemma NextImports(s: State, rel: RelTag, pages: seq<Page>, segs: seq<Segment>, i: nat)
    requires HasSize(s, rel, None) && WholePages(pages) && Fits(|pages|) && SegmentsOf(pages, segs) && i < |segs|
    ensures ImportAll(s, rel, segs[..i + 1]) == ImportSegment(ImportAll(s, rel, segs[..i]).state, rel, segs[i])
    ensures ImportAll(s, rel, segs[..i + 1]).error.None?
  {
    PrefixImports(s, rel, pages, segs, i);
    PrefixImports(s, rel, pages, segs, i + 1);
    ImportOneMore(s, rel, segs[..i], segs[i]);
    OneMoreSegment(segs, i);
  }

  lemma PrefixImports(s: State, rel: RelTag, pages: seq<Page>, segs: seq<Segment>, i: nat)
    requires HasSize(s, rel, None) && WholePages(pages) && Fits(|pages|) && SegmentsOf(pages, segs) && i <= |segs|
    ensures ImportAll(s, rel, segs[..i]).error.None?
  {
    ProgressStart(s, rel, pages);
    ImportAllEffect(s, rel, pages, segs[..i]);
  }

  lemma OneMoreSegment(segs: seq<Segment>, i: nat)
    requires i < |segs|
    ensures segs[..i + 1] == segs[..i] + [segs[i]]
  {
  }

  /** The segment files of a relation, imported one by one. */
  method ImportSegments(m: DatadirModification, rel: RelTag, segs: seq<Segment>, ghost pages: seq<Page>)
    requires HasSize(m.Value(), rel, None) && WholePages(pages) && Fits(|pages|) && SegmentsOf(pages, segs)
    modifies m, m.tline`cache
    ensures ImportAll(old(m.Value()), rel, segs) == Imported(m.Value(), None)
  {
    ghost var s := m.Value();
    for i := 0 to |segs|
      invariant ImportAll(s, rel, segs[..i]) == Imported(m.Value(), None)
    {
      NextImports(s, rel, pages, segs, i);
      var _ := ImportRel(m, rel, segs[i]);
    }
    assert segs[..|segs|] == segs;
  }

  /** A relation taken from one timeline to another: whenever the export succeeds, the import does, and the
      relation is there as it was read. */
  method CopyRel(size: Option<u32>, read: nat -> Option<Page>, m: DatadirModification, rel: RelTag)
      returns (result: Export)
    requires ReadsWholePages(read) && HasSize(m.Value(), rel, None)
    modifies m, m.tline`cache
    ensures result.Exported? ==>
              && size.Some? && AllRead(read, 0, size.value)
              && Restored(old(m.Value()), m.Value(), rel, PagesRead(read, size.value))
    ensures !result.Exported? ==> m.Value() == old(m.Value())
  {
    result := AddRel(size, read);
    if result.Exported? {
      WholeWhenRead(read, size.value);
      ghost var s, pages := m.Value(), PagesRead(read, size.value);
      ImportSegments(m, rel, result.segments, pages);
      ExportIsWhole(pages, result.segments);
      RoundTrip(s, rel, pages, result.segments);
    }
  }
}
