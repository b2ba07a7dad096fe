/** How relations, SLRUs and the other files of a cluster are laid out in the key space. */
module KeyLayout {
  import opened Options
  import opened Keys

  datatype RelTag = RelTag(spcnode: u32, dbnode: u32, relnode: u32, forknum: u8)

  datatype SlruKind = Clog | MultiXactMembers | MultiXactOffsets

  const FSM_FORKNUM: u8 := 1
  const VISIBILITYMAP_FORKNUM: u8 := 2
  const SIZE_BLOCK: u32 := 0xffff_ffff

  function SlruNumber(kind: SlruKind): u32 {
    match kind
    case Clog => 0
    case MultiXactMembers => 1
    case MultiXactOffsets => 2
  }

  // --- keys

  const DBDIR_KEY := Key(0, 0, 0, 0, 0, 0)
  const TWOPHASEDIR_KEY := Key(2, 0, 0, 0, 0, 0)
  const CONTROLFILE_KEY := Key(3, 0, 0, 0, 0, 0)
  const CHECKPOINT_KEY := Key(3, 0, 0, 0, 0, 1)

  function RelmapFileKey(spcnode: u32, dbnode: u32): Key { Key(0, spcnode, dbnode, 0, 0, 0) }

  function RelDirToKey(spcnode: u32, dbnode: u32): Key { Key(0, spcnode, dbnode, 0, 0, 1) }

  function RelBlockToKey(rel: RelTag, blknum: u32): Key {
    Key(0, rel.spcnode, rel.dbnode, rel.relnode, rel.forknum, blknum)
  }

  function RelSizeToKey(rel: RelTag): Key { RelBlockToKey(rel, SIZE_BLOCK) }

  function SlruDirToKey(kind: SlruKind): Key { Key(1, SlruNumber(kind), 0, 0, 0, 0) }

  function SlruBlockToKey(kind: SlruKind, segno: u32, blknum: u32): Key {
    Key(1, SlruNumber(kind), 1, segno, 0, blknum)
  }

  function SlruSegmentSizeToKey(kind: SlruKind, segno: u32): Key { SlruBlockToKey(kind, segno, SIZE_BLOCK) }

  function TwophaseFileKey(xid: u32): Key { Key(2, 0, 0, 0, 0, xid) }

  // --- reverse maps and tests

  function KeyToRelBlock(key: Key): Option<(RelTag, u32)> {
    if key.field1 == 0 then Some((RelTag(key.field2, key.field3, key.field4, key.field5), key.field6)) else None
  }

  function KeyToSlruBlock(key: Key): Option<(SlruKind, u32, u32)> {
    if key.field1 != 1 then None
    else if key.field2 == 0 then Some((Clog, key.field4, key.field6))
    else if key.field2 == 1 then Some((MultiXactMembers, key.field4, key.field6))
    else if key.field2 == 2 then Some((MultiXactOffsets, key.field4, key.field6))
    else None
  }

  /** Matches the size key of a relation as well as its blocks. */
  predicate IsRelBlockKey(key: Key) { key.field1 == 0 && key.field4 != 0 }

  predicate IsSlruBlockKey(key: Key) { key.field1 == 1 && key.field3 == 1 && key.field6 != SIZE_BLOCK }

  // --- everything that has a key

  datatype Item =
    | DbDir
    | RelmapFile(spcnode: u32, dbnode: u32)
    | RelDir(spcnode: u32, dbnode: u32)
    | RelBlock(rel: RelTag, blknum: u32)
    | RelSize(rel: RelTag)
    | SlruDir(kind: SlruKind)
    | SlruBlock(kind: SlruKind, segno: u32, blknum: u32)
    | SlruSize(kind: SlruKind, segno: u32)
    | TwophaseDir
    | TwophaseFile(xid: u32)
    | ControlFile
    | Checkpoint

  function ItemKey(item: Item): Key {
    match item
    case DbDir => DBDIR_KEY
    case RelmapFile(spcnode, dbnode) => RelmapFileKey(spcnode, dbnode)
    case RelDir(spcnode, dbnode) => RelDirToKey(spcnode, dbnode)
    case RelBlock(rel, blknum) => RelBlockToKey(rel, blknum)
    case RelSize(rel) => RelSizeToKey(rel)
    case SlruDir(kind) => SlruDirToKey(kind)
    case SlruBlock(kind, segno, blknum) => SlruBlockToKey(kind, segno, blknum)
    case SlruSize(kind, segno) => SlruSegmentSizeToKey(kind, segno)
    case TwophaseDir => TWOPHASEDIR_KEY
    case TwophaseFile(xid) => TwophaseFileKey(xid)
    case ControlFile => CONTROLFILE_KEY
    case Checkpoint => CHECKPOINT_KEY
  }

  /** What Postgres never uses: tablespace 0, relfilenode 0, transaction 0, the last block number. */
  predicate Proper(item: Item) {
    match item
    case RelmapFile(spcnode, _) => spcnode != 0
    case RelDir(spcnode, _) => spcnode != 0
    case RelBlock(rel, blknum) => rel.relnode != 0 && rel.spcnode != 0 && blknum != SIZE_BLOCK
    case RelSize(rel) => rel.relnode != 0 && rel.spcnode != 0
    case SlruBlock(_, _, blknum) => blknum != SIZE_BLOCK
    case TwophaseFile(xid) => xid != 0
    case _ => true
  }

  /** The item a key stands for, if any. */
  function KeyItem(key: Key): Option<Item> {
    if key == DBDIR_KEY then Some(DbDir)
    else if key.field1 == 0 then
      var rel := RelTag(key.field2, key.field3, key.field4, key.field5);
      if key.field4 == 0 then
        if key.field5 != 0 || key.field6 > 1 then None
        else if key.field6 == 0 then Some(RelmapFile(key.field2, key.field3))
        else Some(RelDir(key.field2, key.field3))
      else if key.field6 == SIZE_BLOCK then Some(RelSize(rel)) else Some(RelBlock(rel, key.field6))
    else if key.field1 == 1 then
      var block := KeyToSlruBlock(key);
      if block.None? || key.field5 != 0 || key.field3 > 1 then None
      else if key.field3 == 0 then (if key.field4 == 0 && key.field6 == 0 then Some(SlruDir(block.value.0)) else None)
      else if key.field6 == SIZE_BLOCK then Some(SlruSize(block.value.0, key.field4))
      else Some(SlruBlock(block.value.0, key.field4, key.field6))
    else if key == TWOPHASEDIR_KEY then Some(TwophaseDir)
    else if key == CONTROLFILE_KEY then Some(ControlFile)
    else if key == CHECKPOINT_KEY then Some(Checkpoint)
    else if key == TwophaseFileKey(key.field6) then Some(TwophaseFile(key.field6))
    else None
  }

  /** Every item can be read back from its key, so no two share one. */
  lemma ItemRoundTrip(item: Item)
    requires Proper(item)
    ensures KeyItem(ItemKey(item)) == Some(item)
  {
    match item
    case SlruBlock(kind, segno, blknum) => SlruRoundTrip(kind, segno, blknum);
    case SlruSize(kind, segno) => SlruRoundTrip(kind, segno, SIZE_BLOCK);
    case _ =>
  }

  lemma SlruRoundTrip(kind: SlruKind, segno: u32, blknum: u32)
    ensures KeyToSlruBlock(SlruBlockToKey(kind, segno, blknum)) == Some((kind, segno, blknum))
  {
  }

  lemma KeysNeverCollide(a: Item, b: Item)
    requires Proper(a) && Proper(b) && ItemKey(a) == ItemKey(b)
    ensures a == b
  {
    ItemRoundTrip(a);
    ItemRoundTrip(b);
  }

  lemma RelRoundTrip(rel: RelTag, blknum: u32, key: Key)
    ensures KeyToRelBlock(RelBlockToKey(rel, blknum)) == Some((rel, blknum))
    ensures KeyToRelBlock(key).Some? ==> RelBlockToKey(KeyToRelBlock(key).value.0, KeyToRelBlock(key).value.1) == key
  {
  }

  // --- ranges to delete

  function DbdirKeyRange(spcnode: u32, dbnode: u32): Range {
    Range(Key(0, spcnode, dbnode, 0, 0, 0), Key(0, spcnode, dbnode, 0xffff_ffff, 0xff, 0xffff_ffff))
  }

  /** forknum + 1 must not overflow; the source would panic. */
  function RelKeyRange(rel: RelTag): Range
    requires rel.forknum < 0xff
  {
    Range(RelBlockToKey(rel, 0), RelBlockToKey(rel.(forknum := rel.forknum + 1), 0))
  }

  function SlruSegmentKeyRange(kind: SlruKind, segno: u32): Range {
    Range(SlruBlockToKey(kind, segno, 0), Key(1, SlruNumber(kind), 1, segno, 1, 0))
  }

  function TwophaseKeyRange(xid: u32): Range {
    Range(TwophaseFileKey(xid),
          if xid == 0xffff_ffff then Key(2, 0, 0, 0, 1, 0) else TwophaseFileKey(xid + 1))
  }

  /** Deleting a relation fork takes its blocks and its size, and nothing else. */
  lemma RelRangeIsExact(rel: RelTag, k: Key)
    requires rel.forknum < 0xff
    ensures KeyIn(RelKeyRange(rel), k) <==> k == RelBlockToKey(rel, k.field6)
  {
  }

  lemma SlruRangeIsExact(kind: SlruKind, segno: u32, k: Key)
    ensures KeyIn(SlruSegmentKeyRange(kind, segno), k) <==> k == SlruBlockToKey(kind, segno, k.field6)
  {
  }

  lemma TwophaseRangeIsExact(xid: u32, k: Key)
    ensures KeyIn(TwophaseKeyRange(xid), k) <==> k == TwophaseFileKey(xid)
  {
  }

  predicate BelongsToDb(item: Item, spcnode: u32, dbnode: u32) {
    match item
    case RelmapFile(s, d) => s == spcnode && d == dbnode
    case RelDir(s, d) => s == spcnode && d == dbnode
    case RelBlock(rel, _) => rel.spcnode == spcnode && rel.dbnode == dbnode
    case RelSize(rel) => rel.spcnode == spcnode && rel.dbnode == dbnode
    case _ => false
  }

  /** Dropping a database takes exactly its items. The end of the range is a key, and stays: the size of
      fork 255 of relation 0xffffffff. Tablespace 0, which Postgres never uses, would take the list of
      databases along. */
  lemma DbdirRangeIsExact(spcnode: u32, dbnode: u32, item: Item)
    ensures KeyIn(DbdirKeyRange(spcnode, dbnode), ItemKey(item)) <==>
            (BelongsToDb(item, spcnode, dbnode) || (item.DbDir? && (spcnode, dbnode) == (0, 0)))
            && ItemKey(item) != RelSizeToKey(RelTag(spcnode, dbnode, 0xffff_ffff, 0xff))
  {
  }
}
