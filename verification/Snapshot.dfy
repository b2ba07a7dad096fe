/**
  The store at one LSN: each key has a value or not. Directory and size values appear decoded, since
  the source's encodings are read back unchanged.
*/
module Snapshots {
  import opened Options
  import opened Keys
  import opened KeyLayout

  type Page = seq<byte>
  type Db = (u32, u32)

  datatype Val =
    | DbDirectory(dbdirs: map<Db, bool>)
    | RelDirectory(rels: set<(u32, u8)>)
    | SlruSegmentDirectory(segments: set<u32>)
    | TwoPhaseDirectory(xids: set<u32>)
    | NBlocks(nblocks: u32)
    | Image(page: Page)
    | WalRecord(record: nat)

  type Snapshot = Key -> Option<Val>

  function DbDirs(get: Snapshot): Option<map<Db, bool>> {
    var v := get(DBDIR_KEY);
    if v.Some? && v.value.DbDirectory? then Some(v.value.dbdirs) else None
  }

  function RelsOf(get: Snapshot, db: Db): Option<set<(u32, u8)>> {
    var v := get(RelDirToKey(db.0, db.1));
    if v.Some? && v.value.RelDirectory? then Some(v.value.rels) else None
  }

  function SizeAt(get: Snapshot, key: Key): Option<u32> {
    var v := get(key);
    if v.Some? && v.value.NBlocks? then Some(v.value.nblocks) else None
  }

  function SegmentsOf(get: Snapshot, kind: SlruKind): Option<set<u32>> {
    var v := get(SlruDirToKey(kind));
    if v.Some? && v.value.SlruSegmentDirectory? then Some(v.value.segments) else None
  }

  function Xids(get: Snapshot): Option<set<u32>> {
    var v := get(TWOPHASEDIR_KEY);
    if v.Some? && v.value.TwoPhaseDirectory? then Some(v.value.xids) else None
  }

  function Rel(db: Db, r: (u32, u8)): RelTag {
    RelTag(db.0, db.1, r.0, r.1)
  }
}
