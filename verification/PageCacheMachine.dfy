/** What the page cache stores: keys, pages, and the page size. */
module PageCacheTypes {
  import opened Keys

  const PAGE_SZ: int := 8192

  newtype byte = x: int | 0 <= x < 256
  type Page = seq<byte>
  type Lsn = nat

  datatype HashKey = HashKey(tenantId: nat, timelineId: nat, key: Key)

  datatype CacheKey =
    | MaterializedPage(hashKey: HashKey, lsn: Lsn)
    | EphemeralPage(fileId: nat, blkno: nat)
    | ImmutableFilePage(fileId: nat, blkno: nat)

  datatype Kind = Materialized | Ephemeral | Immutable

  function KindOf(k: CacheKey): Kind {
    match k
    case MaterializedPage(_, _) => Materialized
    case EphemeralPage(_, _) => Ephemeral
    case ImmutableFilePage(_, _) => Immutable
  }

  /** The key that an inexact search for `req` must find: for a materialized page the newest
      cached version not newer than the request, for the other kinds the key itself. */
  ghost predicate IsBestMatch(mapping: map<CacheKey, nat>, req: CacheKey, k: CacheKey) {
    && k in mapping
    && match req
       case MaterializedPage(h, lsn) =>
         && k.MaterializedPage? && k.hashKey == h && k.lsn <= lsn
         && forall l: Lsn :: l <= lsn && MaterializedPage(h, l) in mapping ==> l <= k.lsn
       case _ => k == req
  }

  ghost function KeysOfKind(m: map<CacheKey, nat>, kind: Kind): set<CacheKey> {
    set k | k in m && KindOf(k) == kind
  }

  lemma CountAfterInsert(m: map<CacheKey, nat>, k: CacheKey, i: nat, kind: Kind)
    requires k !in m
    ensures |KeysOfKind(m[k := i], kind)| == |KeysOfKind(m, kind)| + (if KindOf(k) == kind then 1 else 0)
  {
    if KindOf(k) == kind {
      assert KeysOfKind(m[k := i], kind) == KeysOfKind(m, kind) + {k};
    } else {
      assert KeysOfKind(m[k := i], kind) == KeysOfKind(m, kind);
    }
  }

  lemma CountAfterRemove(m: map<CacheKey, nat>, k: CacheKey, kind: Kind)
    requires k in m
    ensures |KeysOfKind(m - {k}, kind)| == |KeysOfKind(m, kind)| - (if KindOf(k) == kind then 1 else 0)
  {
    if KindOf(k) == kind {
      assert KeysOfKind(m - {k}, kind) == KeysOfKind(m, kind) - {k};
    } else {
      assert KeysOfKind(m - {k}, kind) == KeysOfKind(m, kind);
    }
  }
}

/**
  The page cache as a step machine. An agent is one call of the cache's interface together with
  the guard it returns (a thread that holds two guards is two agents). Every section under a
  mapping lock is one atomic step; slot locks are part of the state. `find_victim` may try any
  slot, which includes every choice the clock arm can make.
*/
module PageCacheMachine {
  import opened Options
  import opened PageCacheTypes

  type Agent = nat

  /** lookup_materialized_page, lock_for_read and lock_for_write. */
  datatype Mode = Lookup | Read | Write

  /** Where an agent stands. All constructors with a `slot`, except Found and Reading, hold the
      slot's write lock; Reading holds its read lock. */
  datatype Pc =
    | Idle
    | Search(req: CacheKey, mode: Mode)
    | Found(req: CacheKey, mode: Mode, key: CacheKey, slot: nat)
    | Reading(key: CacheKey, slot: nat)
    | NeedVictim(req: CacheKey, mode: Mode)
    | Victim(req: CacheKey, mode: Mode, slot: nat)
    | WrittenBack(req: CacheKey, mode: Mode, slot: nat)
    | Unmapped(req: CacheKey, mode: Mode, slot: nat)
    | Empty(req: CacheKey, mode: Mode, slot: nat)
    | Inserted(req: CacheKey, mode: Mode, slot: nat)
    | Guard(key: CacheKey, slot: nat, valid: bool, touched: bool)
    | Abandoned(key: CacheKey, slot: nat)
    | Scan(kind: Kind, fileId: nat, next: nat)
    | ScanHeld(kind: Kind, fileId: nat, slot: nat)
    | ScanUnmapped(kind: Kind, fileId: nat, slot: nat)

  predicate HoldsWrite(pc: Pc) {
    pc.Victim? || pc.WrittenBack? || pc.Unmapped? || pc.Empty? || pc.Inserted? || pc.Guard? ||
    pc.Abandoned? || pc.ScanHeld? || pc.ScanUnmapped?
  }

  /** `filled` is a history variable: mark_valid was called since the slot got its key. */
  datatype Slot = Slot(
    key: Option<CacheKey>, buf: Page, dirty: bool, filled: bool,
    writer: Option<Agent>, readers: set<Agent>)

  /** `disk` is what lies below the cache for each key: the ephemeral file's block, the immutable
      file's block, or the image WAL replay gives. `contents` is what the callers have stored, the
      specification variable the cache must be transparent to. `dropped` are the ephemeral files
      whose buffers were dropped without writeback. */
  datatype State = State(
    slots: seq<Slot>, mapping: map<CacheKey, nat>, gauges: map<Kind, int>,
    pcs: map<Agent, Pc>, disk: map<CacheKey, Page>, contents: map<CacheKey, Page>,
    dropped: set<nat>)

  datatype Action =
    | Request(req: CacheKey, mode: Mode)
    | SearchHit(key: CacheKey)
    | SearchMiss
    | LockFound
    | ReleaseRead
    | TryVictim(slot: nat)
    | GiveUp
    | WriteBack(ok: bool, junk: Page)
    | Unmap
    | ClearVictim
    | InsertMapping
    | Install
    | WriteBuf(data: Page)
    | MarkValid
    | MarkDirty
    | CompareImage
    | ReleaseGuard
    | AbandonGuard
    | StartDrop(kind: Kind, fileId: nat)
    | ScanNext

  /** A step that is not enabled, a panic of the source, or the next state. */
  datatype Outcome = Disabled | Panic | Next(state: State)

  /** What a step at one slot does: to the slot, to the agent, to the mapping, to one page. */
  datatype MapOp = Keep | Add(key: CacheKey) | Remove(key: CacheKey)
  datatype PageOp = NoPage | ToDisk(key: CacheKey, page: Page) | ToContents(key: CacheKey, page: Page)
  datatype Effect = Blocked | Crash | Do(pc: Pc, slot: Slot, map': MapOp, page': PageOp)

  function PcOf(s: State, t: Agent): Pc {
    if t in s.pcs then s.pcs[t] else Idle
  }

  function PageOf(m: map<CacheKey, Page>, k: CacheKey): Page {
    if k in m then m[k] else []
  }

  function Init(n: nat, disk: map<CacheKey, Page>): State {
    State(seq(n, _ => Slot(None, [], false, false, None, {})), map[],
          map[Materialized := 0, Ephemeral := 0, Immutable := 0], map[], disk, disk, {})
  }

  function Bump(g: map<Kind, int>, k: CacheKey, delta: int): map<Kind, int> {
    g[KindOf(k) := (if KindOf(k) in g then g[KindOf(k)] else 0) + delta]
  }

  function AfterMiss(req: CacheKey, mode: Mode): Pc {
    if mode.Lookup? then Idle else NeedVictim(req, mode)
  }

  predicate Interface(req: CacheKey, mode: Mode) {
    match mode
    case Lookup => req.MaterializedPage?
    case Read => !req.MaterializedPage?
    case Write => !req.ImmutableFilePage?
  }

  predicate BelongsTo(key: Option<CacheKey>, kind: Kind, fileId: nat) {
    key.Some? && !key.value.MaterializedPage? && KindOf(key.value) == kind && key.value.fileId == fileId
  }

  /** Taking a slot's lock: try_lock_for_read/write re-check the key once they have it, find_victim
      uses try_write, drop_buffers waits for each slot in turn. */
  function LockAt(t: Agent, pc: Pc, slot: Slot, i: nat): Effect {
    var free := slot.writer.None? && slot.readers == {};
    match pc
    case Found(req, mode, key, _) =>
      if slot.writer.Some? || (mode.Write? && slot.readers != {}) then Blocked
      else if slot.key != Some(key) then Do(AfterMiss(req, mode), slot, Keep, NoPage)
      else if mode.Write? then Do(Guard(key, i, true, false), slot.(writer := Some(t)), Keep, NoPage)
      else Do(Reading(key, i), slot.(readers := slot.readers + {t}), Keep, NoPage)
    case Reading(_, _) => Do(Idle, slot.(readers := slot.readers - {t}), Keep, NoPage)
    case NeedVictim(req, mode) =>
      if free then Do(Victim(req, mode, i), slot.(writer := Some(t)), Keep, NoPage) else Blocked
    case Scan(kind, fileId, _) =>
      if !free then Blocked
      else if BelongsTo(slot.key, kind, fileId)
      then Do(ScanHeld(kind, fileId, i), slot.(writer := Some(t)), Keep, NoPage)
      else Do(Scan(kind, fileId, i + 1), slot, Keep, NoPage)
    case _ => Blocked
  }

  /** find_victim on the slot it has locked. A failed writeback may leave anything on disk. */
  function EvictAt(pc: Pc, slot: Slot, i: nat, a: Action): Effect
    requires pc.Victim? || pc.WrittenBack? || pc.Unmapped?
  {
    match a
    case WriteBack(ok, junk) =>
      if !pc.Victim? || slot.key.None? || !slot.dirty then Blocked
      else if !slot.key.value.EphemeralPage? then
        Do(NeedVictim(pc.req, pc.mode), slot.(writer := None), Keep, NoPage)
      else if ok then
        Do(WrittenBack(pc.req, pc.mode, i), slot, Keep, ToDisk(slot.key.value, slot.buf))
      else
        Do(NeedVictim(pc.req, pc.mode), slot.(writer := None), Keep, ToDisk(slot.key.value, junk))
    case Unmap =>
      if slot.key.Some? && (pc.WrittenBack? || (pc.Victim? && !slot.dirty))
      then Do(Unmapped(pc.req, pc.mode, i), slot, Remove(slot.key.value), NoPage)
      else Blocked
    case ClearVictim =>
      if pc.Unmapped? || (pc.Victim? && slot.key.None?)
      then Do(Empty(pc.req, pc.mode, i), slot.(key := None, dirty := false), Keep, NoPage)
      else Blocked
    case _ => Blocked
  }

  /** try_insert_mapping for the emptied slot, then "make the slot ready". */
  function InsertAt(m: map<CacheKey, nat>, pc: Pc, slot: Slot, i: nat, a: Action): Effect
    requires pc.Empty? || pc.Inserted?
  {
    if pc.Empty? && a.InsertMapping? then
      if pc.req in m then Do(Search(pc.req, pc.mode), slot.(writer := None), Keep, NoPage)
      else Do(Inserted(pc.req, pc.mode, i), slot, Add(pc.req), NoPage)
    else if pc.Inserted? && a.Install? then
      Do(Guard(pc.req, i, false, false), slot.(key := Some(pc.req), dirty := false, filled := false), Keep, NoPage)
    else Blocked
  }

  /** Use and release of a PageWriteGuard. What the source leaves to its callers is a condition on
      the step: fill a missed page from disk before mark_valid, call that once, change only
      ephemeral pages, mark the changes dirty. What the source asserts is a Crash. */
  function GuardAt(disk: map<CacheKey, Page>, pc: Pc, slot: Slot, a: Action): Effect
    requires pc.Guard?
  {
    match a
    case WriteBuf(data) =>
      if !pc.valid then Do(pc, slot.(buf := data), Keep, NoPage)
      else if !pc.key.EphemeralPage? then Blocked
      else Do(pc.(touched := true), slot.(buf := data), Keep, ToContents(pc.key, data))
    case MarkValid =>
      if pc.valid || slot.buf != PageOf(disk, pc.key) then Blocked
      else if slot.key.None? then Crash
      else Do(pc.(valid := true), slot.(filled := true), Keep, NoPage)
    case MarkDirty =>
      if !pc.key.EphemeralPage? then Blocked
      else if slot.key.None? || !slot.key.value.EphemeralPage? then Crash
      else Do(pc, slot.(dirty := true), Keep, NoPage)
    case CompareImage =>
      if !pc.valid || !pc.key.MaterializedPage? then Blocked
      else if slot.buf != PageOf(disk, pc.key) then Crash
      else Do(pc, slot, Keep, NoPage)
    case ReleaseGuard =>
      if !pc.valid || (pc.touched && !slot.dirty) then Blocked
      else if slot.key.None? then Crash
      else Do(Idle, slot.(writer := None), Keep, NoPage)
    case AbandonGuard =>
      if pc.valid then Blocked
      else if slot.key.None? then Crash
      else Do(Abandoned(pc.key, pc.slot), slot, Remove(slot.key.value), NoPage)
    case _ => Blocked
  }

  /** The rest of Drop for PageWriteGuard, and drop_buffers on a slot of the file. */
  function ClearAt(pc: Pc, slot: Slot, a: Action): Effect
    requires pc.Abandoned? || pc.ScanHeld? || pc.ScanUnmapped?
  {
    if pc.Abandoned? && a.AbandonGuard? then
      Do(Idle, slot.(key := None, dirty := false, writer := None), Keep, NoPage)
    else if pc.ScanHeld? && a.ScanNext? then
      if slot.key.None? then Crash
      else Do(ScanUnmapped(pc.kind, pc.fileId, pc.slot), slot, Remove(slot.key.value), NoPage)
    else if pc.ScanUnmapped? && a.ScanNext? then
      Do(Scan(pc.kind, pc.fileId, pc.slot + 1), slot.(key := None, dirty := false, writer := None), Keep, NoPage)
    else Blocked
  }

  function EffectAt(s: State, t: Agent, slot: Slot, i: nat, a: Action): Effect {
    var pc := PcOf(s, t);
    if pc.Victim? || pc.WrittenBack? || pc.Unmapped? then EvictAt(pc, slot, i, a)
    else if pc.Empty? || pc.Inserted? then InsertAt(s.mapping, pc, slot, i, a)
    else if pc.Guard? then GuardAt(s.disk, pc, slot, a)
    else if pc.Abandoned? || pc.ScanHeld? || pc.ScanUnmapped? then ClearAt(pc, slot, a)
    else LockAt(t, pc, slot, i)
  }

  /** The slot an action of an agent at pc works on, if any. */
  function Target(pc: Pc, a: Action): Option<nat> {
    if a.TryVictim? then (if pc.NeedVictim? then Some(a.slot) else None)
    else if pc.Scan? then (if a.ScanNext? then Some(pc.next) else None)
    else if pc.Found? then (if a.LockFound? then Some(pc.slot) else None)
    else if pc.Reading? then (if a.ReleaseRead? then Some(pc.slot) else None)
    else if HoldsWrite(pc) then Some(pc.slot)
    else None
  }

  /** remove_mapping panics when the key is not mapped. */
  function Apply(s: State, t: Agent, i: nat, e: Effect): Outcome
    requires i < |s.slots|
  {
    match e
    case Blocked => Disabled
    case Crash => Panic
    case Do(pc, slot, op, page) =>
      if op.Remove? && op.key !in s.mapping then Panic
      else
        Next(State(
          s.slots[i := slot],
          match op case Keep => s.mapping case Add(k) => s.mapping[k := i] case Remove(k) => s.mapping - {k},
          match op
            case Keep => s.gauges
            case Add(k) => Bump(s.gauges, k, PAGE_SZ)
            case Remove(k) => Bump(s.gauges, k, -PAGE_SZ),
          s.pcs[t := pc],
          if page.ToDisk? then s.disk[page.key := page.page] else s.disk,
          if page.ToContents? then s.contents[page.key := page.page] else s.contents,
          s.dropped))
  }

  /** Steps that touch no slot: entering the interface, searching the mapping, giving up. */
  ghost function Move(s: State, t: Agent, a: Action): Outcome {
    var pc := PcOf(s, t);
    match a
    case Request(req, mode) =>
      if pc.Idle? && Interface(req, mode) then Next(s.(pcs := s.pcs[t := Search(req, mode)])) else Disabled
    case SearchHit(key) =>
      if pc.Search? && IsBestMatch(s.mapping, pc.req, key) && (pc.mode.Write? ==> key == pc.req)
      then Next(s.(pcs := s.pcs[t := Found(pc.req, pc.mode, key, s.mapping[key])])) else Disabled
    case SearchMiss =>
      if pc.Search? && (if pc.mode.Write? then pc.req !in s.mapping
                        else forall k :: !IsBestMatch(s.mapping, pc.req, k))
      then Next(s.(pcs := s.pcs[t := AfterMiss(pc.req, pc.mode)])) else Disabled
    case GiveUp =>
      if pc.NeedVictim? then Next(s.(pcs := s.pcs[t := Idle])) else Disabled
    case StartDrop(kind, fileId) =>
      if !pc.Idle? || kind.Materialized? then Disabled
      else
        Next(s.(pcs := s.pcs[t := Scan(kind, fileId, 0)],
                dropped := if kind.Ephemeral? then s.dropped + {fileId} else s.dropped))
    case _ => Disabled
  }

  /** One step of agent t. */
  ghost function Step(s: State, t: Agent, a: Action): Outcome {
    var pc := PcOf(s, t);
    match Target(pc, a)
    case None => Move(s, t, a)
    case Some(i) =>
      if i < |s.slots| then Apply(s, t, i, EffectAt(s, t, s.slots[i], i, a))
      else if pc.Scan? then Next(s.(pcs := s.pcs[t := Idle]))
      else if pc.NeedVictim? then Disabled
      else Panic
  }

  datatype Event = Event(agent: Agent, action: Action)

  /** The outcome of a whole interleaving. */
  ghost function Run(s: State, events: seq<Event>): Outcome {
    if events == [] then Next(s)
    else
      match Run(s, events[..|events| - 1])
      case Next(s1) => Step(s1, events[|events| - 1].agent, events[|events| - 1].action)
      case o => o
  }
}
