/**
  Virtual file descriptors as a step machine. An agent is one call: open_with_options, with_file (on
  behalf of read, write or seek), or the drop of a VirtualFile. Slot locks and handle locks are part
  of the state; what one agent does to a slot while it holds the slot's write lock is one step.
*/
module VirtualFileMachine {
  import opened Options

  type Agent = nat
  type FileId = nat
  type Path = nat
  type Content = seq<int>

  const U64_MAX: int := 0xffff_ffff_ffff_ffff

  /** A slot index and the tag the slot had when the handle was issued. */
  datatype Handle = Handle(index: nat, tag: nat)

  /** `file` is the physical file open in the slot, known by its path. `owner` is a history variable:
      the VirtualFile the current tag was issued for. */
  datatype Slot = Slot(
    tag: nat, file: Option<Path>, owner: Option<FileId>, writer: Option<Agent>, readers: set<Agent>)

  datatype VFile = VFile(path: Path, handle: Handle, locked: Option<Agent>, pos: nat)

  /** What the closure given to with_file does; `n` is how much the system call managed to do. */
  datatype Op =
    | ReadAt(offset: nat, n: nat)
    | WriteAt(offset: nat, data: Content, n: nat)
    | Read(n: nat)
    | Write(data: Content, n: nat)
    | SeekEnd(delta: int)
    | OtherUse

  /** The agent's position; GotSlot, Opened, Ran and Stored hold the slot's write lock and, like
      NeedSlot and Unslotted, the handle lock of the VirtualFile. `Opened` and `Ran` have a physical
      file that is in no slot yet. */
  datatype Pc =
    | Idle
    | HaveHandle(v: FileId, op: Op, h: Handle)
    | InSlot(v: FileId, op: Op, slot: nat, ran: bool)
    | Stale(v: FileId, op: Op, h: Handle)
    | NeedSlot(v: FileId, op: Op)
    | GotSlot(v: FileId, op: Op, slot: nat)
    | Opened(v: FileId, op: Op, slot: nat, file: Path)
    | Ran(v: FileId, slot: nat, file: Path)
    | Stored(v: FileId, slot: nat)
    | Unslotted(v: FileId, done: bool)
    | Creating(path: Path, slot: nat)
    | Dropping(v: FileId, h: Handle)

  predicate HoldsSlot(pc: Pc) {
    pc.GotSlot? || pc.Opened? || pc.Ran? || pc.Stored? || pc.Creating?
  }

  predicate HoldsHandle(pc: Pc) {
    pc.NeedSlot? || pc.GotSlot? || pc.Opened? || pc.Ran? || pc.Stored? || pc.Unslotted?
  }

  /** The agent works on an existing VirtualFile. */
  predicate Uses(pc: Pc, v: FileId) {
    !pc.Idle? && !pc.Creating? && !pc.Dropping? && pc.v == v
  }

  /** `open` are the physical descriptors that are open, named by the slot and tag they were opened
      for. `paths` remembers the path of every VirtualFile there ever was. */
  datatype State = State(
    slots: seq<Slot>, vfiles: map<FileId, VFile>, pcs: map<Agent, Pc>,
    open: set<Handle>, files: map<Path, Content>, paths: map<FileId, Path>)

  datatype Action =
    | Start(v: FileId, op: Op)
    | Check
    | Run
    | ReleaseRead
    | LockHandle
    | Take(slot: nat)
    | OpenFile(ok: bool)
    | Store
    | ReleaseSlot
    | ReleaseHandle
    | Create(path: Path, slot: nat)
    | FinishCreate(v: FileId, ok: bool, truncate: bool)
    | SeekStart(v: FileId, offset: nat)
    | SeekCurrent(v: FileId, delta: int)
    | Drop(v: FileId)
    | CloseDropped

  datatype Outcome = Disabled | Panic | Next(state: State)

  function PcOf(s: State, t: Agent): Pc {
    if t in s.pcs then s.pcs[t] else Idle
  }

  function ContentOf(files: map<Path, Content>, p: Path): Content {
    if p in files then files[p] else []
  }

  function Init(n: nat, files: map<Path, Content>): State {
    State(seq(n, _ => Slot(0, None, None, None, {})), map[], map[], {}, files, map[])
  }

  // --- physical operations

  /** pwrite; a gap is filled with zeros. */
  function Written(c: Content, offset: nat, data: Content): Content {
    var padded := if offset <= |c| then c else c + seq(offset - |c|, _ => 0);
    padded[..offset] + data + if offset + |data| <= |padded| then padded[offset + |data|..] else []
  }

  /** The closure fits the file: no more is read than is there, no more written than given. */
  predicate Feasible(op: Op, c: Content, pos: nat) {
    match op
    case ReadAt(offset, n) => n == 0 || offset + n <= |c|
    case WriteAt(_, data, n) => n <= |data|
    case Read(n) => n == 0 || pos + n <= |c|
    case Write(data, n) => n <= |data|
    case SeekEnd(offset) => |c| + offset >= 0
    case OtherUse => true
  }

  function NewContent(op: Op, c: Content, pos: nat): Content
    requires Feasible(op, c, pos)
  {
    match op
    case WriteAt(offset, data, n) => Written(c, offset, data[..n])
    case Write(data, n) => Written(c, pos, data[..n])
    case _ => c
  }

  function NewPos(op: Op, c: Content, pos: nat): nat
    requires Feasible(op, c, pos)
  {
    match op
    case Read(n) => pos + n
    case Write(_, n) => pos + n
    case SeekEnd(offset) => |c| + offset
    case _ => pos
  }

  // --- steps

  function SetSlot(s: State, t: Agent, pc: Pc, i: nat, slot: Slot): State
    requires i < |s.slots|
  {
    s.(slots := s.slots[i := slot], pcs := s.pcs[t := pc])
  }

  /** with_file on the way to its slot: compare the tag under the read lock. */
  function CheckStep(s: State, t: Agent): Outcome
    requires PcOf(s, t).HaveHandle?
  {
    var pc := PcOf(s, t);
    var i := pc.h.index;
    if i >= |s.slots| then Panic
    else if s.slots[i].writer.Some? then Disabled
    else if s.slots[i].tag == pc.h.tag && s.slots[i].file.Some? then
      Next(SetSlot(s, t, InSlot(pc.v, pc.op, i, false), i, s.slots[i].(readers := s.slots[i].readers + {t})))
    else Next(s.(pcs := s.pcs[t := Stale(pc.v, pc.op, pc.h)]))
  }

  /** Run the closure on physical file `p`. */
  function RunOn(s: State, t: Agent, pc: Pc, v: FileId, op: Op, p: Path): Outcome {
    if v !in s.vfiles then Panic
    else
      var c, pos := ContentOf(s.files, p), s.vfiles[v].pos;
      if !Feasible(op, c, pos) then Disabled
      else
        Next(s.(files := s.files[p := NewContent(op, c, pos)],
                vfiles := s.vfiles[v := s.vfiles[v].(pos := NewPos(op, c, pos))],
                pcs := s.pcs[t := pc]))
  }

  function RunStep(s: State, t: Agent): Outcome {
    var pc := PcOf(s, t);
    if pc.InSlot? && !pc.ran then
      if pc.slot >= |s.slots| || s.slots[pc.slot].file.None? then Panic
      else RunOn(s, t, InSlot(pc.v, pc.op, pc.slot, true), pc.v, pc.op, s.slots[pc.slot].file.value)
    else if pc.Opened? then RunOn(s, t, Ran(pc.v, pc.slot, pc.file), pc.v, pc.op, pc.file)
    else Disabled
  }

  function ReleaseReadStep(s: State, t: Agent): Outcome {
    var pc := PcOf(s, t);
    if !pc.InSlot? || !pc.ran then Disabled
    else if pc.slot >= |s.slots| then Panic
    else Next(SetSlot(s, t, Idle, pc.slot, s.slots[pc.slot].(readers := s.slots[pc.slot].readers - {t})))
  }

  function LockHandleStep(s: State, t: Agent): Outcome {
    var pc := PcOf(s, t);
    if !pc.Stale? then Disabled
    else if pc.v !in s.vfiles then Panic
    else
      var f := s.vfiles[pc.v];
      if f.locked.Some? then Disabled
      else if f.handle != pc.h then Next(s.(pcs := s.pcs[t := HaveHandle(pc.v, pc.op, f.handle)]))
      else Next(s.(vfiles := s.vfiles[pc.v := f.(locked := Some(t))], pcs := s.pcs[t := NeedSlot(pc.v, pc.op)]))
  }

  /** find_victim_slot: lock a slot, close the file in it, give it a new tag. */
  function TakeSlot(s: State, t: Agent, pc: Pc, i: nat, owner: Option<FileId>): Outcome {
    if i >= |s.slots| || s.slots[i].writer.Some? || s.slots[i].readers != {} then Disabled
    else
      var slot := s.slots[i];
      Next(SetSlot(s, t, pc, i, Slot(slot.tag + 1, None, owner, Some(t), {})).(
           open := s.open - {Handle(i, slot.tag)}))
  }

  function OpenFileStep(s: State, t: Agent, ok: bool): Outcome {
    var pc := PcOf(s, t);
    if !pc.GotSlot? then Disabled
    else if pc.slot >= |s.slots| || pc.v !in s.vfiles then Panic
    else if ok then
      Next(s.(open := s.open + {Handle(pc.slot, s.slots[pc.slot].tag)},
              pcs := s.pcs[t := Opened(pc.v, pc.op, pc.slot, s.vfiles[pc.v].path)]))
    else
      Next(SetSlot(s, t, Unslotted(pc.v, false), pc.slot, s.slots[pc.slot].(writer := None)))
  }

  /** Put the file into the slot and the new handle into the VirtualFile. */
  function StoreStep(s: State, t: Agent): Outcome {
    var pc := PcOf(s, t);
    if !pc.Ran? then Disabled
    else if pc.slot >= |s.slots| || pc.v !in s.vfiles then Panic
    else
      var slot := s.slots[pc.slot];
      Next(SetSlot(s, t, Stored(pc.v, pc.slot), pc.slot, slot.(file := Some(pc.file))).(
           vfiles := s.vfiles[pc.v := s.vfiles[pc.v].(handle := Handle(pc.slot, slot.tag))]))
  }

  function ReleaseSlotStep(s: State, t: Agent): Outcome {
    var pc := PcOf(s, t);
    if !pc.Stored? then Disabled
    else if pc.slot >= |s.slots| then Panic
    else Next(SetSlot(s, t, Unslotted(pc.v, true), pc.slot, s.slots[pc.slot].(writer := None)))
  }

  function ReleaseHandleStep(s: State, t: Agent): Outcome {
    var pc := PcOf(s, t);
    if !pc.Unslotted? then Disabled
    else if pc.v !in s.vfiles then Panic
    else Next(s.(vfiles := s.vfiles[pc.v := s.vfiles[pc.v].(locked := None)], pcs := s.pcs[t := Idle]))
  }

  /** The end of open_with_options: a new VirtualFile v. Only this first open may create or truncate
      the file. */
  function FinishCreateStep(s: State, t: Agent, v: FileId, ok: bool, truncate: bool): Outcome {
    var pc := PcOf(s, t);
    if !pc.Creating? || v in s.paths then Disabled
    else if pc.slot >= |s.slots| then Panic
    else
      var slot := s.slots[pc.slot];
      if !ok then Next(SetSlot(s, t, Idle, pc.slot, slot.(writer := None)))
      else
        Next(SetSlot(s, t, Idle, pc.slot, slot.(file := Some(pc.path), owner := Some(v), writer := None)).(
             vfiles := s.vfiles[v := VFile(pc.path, Handle(pc.slot, slot.tag), None, 0)],
             open := s.open + {Handle(pc.slot, slot.tag)},
             paths := s.paths[v := pc.path],
             files := if truncate then s.files[pc.path := []] else s.files))
  }

  /** Drop: close the file if the slot still has our tag. */
  function CloseDroppedStep(s: State, t: Agent): Outcome {
    var pc := PcOf(s, t);
    if !pc.Dropping? then Disabled
    else if pc.h.index >= |s.slots| then Panic
    else
      var slot := s.slots[pc.h.index];
      if slot.writer.Some? || slot.readers != {} then Disabled
      else if slot.tag != pc.h.tag then Next(s.(pcs := s.pcs[t := Idle]))
      else Next(SetSlot(s, t, Idle, pc.h.index, slot.(file := None)).(open := s.open - {pc.h}))
  }

  /** Nobody uses the VirtualFile. */
  ghost predicate Alone(s: State, v: FileId) {
    forall u: Agent :: !Uses(PcOf(s, u), v)
  }

  /** One step of agent t. A VirtualFile is dropped, and its position moved, only while no
      agent uses it: the source asks for a mutable reference. */
  ghost function Step(s: State, t: Agent, a: Action): Outcome {
    var pc := PcOf(s, t);
    match a
    case Start(v, op) =>
      if !pc.Idle? || v !in s.vfiles || s.vfiles[v].locked.Some? then Disabled
      else Next(s.(pcs := s.pcs[t := HaveHandle(v, op, s.vfiles[v].handle)]))
    case Check => if pc.HaveHandle? then CheckStep(s, t) else Disabled
    case Run => RunStep(s, t)
    case ReleaseRead => ReleaseReadStep(s, t)
    case LockHandle => LockHandleStep(s, t)
    case Take(i) => if pc.NeedSlot? then TakeSlot(s, t, GotSlot(pc.v, pc.op, i), i, Some(pc.v)) else Disabled
    case OpenFile(ok) => OpenFileStep(s, t, ok)
    case Store => StoreStep(s, t)
    case ReleaseSlot => ReleaseSlotStep(s, t)
    case ReleaseHandle => ReleaseHandleStep(s, t)
    case Create(path, i) => if pc.Idle? then TakeSlot(s, t, Creating(path, i), i, None) else Disabled
    case FinishCreate(v, ok, truncate) => FinishCreateStep(s, t, v, ok, truncate)
    case SeekStart(v, offset) =>
      if pc.Idle? && v in s.vfiles && Alone(s, v) && offset <= U64_MAX
      then Next(s.(vfiles := s.vfiles[v := s.vfiles[v].(pos := offset)], pcs := s.pcs[t := Idle])) else Disabled
    case SeekCurrent(v, offset) =>
      if !pc.Idle? || v !in s.vfiles || !Alone(s, v) then Disabled
      else if s.vfiles[v].pos + offset < 0 || s.vfiles[v].pos + offset > U64_MAX then Next(s)
      else Next(s.(vfiles := s.vfiles[v := s.vfiles[v].(pos := s.vfiles[v].pos + offset)], pcs := s.pcs[t := Idle]))
    case Drop(v) =>
      if !pc.Idle? || v !in s.vfiles || !Alone(s, v) then Disabled
      else Next(s.(vfiles := s.vfiles - {v}, pcs := s.pcs[t := Dropping(v, s.vfiles[v].handle)]))
    case CloseDropped => CloseDroppedStep(s, t)
  }

  datatype Event = Event(agent: Agent, action: Action)

  ghost function Execute(s: State, events: seq<Event>): Outcome {
    if events == [] then Next(s)
    else
      match Execute(s, events[..|events| - 1])
      case Next(s1) => Step(s1, events[|events| - 1].agent, events[|events| - 1].action)
      case o => o
  }
}
