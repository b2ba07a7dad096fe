/** What every interleaving of virtual file operations keeps. */
module VirtualFileSafety {
  import opened Options
  import opened VirtualFileMachine

  /** A handle of v to this slot: its tag is past, or the slot was last given to v. */
  predicate HandleOk(slot: Slot, v: FileId, h: Handle) {
    h.tag <= slot.tag && (h.tag == slot.tag ==> slot.owner == Some(v))
  }

  predicate HasHandle(pc: Pc) {
    pc.HaveHandle? || pc.Stale? || pc.Dropping?
  }

  /** What the holder of a slot's write lock knows about it. */
  predicate HolderKnows(paths: map<FileId, Path>, pc: Pc, slot: Slot)
    requires HoldsSlot(pc)
  {
    && slot.owner == (if pc.Creating? then None else Some(pc.v))
    && (pc.Stored? || slot.file.None?)
    && ((pc.Opened? || pc.Ran?) ==> pc.v in paths && pc.file == paths[pc.v])
  }

  /** What agent t knows about slot i, if that is the slot it works on. */
  predicate Knows(paths: map<FileId, Path>, t: Agent, pc: Pc, i: nat, slot: Slot) {
    && (HoldsSlot(pc) && pc.slot == i ==> slot.writer == Some(t) && HolderKnows(paths, pc, slot))
    && (pc.InSlot? && pc.slot == i ==> t in slot.readers && slot.owner == Some(pc.v) && slot.file.Some?)
    && (HasHandle(pc) && pc.h.index == i ==> HandleOk(slot, pc.v, pc.h))
    && (slot.writer == Some(t) ==> HoldsSlot(pc) && pc.slot == i)
    && (t in slot.readers ==> pc.InSlot? && pc.slot == i)
  }

  /** What agent t knows about VirtualFile v. */
  predicate KnowsFile(t: Agent, pc: Pc, v: FileId, f: Option<VFile>) {
    && (Uses(pc, v) ==> f.Some?)
    && (HoldsHandle(pc) && pc.v == v ==> f.Some? && f.value.locked == Some(t))
    && (f.Some? && f.value.locked == Some(t) ==> HoldsHandle(pc) && pc.v == v)
  }

  /** A file in a slot is the file of the VirtualFile the slot's tag was issued for. */
  predicate SlotOk(paths: map<FileId, Path>, slot: Slot) {
    && (slot.writer.Some? ==> slot.readers == {})
    && (slot.file.Some? ==> slot.owner.Some? && slot.owner.value in paths && slot.file.value == paths[slot.owner.value])
  }

  function FileAt(s: State, v: FileId): Option<VFile> {
    if v in s.vfiles then Some(s.vfiles[v]) else None
  }

  predicate InBounds(s: State, pc: Pc) {
    && (HoldsSlot(pc) || pc.InSlot? ==> pc.slot < |s.slots|)
    && (HasHandle(pc) ==> pc.h.index < |s.slots|)
    && (!pc.Idle? && !pc.Creating? ==> pc.v in s.paths)
  }

  ghost predicate AgentOk(s: State, t: Agent) {
    && InBounds(s, PcOf(s, t))
    && (forall i :: 0 <= i < |s.slots| ==> Knows(s.paths, t, PcOf(s, t), i, s.slots[i]))
    && (forall v :: KnowsFile(t, PcOf(s, t), v, FileAt(s, v)))
  }

  predicate FileOk(s: State, v: FileId)
    requires v in s.vfiles
  {
    var h := s.vfiles[v].handle;
    h.index < |s.slots| && HandleOk(s.slots[h.index], v, h) && v in s.paths && s.vfiles[v].path == s.paths[v]
  }

  ghost predicate LocksOk(s: State) {
    && (forall t: Agent :: AgentOk(s, t))
    && (forall i :: 0 <= i < |s.slots| ==> SlotOk(s.paths, s.slots[i]))
    && (forall v :: v in s.vfiles ==> FileOk(s, v))
  }

  // --- what one step may do to one slot and one VirtualFile

  /** A step of t from slot to slot', as the locks allow. */
  predicate SlotStep(slot: Slot, slot': Slot, t: Agent) {
    && slot.tag <= slot'.tag && (slot.tag == slot'.tag ==> slot.owner.None? || slot.owner == slot'.owner)
    && slot'.readers - {t} == slot.readers - {t}
    && (slot.readers - {t} != {} ==> slot'.owner == slot.owner && slot'.file == slot.file)
    && (slot.writer.Some? && slot.writer != Some(t) ==> slot' == slot.(readers := slot'.readers))
    && (slot'.writer.None? || slot'.writer == Some(t) || slot'.writer == slot.writer)
  }

  predicate LockStep(l: Option<Agent>, l': Option<Agent>, t: Agent) {
    l' == l || ((l.None? || l == Some(t)) && (l'.None? || l' == Some(t)))
  }

  /** What is local about a step of t that touches slot i and VirtualFile v. */
  predicate LocalStep(paths: map<FileId, Path>, t: Agent, i: nat, v: FileId,
                      pc: Pc, slot: Slot, f: Option<VFile>, pc': Pc, slot': Slot, f': Option<VFile>)
  {
    && SlotStep(slot, slot', t) && SlotOk(paths, slot')
    && Knows(paths, t, pc', i, slot') && KnowsFile(t, pc', v, f')
    && (HoldsSlot(pc) || pc.InSlot? ==> pc.slot == i) && (HoldsSlot(pc') || pc'.InSlot? ==> pc'.slot == i)
    && (HoldsHandle(pc) ==> pc.v == v)
    && (!pc'.Idle? && !pc'.Creating? ==> pc'.v == v && v in paths) && (HasHandle(pc') ==> pc'.h.index == i)
    && (f'.Some? ==>
          && v in paths && f'.value.path == paths[v]
          && (if f'.value.handle.index == i then HandleOk(slot', v, f'.value.handle)
              else f.Some? && f'.value.handle == f.value.handle))
    && (f.Some? && f'.Some? ==> LockStep(f.value.locked, f'.value.locked, t))
    && (f.None? && f'.Some? ==> f'.value.locked.None?)
  }

  /** The states before and after such a step. */
  ghost predicate Changed(s: State, s': State, t: Agent, i: nat, v: FileId) {
    && i < |s.slots| == |s'.slots|
    && s'.slots == s.slots[i := s'.slots[i]]
    && (forall w :: w != v ==> FileAt(s', w) == FileAt(s, w))
    && (forall u: Agent :: u != t ==> PcOf(s', u) == PcOf(s, u))
    && (forall w :: w in s.paths ==> w in s'.paths && s'.paths[w] == s.paths[w])
    && (FileAt(s, v).Some? && FileAt(s', v).None? ==> forall u: Agent :: !Uses(PcOf(s, u), v))
    && LocalStep(s'.paths, t, i, v, PcOf(s, t), s.slots[i], FileAt(s, v), PcOf(s', t), s'.slots[i], FileAt(s', v))
  }

  lemma ChangedKeepsOther(s: State, s': State, t: Agent, i: nat, v: FileId, u: Agent)
    requires Changed(s, s', t, i, v) && AgentOk(s, u) && u != t
    ensures AgentOk(s', u)
  {
    assert Knows(s.paths, u, PcOf(s, u), i, s.slots[i]);
    var before, after := s.slots[i].readers, s'.slots[i].readers;
    assert (u in after <==> u in after - {t}) && (u in before <==> u in before - {t});
    assert KnowsFile(u, PcOf(s, u), v, FileAt(s, v));
  }

  lemma ChangedKeepsOwn(s: State, s': State, t: Agent, i: nat, v: FileId)
    requires Changed(s, s', t, i, v) && AgentOk(s, t)
    ensures AgentOk(s', t)
  {
  }

  lemma ChangedKeepsFile(s: State, s': State, t: Agent, i: nat, v: FileId, w: FileId)
    requires Changed(s, s', t, i, v) && w in s'.vfiles && (w in s.vfiles ==> FileOk(s, w))
    ensures FileOk(s', w)
  {
    assert w != v ==> FileAt(s', w) == FileAt(s, w);
  }

  lemma ChangedKeepsLocks(s: State, s': State, t: Agent, i: nat, v: FileId)
    requires LocksOk(s) && Changed(s, s', t, i, v)
    ensures LocksOk(s')
  {
    forall u: Agent ensures AgentOk(s', u) {
      assert AgentOk(s, u);
      if u == t { ChangedKeepsOwn(s, s', t, i, v); } else { ChangedKeepsOther(s, s', t, i, v, u); }
    }
    forall j | 0 <= j < |s'.slots| ensures SlotOk(s'.paths, s'.slots[j]) {
      assert SlotOk(s.paths, s.slots[j]);
    }
    forall w | w in s'.vfiles ensures FileOk(s', w) { ChangedKeepsFile(s, s', t, i, v, w); }
  }

  // --- open descriptors

  /** The descriptor for slot i is open but not in the slot yet. */
  predicate Midway(s: State, slot: Slot) {
    slot.writer.Some? && (PcOf(s, slot.writer.value).Opened? || PcOf(s, slot.writer.value).Ran?)
  }

  predicate SlotOpen(s: State, i: nat)
    requires i < |s.slots|
  {
    Handle(i, s.slots[i].tag) in s.open <==> s.slots[i].file.Some? || Midway(s, s.slots[i])
  }

  /** Nothing is open but what the slots hold or are about to hold. */
  ghost predicate OpenOk(s: State) {
    && (forall h :: h in s.open ==> h.index < |s.slots| && h.tag == s.slots[h.index].tag)
    && (forall i :: 0 <= i < |s.slots| ==> SlotOpen(s, i))
  }

  ghost predicate Inv(s: State) {
    LocksOk(s) && OpenOk(s)
  }

  ghost predicate OpenChanged(s: State, s': State, i: nat)
    requires i < |s'.slots|
  {
    && (forall h :: h in s'.open && h !in s.open ==> h.index == i && h.tag == s'.slots[i].tag)
    && (forall h :: h in s.open && h !in s'.open ==> h.index == i)
    && (forall h :: h in s'.open && h.index == i ==> h.tag == s'.slots[i].tag)
    && SlotOpen(s', i)
  }

  ghost predicate Stepped(s: State, s': State, t: Agent, i: nat, v: FileId) {
    Changed(s, s', t, i, v) && OpenChanged(s, s', i)
  }

  lemma SteppedKeepsOpen(s: State, s': State, t: Agent, i: nat, v: FileId)
    requires Inv(s) && Stepped(s, s', t, i, v)
    ensures OpenOk(s')
  {
    assert AgentOk(s, t);
    forall j | 0 <= j < |s'.slots| ensures SlotOpen(s', j) {
      assert SlotOpen(s, j);
      if j != i { assert Knows(s.paths, t, PcOf(s, t), j, s.slots[j]); }
    }
  }

  ghost predicate Safe(s: State, o: Outcome) {
    !o.Panic? && (o.Next? ==> Inv(o.state))
  }

  lemma SteppedIsSafe(s: State, o: Outcome, t: Agent, i: nat, v: FileId)
    requires Inv(s) && o.Next? && Stepped(s, o.state, t, i, v)
    ensures Safe(s, o)
  {
    SteppedKeepsOpen(s, o.state, t, i, v);
    ChangedKeepsLocks(s, o.state, t, i, v);
  }

  /** What t, about to act on slot i and VirtualFile v, may use. */
  ghost predicate Facts(s: State, t: Agent, i: nat, v: FileId) {
    && InBounds(s, PcOf(s, t))
    && (i < |s.slots| ==>
          && Knows(s.paths, t, PcOf(s, t), i, s.slots[i]) && SlotOk(s.paths, s.slots[i]) && SlotOpen(s, i)
          && (forall h :: h in s.open && h.index == i ==> h.tag == s.slots[i].tag))
    && KnowsFile(t, PcOf(s, t), v, FileAt(s, v))
    && (v in s.vfiles ==> FileOk(s, v))
  }

  lemma InvGivesFacts(s: State, t: Agent, i: nat, v: FileId)
    requires Inv(s)
    ensures Facts(s, t, i, v)
  {
    assert AgentOk(s, t);
    if i < |s.slots| { assert SlotOpen(s, i) && SlotOk(s.paths, s.slots[i]); }
  }

  lemma CheckSteps(s: State, t: Agent, i: nat, v: FileId)
    requires Facts(s, t, i, v) && PcOf(s, t).HaveHandle? && i == PcOf(s, t).h.index && v == PcOf(s, t).v
    requires CheckStep(s, t).Next?
    ensures Stepped(s, CheckStep(s, t).state, t, i, v)
  {
  }

  lemma RunSteps(s: State, t: Agent, i: nat, v: FileId)
    requires Facts(s, t, i, v) && (PcOf(s, t).InSlot? || PcOf(s, t).Opened?)
             && i == PcOf(s, t).slot && v == PcOf(s, t).v
    requires RunStep(s, t).Next?
    ensures Stepped(s, RunStep(s, t).state, t, i, v)
  {
  }

  lemma ReleaseReadSteps(s: State, t: Agent, i: nat, v: FileId)
    requires Facts(s, t, i, v) && PcOf(s, t).InSlot? && i == PcOf(s, t).slot && v == PcOf(s, t).v
    requires ReleaseReadStep(s, t).Next?
    ensures Stepped(s, ReleaseReadStep(s, t).state, t, i, v)
  {
  }

  lemma LockHandleSteps(s: State, t: Agent, i: nat, v: FileId)
    requires Facts(s, t, i, v) && PcOf(s, t).Stale? && v == PcOf(s, t).v && v in s.vfiles
             && i == s.vfiles[v].handle.index
    requires LockHandleStep(s, t).Next?
    ensures Stepped(s, LockHandleStep(s, t).state, t, i, v)
  {
  }

  lemma OpenFileSteps(s: State, t: Agent, ok: bool, i: nat, v: FileId)
    requires Facts(s, t, i, v) && PcOf(s, t).GotSlot? && i == PcOf(s, t).slot && v == PcOf(s, t).v
    requires OpenFileStep(s, t, ok).Next?
    ensures Stepped(s, OpenFileStep(s, t, ok).state, t, i, v)
  {
  }

  lemma StoreSteps(s: State, t: Agent, i: nat, v: FileId)
    requires Facts(s, t, i, v) && PcOf(s, t).Ran? && i == PcOf(s, t).slot && v == PcOf(s, t).v
    requires StoreStep(s, t).Next?
    ensures Stepped(s, StoreStep(s, t).state, t, i, v)
  {
  }

  lemma ReleaseSlotSteps(s: State, t: Agent, i: nat, v: FileId)
    requires Facts(s, t, i, v) && PcOf(s, t).Stored? && i == PcOf(s, t).slot && v == PcOf(s, t).v
    requires ReleaseSlotStep(s, t).Next?
    ensures Stepped(s, ReleaseSlotStep(s, t).state, t, i, v)
  {
  }

  lemma ReleaseHandleSteps(s: State, t: Agent, i: nat, v: FileId)
    requires Facts(s, t, i, v) && PcOf(s, t).Unslotted? && v == PcOf(s, t).v && v in s.vfiles
             && i == s.vfiles[v].handle.index
    requires ReleaseHandleStep(s, t).Next?
    ensures Stepped(s, ReleaseHandleStep(s, t).state, t, i, v)
  {
  }

  lemma FinishCreateSteps(s: State, t: Agent, ok: bool, truncate: bool, i: nat, v: FileId)
    requires Facts(s, t, i, v) && PcOf(s, t).Creating? && i == PcOf(s, t).slot
    requires FinishCreateStep(s, t, v, ok, truncate).Next?
    ensures Stepped(s, FinishCreateStep(s, t, v, ok, truncate).state, t, i, v)
  {
  }

  lemma CloseDroppedChanges(s: State, t: Agent, i: nat, v: FileId)
    requires Facts(s, t, i, v) && PcOf(s, t).Dropping? && i == PcOf(s, t).h.index && v == PcOf(s, t).v
    requires CloseDroppedStep(s, t).Next?
    ensures Changed(s, CloseDroppedStep(s, t).state, t, i, v)
  {
    var s' := CloseDroppedStep(s, t).state;
    assert SlotStep(s.slots[i], s'.slots[i], t) && Knows(s'.paths, t, PcOf(s', t), i, s'.slots[i]);
  }

  lemma CloseDroppedCloses(s: State, t: Agent, i: nat, v: FileId)
    requires Facts(s, t, i, v) && PcOf(s, t).Dropping? && i == PcOf(s, t).h.index && v == PcOf(s, t).v
    requires CloseDroppedStep(s, t).Next?
    ensures OpenChanged(s, CloseDroppedStep(s, t).state, i)
  {
  }

  lemma CloseDroppedSteps(s: State, t: Agent, i: nat, v: FileId)
    requires Facts(s, t, i, v) && PcOf(s, t).Dropping? && i == PcOf(s, t).h.index && v == PcOf(s, t).v
    requires CloseDroppedStep(s, t).Next?
    ensures Stepped(s, CloseDroppedStep(s, t).state, t, i, v)
  {
    CloseDroppedChanges(s, t, i, v);
    CloseDroppedCloses(s, t, i, v);
  }

  lemma TakeSteps(s: State, t: Agent, pc': Pc, i: nat, v: FileId)
    requires Facts(s, t, i, v)
    requires if PcOf(s, t).NeedSlot? then pc' == GotSlot(v, PcOf(s, t).op, i) && v == PcOf(s, t).v
             else PcOf(s, t).Idle? && pc'.Creating? && pc'.slot == i
    requires TakeSlot(s, t, pc', i, if pc'.Creating? then None else Some(v)).Next?
    ensures Stepped(s, TakeSlot(s, t, pc', i, if pc'.Creating? then None else Some(v)).state, t, i, v)
  {
  }

  // --- every step

  lemma UseIsSafe(s: State, t: Agent, a: Action)
    requires Inv(s) && (a.Check? || a.Run? || a.ReleaseRead?)
    ensures Safe(s, Step(s, t, a))
  {
    var o, pc := Step(s, t, a), PcOf(s, t);
    if !o.Disabled? {
      var i := if a.Check? then pc.h.index else pc.slot;
      InvGivesFacts(s, t, i, pc.v);
      if a.Check? {
        CheckSteps(s, t, i, pc.v);
      } else if a.Run? {
        RunSteps(s, t, i, pc.v);
      } else {
        ReleaseReadSteps(s, t, i, pc.v);
      }
      SteppedIsSafe(s, o, t, i, pc.v);
    }
  }

  lemma HandleIsSafe(s: State, t: Agent, a: Action)
    requires Inv(s) && (a.LockHandle? || a.ReleaseHandle?)
    ensures Safe(s, Step(s, t, a))
  {
    var o, pc := Step(s, t, a), PcOf(s, t);
    if !o.Disabled? {
      InvGivesFacts(s, t, 0, pc.v);
      var i := s.vfiles[pc.v].handle.index;
      InvGivesFacts(s, t, i, pc.v);
      if a.LockHandle? { LockHandleSteps(s, t, i, pc.v); } else { ReleaseHandleSteps(s, t, i, pc.v); }
      SteppedIsSafe(s, o, t, i, pc.v);
    }
  }

  lemma ReopenIsSafe(s: State, t: Agent, a: Action)
    requires Inv(s) && (a.OpenFile? || a.Store? || a.ReleaseSlot?)
    ensures Safe(s, Step(s, t, a))
  {
    var o, pc := Step(s, t, a), PcOf(s, t);
    if !o.Disabled? {
      InvGivesFacts(s, t, pc.slot, pc.v);
      if a.OpenFile? {
        OpenFileSteps(s, t, a.ok, pc.slot, pc.v);
      } else if a.Store? {
        StoreSteps(s, t, pc.slot, pc.v);
      } else {
        ReleaseSlotSteps(s, t, pc.slot, pc.v);
      }
      SteppedIsSafe(s, o, t, pc.slot, pc.v);
    }
  }

  lemma TakeIsSafe(s: State, t: Agent, a: Action)
    requires Inv(s) && (a.Take? || a.Create?)
    ensures Safe(s, Step(s, t, a))
  {
    var o, pc := Step(s, t, a), PcOf(s, t);
    if !o.Disabled? {
      var v := if a.Create? then 0 else pc.v;
      var pc' := if a.Create? then Creating(a.path, a.slot) else GotSlot(v, pc.op, a.slot);
      InvGivesFacts(s, t, a.slot, v);
      TakeSteps(s, t, pc', a.slot, v);
      SteppedIsSafe(s, o, t, a.slot, v);
    }
  }

  lemma FinishCreateIsSafe(s: State, t: Agent, a: Action)
    requires Inv(s) && a.FinishCreate?
    ensures Safe(s, Step(s, t, a))
  {
    var o, pc := Step(s, t, a), PcOf(s, t);
    if !o.Disabled? {
      InvGivesFacts(s, t, pc.slot, a.v);
      FinishCreateSteps(s, t, a.ok, a.truncate, pc.slot, a.v);
      SteppedIsSafe(s, o, t, pc.slot, a.v);
    }
  }

  lemma CloseDroppedIsSafe(s: State, t: Agent, a: Action)
    requires Inv(s) && a.CloseDropped?
    ensures Safe(s, Step(s, t, a))
  {
    var o, pc := Step(s, t, a), PcOf(s, t);
    if !o.Disabled? {
      InvGivesFacts(s, t, pc.h.index, pc.v);
      CloseDroppedSteps(s, t, pc.h.index, pc.v);
      SteppedIsSafe(s, o, t, pc.h.index, pc.v);
    }
  }

  lemma DropSteps(s: State, t: Agent, v: FileId, i: nat)
    requires Facts(s, t, i, v) && v in s.vfiles && i == s.vfiles[v].handle.index && Step(s, t, Drop(v)).Next?
    ensures Stepped(s, Step(s, t, Drop(v)).state, t, i, v)
  {
  }

  lemma StartSteps(s: State, t: Agent, a: Action, i: nat, v: FileId)
    requires Facts(s, t, i, v) && a.Start?
    requires v == a.v && v in s.vfiles && i == s.vfiles[v].handle.index && Step(s, t, a).Next?
    ensures Stepped(s, Step(s, t, a).state, t, i, v)
  {
  }

  lemma SeekSteps(s: State, t: Agent, a: Action, i: nat, v: FileId)
    requires Facts(s, t, i, v) && (a.SeekStart? || a.SeekCurrent?)
    requires v == a.v && v in s.vfiles && i == s.vfiles[v].handle.index && Step(s, t, a).Next?
    ensures Step(s, t, a).state == s || Stepped(s, Step(s, t, a).state, t, i, v)
  {
  }

  lemma OutsideSteps(s: State, t: Agent, a: Action, i: nat, v: FileId)
    requires Facts(s, t, i, v) && (a.Start? || a.SeekStart? || a.SeekCurrent?)
    requires v == a.v && v in s.vfiles && i == s.vfiles[v].handle.index && Step(s, t, a).Next?
    ensures Step(s, t, a).state == s || Stepped(s, Step(s, t, a).state, t, i, v)
  {
    if a.Start? {
      StartSteps(s, t, a, i, v);
    } else {
      SeekSteps(s, t, a, i, v);
    }
  }

  lemma OutsideIsSafe(s: State, t: Agent, a: Action)
    requires Inv(s) && (a.Start? || a.SeekStart? || a.SeekCurrent? || a.Drop?)
    ensures Safe(s, Step(s, t, a))
  {
    var o := Step(s, t, a);
    if !o.Disabled? {
      var i := s.vfiles[a.v].handle.index;
      InvGivesFacts(s, t, i, a.v);
      if a.Drop? {
        DropSteps(s, t, a.v, i);
      } else {
        OutsideSteps(s, t, a, i, a.v);
      }
      if o.state != s { SteppedIsSafe(s, o, t, i, a.v); }
    }
  }

  /** No step panics, and every step keeps the invariant. */
  lemma StepIsSafe(s: State, t: Agent, a: Action)
    requires Inv(s)
    ensures Safe(s, Step(s, t, a))
  {
    match a {
      case Check => UseIsSafe(s, t, a);
      case Run => UseIsSafe(s, t, a);
      case ReleaseRead => UseIsSafe(s, t, a);
      case LockHandle => HandleIsSafe(s, t, a);
      case ReleaseHandle => HandleIsSafe(s, t, a);
      case OpenFile(_) => ReopenIsSafe(s, t, a);
      case Store => ReopenIsSafe(s, t, a);
      case ReleaseSlot => ReopenIsSafe(s, t, a);
      case Take(_) => TakeIsSafe(s, t, a);
      case Create(_, _) => TakeIsSafe(s, t, a);
      case FinishCreate(_, _, _) => FinishCreateIsSafe(s, t, a);
      case CloseDropped => CloseDroppedIsSafe(s, t, a);
      case _ => OutsideIsSafe(s, t, a);
    }
  }
}
