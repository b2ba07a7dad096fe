/** No descriptor is lost: what is open in a slot is the current file of a live VirtualFile, or is
    about to be closed by the drop of its VirtualFile. */
module VirtualFileOwnership {
  import opened Options
  import opened VirtualFileMachine
  import opened VirtualFileSafety
  import opened VirtualFileRefinement

  /** The slot still has the handle's tag. */
  predicate Current(slots: seq<Slot>, h: Handle) {
    h.index < |slots| && slots[h.index].tag == h.tag
  }

  predicate CurrentIsOpen(slots: seq<Slot>, h: Handle) {
    Current(slots, h) ==> slots[h.index].file.Some?
  }

  predicate Reopening(pc: Pc) {
    pc.NeedSlot? || pc.GotSlot? || pc.Opened? || pc.Ran?
  }

  /** A handle in use is stale or leads to an open file; a file is reopened only when it is stale. */
  predicate AgentOwns(s: State, t: Agent) {
    var pc := PcOf(s, t);
    && (pc.HaveHandle? ==> CurrentIsOpen(s.slots, pc.h))
    && (pc.Stale? ==> !Current(s.slots, pc.h))
    && (Reopening(pc) ==> pc.v in s.vfiles && !Current(s.slots, s.vfiles[pc.v].handle))
    && (pc.Dropping? ==> pc.v !in s.vfiles)
  }

  predicate FileOwns(s: State, v: FileId) {
    v in s.vfiles ==> CurrentIsOpen(s.slots, s.vfiles[v].handle)
  }

  ghost predicate BeingDropped(s: State, v: FileId, h: Handle) {
    exists u: Agent :: PcOf(s, u) == Dropping(v, h)
  }

  /** The file in slot i is where its VirtualFile's handle says, or its VirtualFile is being dropped. */
  ghost predicate SlotOwned(s: State, i: nat)
    requires i < |s.slots|
  {
    var slot, h := s.slots[i], Handle(i, s.slots[i].tag);
    slot.file.Some? ==>
      && slot.owner.Some?
      && ((slot.owner.value in s.vfiles && s.vfiles[slot.owner.value].handle == h)
          || BeingDropped(s, slot.owner.value, h))
  }

  ghost predicate Owned(s: State) {
    && (forall t: Agent :: AgentOwns(s, t))
    && (forall v :: FileOwns(s, v))
    && (forall i :: 0 <= i < |s.slots| ==> SlotOwned(s, i))
  }

  // --- what one step does

  /** A file appears in a slot together with the handle to it, and disappears with the tag or the
      VirtualFile. */
  predicate OwnedStep(v: FileId, i: nat, pc: Pc, slot: Slot, f: Option<VFile>,
                      pc': Pc, slot': Slot, f': Option<VFile>)
  {
    var h' := Handle(i, slot'.tag);
    && (slot'.file.Some? ==>
          || (slot'.tag == slot.tag && slot'.owner == slot.owner && slot.file.Some?)
          || (slot'.owner == Some(v) && f'.Some? && f'.value.handle == h'))
    && (slot.file.Some? && slot'.file.None? && slot'.tag == slot.tag ==> slot.owner == Some(v) && f'.None?)
    && (f.Some? && f'.None? ==> pc' == Dropping(v, f.value.handle))
    && (f'.Some? && f.Some? && f'.value.handle != f.value.handle ==> Reopening(pc) && pc.v == v)
    && (pc.Dropping? ==> pc.h.index == i && (slot'.tag == pc.h.tag ==> slot'.file.None?))
    && (pc'.Dropping? ==> f'.None?) && (pc'.Dropping? || pc'.HaveHandle? || pc'.Stale? || Reopening(pc') ==> pc'.v == v)
  }

  ghost predicate OwnedChange(s: State, s': State, t: Agent, i: nat, v: FileId) {
    && Changed(s, s', t, i, v)
    && OwnedStep(v, i, PcOf(s, t), s.slots[i], FileAt(s, v), PcOf(s', t), s'.slots[i], FileAt(s', v))
    && AgentOwns(s', t) && FileOwns(s', v)
    && (FileAt(s, v).None? && FileAt(s', v).Some? ==> v !in s.paths)
  }

  lemma ChangeKeepsAgent(s: State, s': State, t: Agent, i: nat, v: FileId, u: Agent)
    requires Inv(s) && Owned(s) && OwnedChange(s, s', t, i, v) && u != t
    ensures AgentOwns(s', u)
  {
    var pc := PcOf(s, u);
    assert AgentOwns(s, u);
    InvGivesFacts(s, u, i, v);
    InvGivesFacts(s, t, i, v);
    if Reopening(pc) || pc.Dropping? {
      InvGivesFacts(s, u, i, pc.v);
      assert pc.v != v ==> FileAt(s', pc.v) == FileAt(s, pc.v);
    }
  }

  lemma ChangeKeepsFile(s: State, s': State, t: Agent, i: nat, v: FileId, w: FileId)
    requires Inv(s) && Owned(s) && OwnedChange(s, s', t, i, v)
    ensures FileOwns(s', w)
  {
    InvGivesFacts(s, t, i, w);
    assert FileOwns(s, w) && (w != v ==> FileAt(s', w) == FileAt(s, w));
  }

  lemma ChangeKeepsSlot(s: State, s': State, t: Agent, i: nat, v: FileId, j: nat)
    requires Inv(s) && Owned(s) && OwnedChange(s, s', t, i, v) && j < |s'.slots|
    ensures SlotOwned(s', j)
  {
    InvGivesFacts(s, t, j, v);
    assert SlotOwned(s, j) && AgentOwns(s, t);
    var slot, h := s'.slots[j], Handle(j, s'.slots[j].tag);
    if slot.file.Some? && !(j == i && slot.owner == Some(v) && FileAt(s', v).Some? && s'.vfiles[v].handle == h) {
      var w := slot.owner.value;
      assert s.slots[j].file.Some? && s.slots[j].tag == slot.tag && s.slots[j].owner == slot.owner;
      if w in s.vfiles && s.vfiles[w].handle == h {
        assert w != v ==> FileAt(s', w) == FileAt(s, w);
      } else {
        var u: Agent :| PcOf(s, u) == Dropping(w, h);
        assert PcOf(s', u) == Dropping(w, h);
      }
    }
  }

  lemma ChangeKeepsOwned(s: State, s': State, t: Agent, i: nat, v: FileId)
    requires Inv(s) && Owned(s) && OwnedChange(s, s', t, i, v)
    ensures Owned(s')
  {
    forall u: Agent ensures AgentOwns(s', u) { if u != t { ChangeKeepsAgent(s, s', t, i, v, u); } }
    forall w ensures FileOwns(s', w) { ChangeKeepsFile(s, s', t, i, v, w); }
    forall j | 0 <= j < |s'.slots| ensures SlotOwned(s', j) { ChangeKeepsSlot(s, s', t, i, v, j); }
  }

  // --- every step

  lemma TakeOwns(s: State, t: Agent, pc': Pc, i: nat, v: FileId)
    requires Facts(s, t, i, v) && AgentOwns(s, t) && FileOwns(s, v)
    requires if PcOf(s, t).NeedSlot? then pc' == GotSlot(v, PcOf(s, t).op, i) && v == PcOf(s, t).v
             else PcOf(s, t).Idle? && pc'.Creating? && pc'.slot == i
    requires TakeSlot(s, t, pc', i, if pc'.Creating? then None else Some(v)).Next?
    ensures OwnedChange(s, TakeSlot(s, t, pc', i, if pc'.Creating? then None else Some(v)).state, t, i, v)
  {
    TakeSteps(s, t, pc', i, v);
  }

  lemma CheckOwns(s: State, t: Agent, i: nat, v: FileId)
    requires Facts(s, t, i, v) && AgentOwns(s, t) && FileOwns(s, v)
    requires PcOf(s, t).HaveHandle? && i == PcOf(s, t).h.index && v == PcOf(s, t).v
    requires CheckStep(s, t).Next?
    ensures OwnedChange(s, CheckStep(s, t).state, t, i, v)
  {
    CheckSteps(s, t, i, v);
  }

  lemma RunOwns(s: State, t: Agent, i: nat, v: FileId)
    requires Facts(s, t, i, v) && AgentOwns(s, t) && FileOwns(s, v)
    requires (PcOf(s, t).InSlot? || PcOf(s, t).Opened?) && i == PcOf(s, t).slot && v == PcOf(s, t).v
    requires RunStep(s, t).Next?
    ensures OwnedChange(s, RunStep(s, t).state, t, i, v)
  {
    RunSteps(s, t, i, v);
  }

  lemma ReleaseReadOwns(s: State, t: Agent, i: nat, v: FileId)
    requires Facts(s, t, i, v) && AgentOwns(s, t) && FileOwns(s, v)
    requires PcOf(s, t).InSlot? && i == PcOf(s, t).slot && v == PcOf(s, t).v
    requires ReleaseReadStep(s, t).Next?
    ensures OwnedChange(s, ReleaseReadStep(s, t).state, t, i, v)
  {
    ReleaseReadSteps(s, t, i, v);
  }

  lemma LockHandleOwns(s: State, t: Agent, i: nat, v: FileId)
    requires Facts(s, t, i, v) && AgentOwns(s, t) && FileOwns(s, v)
    requires PcOf(s, t).Stale? && v == PcOf(s, t).v && v in s.vfiles && i == s.vfiles[v].handle.index
    requires LockHandleStep(s, t).Next?
    ensures OwnedChange(s, LockHandleStep(s, t).state, t, i, v)
  {
    LockHandleSteps(s, t, i, v);
  }

  lemma OpenFileOwns(s: State, t: Agent, ok: bool, i: nat, v: FileId)
    requires Facts(s, t, i, v) && AgentOwns(s, t) && FileOwns(s, v)
    requires PcOf(s, t).GotSlot? && i == PcOf(s, t).slot && v == PcOf(s, t).v
    requires OpenFileStep(s, t, ok).Next?
    ensures OwnedChange(s, OpenFileStep(s, t, ok).state, t, i, v)
  {
    OpenFileSteps(s, t, ok, i, v);
  }

  lemma StoreOwns(s: State, t: Agent, i: nat, v: FileId)
    requires Facts(s, t, i, v) && AgentOwns(s, t) && FileOwns(s, v)
    requires PcOf(s, t).Ran? && i == PcOf(s, t).slot && v == PcOf(s, t).v
    requires StoreStep(s, t).Next?
    ensures OwnedChange(s, StoreStep(s, t).state, t, i, v)
  {
    StoreSteps(s, t, i, v);
  }

  lemma ReleaseSlotOwns(s: State, t: Agent, i: nat, v: FileId)
    requires Facts(s, t, i, v) && AgentOwns(s, t) && FileOwns(s, v)
    requires PcOf(s, t).Stored? && i == PcOf(s, t).slot && v == PcOf(s, t).v
    requires ReleaseSlotStep(s, t).Next?
    ensures OwnedChange(s, ReleaseSlotStep(s, t).state, t, i, v)
  {
    ReleaseSlotSteps(s, t, i, v);
  }

  lemma ReleaseHandleOwns(s: State, t: Agent, i: nat, v: FileId)
    requires Facts(s, t, i, v) && AgentOwns(s, t) && FileOwns(s, v)
    requires PcOf(s, t).Unslotted? && v == PcOf(s, t).v && v in s.vfiles && i == s.vfiles[v].handle.index
    requires ReleaseHandleStep(s, t).Next?
    ensures OwnedChange(s, ReleaseHandleStep(s, t).state, t, i, v)
  {
    ReleaseHandleSteps(s, t, i, v);
  }

  lemma FinishCreateOwns(s: State, t: Agent, ok: bool, truncate: bool, i: nat, v: FileId)
    requires Facts(s, t, i, v) && AgentOwns(s, t) && FileOwns(s, v)
    requires PcOf(s, t).Creating? && i == PcOf(s, t).slot
    requires FinishCreateStep(s, t, v, ok, truncate).Next?
    ensures OwnedChange(s, FinishCreateStep(s, t, v, ok, truncate).state, t, i, v)
  {
    FinishCreateSteps(s, t, ok, truncate, i, v);
  }

  lemma CloseDroppedOwns(s: State, t: Agent, i: nat, v: FileId)
    requires Facts(s, t, i, v) && AgentOwns(s, t) && FileOwns(s, v)
    requires PcOf(s, t).Dropping? && i == PcOf(s, t).h.index && v == PcOf(s, t).v
    requires CloseDroppedStep(s, t).Next?
    ensures OwnedChange(s, CloseDroppedStep(s, t).state, t, i, v)
  {
    CloseDroppedSteps(s, t, i, v);
  }

  lemma DropOwns(s: State, t: Agent, v: FileId, i: nat)
    requires Facts(s, t, i, v) && AgentOwns(s, t) && FileOwns(s, v)
    requires v in s.vfiles && i == s.vfiles[v].handle.index && Step(s, t, Drop(v)).Next?
    ensures OwnedChange(s, Step(s, t, Drop(v)).state, t, i, v)
  {
    DropSteps(s, t, v, i);
  }

  lemma OutsideOwns(s: State, t: Agent, a: Action, i: nat, v: FileId)
    requires Facts(s, t, i, v) && AgentOwns(s, t) && FileOwns(s, v)
    requires (a.Start? || a.SeekStart? || a.SeekCurrent?)
    requires v == a.v && v in s.vfiles && i == s.vfiles[v].handle.index && Step(s, t, a).Next?
    ensures Step(s, t, a).state == s || OwnedChange(s, Step(s, t, a).state, t, i, v)
  {
    OutsideSteps(s, t, a, i, v);
  }

  /** The VirtualFile a step is about. */
  function FileOf(s: State, t: Agent, a: Action): FileId {
    var pc := PcOf(s, t);
    if a.Start? || a.SeekStart? || a.SeekCurrent? || a.Drop? || a.FinishCreate? then a.v
    else if pc.Idle? || pc.Creating? then 0
    else pc.v
  }

  /** The slot it is about. */
  function SlotOf(s: State, t: Agent, a: Action): nat {
    var pc, v := PcOf(s, t), FileOf(s, t, a);
    if a.Take? || a.Create? then a.slot
    else if HoldsSlot(pc) || pc.InSlot? then pc.slot
    else if pc.HaveHandle? || pc.Dropping? then pc.h.index
    else if v in s.vfiles then s.vfiles[v].handle.index
    else 0
  }

  lemma UseChanges(s: State, t: Agent, a: Action, i: nat, v: FileId)
    requires Facts(s, t, i, v) && AgentOwns(s, t) && FileOwns(s, v)
    requires i == SlotOf(s, t, a) && v == FileOf(s, t, a)
    requires (a.Check? || a.Run? || a.ReleaseRead? || a.LockHandle? || a.ReleaseHandle?) && Step(s, t, a).Next?
    ensures OwnedChange(s, Step(s, t, a).state, t, i, v)
  {
    if a.Check? {
      CheckOwns(s, t, i, v);
    } else if a.Run? {
      RunOwns(s, t, i, v);
    } else if a.ReleaseRead? {
      ReleaseReadOwns(s, t, i, v);
    } else if a.LockHandle? {
      LockHandleOwns(s, t, i, v);
    } else {
      ReleaseHandleOwns(s, t, i, v);
    }
  }

  lemma SlotChanges(s: State, t: Agent, a: Action, i: nat, v: FileId)
    requires Facts(s, t, i, v) && AgentOwns(s, t) && FileOwns(s, v)
    requires i == SlotOf(s, t, a) && v == FileOf(s, t, a)
    requires (a.OpenFile? || a.Store? || a.ReleaseSlot? || a.FinishCreate? || a.CloseDropped?) && Step(s, t, a).Next?
    ensures OwnedChange(s, Step(s, t, a).state, t, i, v)
  {
    if a.OpenFile? {
      OpenFileOwns(s, t, a.ok, i, v);
    } else if a.Store? {
      StoreOwns(s, t, i, v);
    } else if a.ReleaseSlot? {
      ReleaseSlotOwns(s, t, i, v);
    } else if a.FinishCreate? {
      FinishCreateOwns(s, t, a.ok, a.truncate, i, v);
    } else {
      CloseDroppedOwns(s, t, i, v);
    }
  }

  lemma TakeChanges(s: State, t: Agent, a: Action, i: nat, v: FileId)
    requires Facts(s, t, i, v) && AgentOwns(s, t) && FileOwns(s, v)
    requires i == SlotOf(s, t, a) && v == FileOf(s, t, a)
    requires (a.Take? || a.Create?) && Step(s, t, a).Next?
    ensures OwnedChange(s, Step(s, t, a).state, t, i, v)
  {
    TakeOwns(s, t, if a.Create? then Creating(a.path, i) else GotSlot(v, PcOf(s, t).op, i), i, v);
  }

  lemma StepKeepsOwned(s: State, t: Agent, a: Action)
    requires Inv(s) && Owned(s) && Step(s, t, a).Next?
    ensures Owned(Step(s, t, a).state)
  {
    var i, v, s' := SlotOf(s, t, a), FileOf(s, t, a), Step(s, t, a).state;
    InvGivesFacts(s, t, i, v);
    assert AgentOwns(s, t) && FileOwns(s, v);
    if a.Check? || a.Run? || a.ReleaseRead? || a.LockHandle? || a.ReleaseHandle? {
      UseChanges(s, t, a, i, v);
    } else if a.Take? || a.Create? {
      TakeChanges(s, t, a, i, v);
    } else if a.Drop? {
      DropOwns(s, t, v, i);
    } else if a.Start? || a.SeekStart? || a.SeekCurrent? {
      OutsideOwns(s, t, a, i, v);
    } else {
      SlotChanges(s, t, a, i, v);
    }
    if s' != s { ChangeKeepsOwned(s, s', t, i, v); }
  }

  lemma {:induction false} RunKeepsOwned(n: nat, files: map<Path, Content>, events: seq<Event>)
    requires Execute(Init(n, files), events).Next?
    ensures Owned(Execute(Init(n, files), events).state)
  {
    if events != [] {
      var last, before := events[|events| - 1], events[..|events| - 1];
      RunKeepsOwned(n, files, before);
      RunIsSafe(n, files, before);
      StepKeepsOwned(Execute(Init(n, files), before).state, last.agent, last.action);
    }
  }

  /** Over every run: whenever all calls have returned, every open descriptor is the current one of a
      VirtualFile that has not been dropped. */
  lemma NoDescriptorIsLost(n: nat, files: map<Path, Content>, events: seq<Event>, h: Handle)
    requires Execute(Init(n, files), events).Next?
    requires forall t: Agent :: PcOf(Execute(Init(n, files), events).state, t).Idle?
    requires h in Execute(Init(n, files), events).state.open
    ensures var s := Execute(Init(n, files), events).state; exists v :: v in s.vfiles && s.vfiles[v].handle == h
  {
    var s := Execute(Init(n, files), events).state;
    RunIsSafe(n, files, events);
    RunKeepsOwned(n, files, events);
    assert SlotOpen(s, h.index) && SlotOwned(s, h.index);
  }
}
