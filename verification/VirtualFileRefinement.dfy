/**
  VirtualFiles behave like plain files with a position, and never hold more descriptors than slots.
*/
module VirtualFileRefinement {
  import opened Options
  import opened VirtualFileMachine
  import opened VirtualFileSafety

  // --- the plain files a VirtualFile stands for

  datatype PlainFile = PlainFile(path: Path, pos: nat)
  datatype Plain = Plain(files: map<Path, Content>, handles: map<FileId, PlainFile>)

  datatype PlainOp =
    | Nothing
    | Use(v: FileId, op: Op)
    | Open(v: FileId, path: Path, truncate: bool)
    | SeekTo(v: FileId, pos: nat)
    | Close(v: FileId)

  /** What the operation does to files that are open all the time. */
  function PlainStep(p: Plain, op: PlainOp): Option<Plain> {
    match op
    case Nothing => Some(p)
    case Use(v, use) =>
      if v !in p.handles then None
      else
        var f := p.handles[v];
        var c := ContentOf(p.files, f.path);
        if !Feasible(use, c, f.pos) then None
        else Some(Plain(p.files[f.path := NewContent(use, c, f.pos)], p.handles[v := f.(pos := NewPos(use, c, f.pos))]))
    case Open(v, path, truncate) =>
      Some(Plain(if truncate then p.files[path := []] else p.files, p.handles[v := PlainFile(path, 0)]))
    case SeekTo(v, pos) =>
      if v !in p.handles then None else Some(p.(handles := p.handles[v := p.handles[v].(pos := pos)]))
    case Close(v) => Some(p.(handles := p.handles - {v}))
  }

  function PlainRun(p: Plain, ops: seq<PlainOp>): Option<Plain> {
    if ops == [] then Some(p)
    else
      match PlainRun(p, ops[..|ops| - 1])
      case Some(p1) => PlainStep(p1, ops[|ops| - 1])
      case None => None
  }

  function Abs(s: State): Plain {
    Plain(s.files, map v | v in s.vfiles :: PlainFile(s.vfiles[v].path, s.vfiles[v].pos))
  }

  /** The plain operation a step stands for: slots, tags and handles play no part in it. */
  function OpOf(s: State, t: Agent, a: Action): PlainOp {
    var pc := PcOf(s, t);
    match a
    case Run => if pc.InSlot? || pc.Opened? then Use(pc.v, pc.op) else Nothing
    case FinishCreate(v, ok, truncate) => if ok && pc.Creating? then Open(v, pc.path, truncate) else Nothing
    case SeekStart(v, offset) => SeekTo(v, offset)
    case SeekCurrent(v, delta) =>
      if v in s.vfiles && 0 <= s.vfiles[v].pos + delta <= U64_MAX then SeekTo(v, s.vfiles[v].pos + delta) else Nothing
    case Drop(v) => Close(v)
    case _ => Nothing
  }

  /** The closure runs on the VirtualFile's own file. */
  lemma RunsOnOwnFile(s: State, t: Agent)
    requires Inv(s) && RunStep(s, t).Next?
    ensures var pc := PcOf(s, t);
            && pc.v in s.vfiles
            && s.vfiles[pc.v].path ==
                 (if pc.InSlot? then s.slots[pc.slot].file.value else pc.file)
  {
    var pc := PcOf(s, t);
    InvGivesFacts(s, t, pc.slot, pc.v);
  }

  lemma RunRefines(s: State, t: Agent)
    requires Inv(s) && RunStep(s, t).Next?
    ensures PlainStep(Abs(s), OpOf(s, t, Run)) == Some(Abs(RunStep(s, t).state))
  {
    RunsOnOwnFile(s, t);
    var pc, s' := PcOf(s, t), RunStep(s, t).state;
    var f := s.vfiles[pc.v];
    assert Abs(s').handles == Abs(s).handles[pc.v := PlainFile(f.path, s'.vfiles[pc.v].pos)];
  }

  predicate Outside(a: Action) {
    a.SeekStart? || a.SeekCurrent? || a.Drop?
  }

  lemma OutsideRefines(s: State, t: Agent, a: Action)
    requires Outside(a) && Step(s, t, a).Next?
    ensures PlainStep(Abs(s), OpOf(s, t, a)) == Some(Abs(Step(s, t, a).state))
  {
    var s' := Step(s, t, a).state;
    match OpOf(s, t, a) {
      case Nothing =>
      case SeekTo(v, pos) => assert Abs(s').handles == Abs(s).handles[v := Abs(s).handles[v].(pos := pos)];
      case Close(v) => assert Abs(s').handles == Abs(s).handles - {v};
    }
  }

  lemma FinishCreateRefines(s: State, t: Agent, a: Action)
    requires a.FinishCreate? && Step(s, t, a).Next?
    ensures PlainStep(Abs(s), OpOf(s, t, a)) == Some(Abs(Step(s, t, a).state))
  {
    if a.ok {
      var s', path := Step(s, t, a).state, PcOf(s, t).path;
      assert Abs(s').handles == Abs(s).handles[a.v := PlainFile(path, 0)];
    }
  }

  /** Taking slots, opening and closing descriptors and moving handles about shows in nothing. */
  predicate SameFiles(s: State, s': State) {
    && s'.files == s.files && s'.vfiles.Keys == s.vfiles.Keys
    && forall v :: v in s.vfiles ==> s'.vfiles[v].path == s.vfiles[v].path && s'.vfiles[v].pos == s.vfiles[v].pos
  }

  lemma SamePlain(s: State, s': State)
    requires SameFiles(s, s')
    ensures Abs(s') == Abs(s)
  {
    assert Abs(s').handles == Abs(s).handles;
  }

  lemma InsideKeeps(s: State, t: Agent, a: Action)
    requires !Outside(a) && !a.Run? && !a.FinishCreate? && Step(s, t, a).Next?
    ensures SameFiles(s, Step(s, t, a).state)
  {
  }

  lemma InsideIsInvisible(s: State, t: Agent, a: Action)
    requires !Outside(a) && !a.Run? && !a.FinishCreate? && Step(s, t, a).Next?
    ensures Abs(Step(s, t, a).state) == Abs(s)
  {
    InsideKeeps(s, t, a);
    SamePlain(s, Step(s, t, a).state);
  }

  /** Every step of the virtual files is one plain operation, or changes nothing a user can see. */
  lemma StepRefines(s: State, t: Agent, a: Action)
    requires Inv(s) && Step(s, t, a).Next?
    ensures PlainStep(Abs(s), OpOf(s, t, a)) == Some(Abs(Step(s, t, a).state))
  {
    if a.Run? {
      RunRefines(s, t);
    } else if Outside(a) {
      OutsideRefines(s, t, a);
    } else if a.FinishCreate? {
      FinishCreateRefines(s, t, a);
    } else {
      InsideIsInvisible(s, t, a);
    }
  }

  // --- whole runs

  /** Descriptors with different slots are no more than the slots. */
  lemma {:induction false} OnePerSlot(open: set<Handle>, n: nat)
    requires forall h :: h in open ==> h.index < n
    requires forall h, k :: h in open && k in open && h.index == k.index ==> h == k
    ensures |open| <= n
  {
    if n == 0 {
      assert forall h :: h !in open;
      assert open == {};
    } else if h :| h in open && h.index == n - 1 {
      OnePerSlot(open - {h}, n - 1);
    } else {
      OnePerSlot(open, n - 1);
    }
  }

  lemma OpenWithinSlots(s: State)
    requires OpenOk(s)
    ensures |s.open| <= |s.slots|
  {
    OnePerSlot(s.open, |s.slots|);
  }

  ghost function OpsOf(s: State, events: seq<Event>): seq<PlainOp>
    requires Execute(s, events).Next?
  {
    if events == [] then []
    else
      var last := events[|events| - 1];
      var before := events[..|events| - 1];
      OpsOf(s, before) + [OpOf(Execute(s, before).state, last.agent, last.action)]
  }

  lemma SlotsStay(s: State, t: Agent, a: Action)
    requires Step(s, t, a).Next?
    ensures |Step(s, t, a).state.slots| == |s.slots|
  {
  }

  lemma InitIsSafe(n: nat, files: map<Path, Content>)
    ensures Inv(Init(n, files)) && Abs(Init(n, files)) == Plain(files, map[])
  {
  }

  /** No run panics; it opens no more descriptors than there are slots; and what its VirtualFiles did
      is what plain files do under the same operations. */
  lemma {:induction false} RunIsSafe(n: nat, files: map<Path, Content>, events: seq<Event>)
    ensures var o := Execute(Init(n, files), events);
            && !o.Panic?
            && (o.Next? ==>
                  && Inv(o.state) && |o.state.slots| == n && |o.state.open| <= n
                  && PlainRun(Plain(files, map[]), OpsOf(Init(n, files), events)) == Some(Abs(o.state)))
  {
    var s := Init(n, files);
    InitIsSafe(n, files);
    if events != [] {
      var last, before := events[|events| - 1], events[..|events| - 1];
      RunIsSafe(n, files, before);
      var o := Execute(s, before);
      if o.Next? {
        StepIsSafe(o.state, last.agent, last.action);
        if Execute(s, events).Next? {
          StepRefines(o.state, last.agent, last.action);
          SlotsStay(o.state, last.agent, last.action);
          OpenWithinSlots(Execute(s, events).state);
          var ops := OpsOf(s, events);
          assert ops[..|ops| - 1] == OpsOf(s, before);
        }
      }
    }
  }

  // --- handles are issued once

  /** The handle a step issues, if it takes a slot. */
  function IssuedBy(s: State, a: Action): seq<Handle> {
    if (a.Take? || a.Create?) && a.slot < |s.slots| then [Handle(a.slot, s.slots[a.slot].tag + 1)] else []
  }

  ghost function Issued(s: State, events: seq<Event>): seq<Handle>
    requires Execute(s, events).Next?
  {
    if events == [] then []
    else
      var before := events[..|events| - 1];
      Issued(s, before) + IssuedBy(Execute(s, before).state, events[|events| - 1].action)
  }

  lemma TagsGrow(s: State, t: Agent, a: Action, i: nat)
    requires Step(s, t, a).Next? && i < |s.slots|
    ensures var s' := Step(s, t, a).state;
            i < |s'.slots| && s.slots[i].tag <= s'.slots[i].tag &&
            (IssuedBy(s, a) != [] && i == a.slot ==> s.slots[i].tag < s'.slots[i].tag)
  {
  }

  predicate NoRepeats(hs: seq<Handle>) {
    forall j, k :: 0 <= j < k < |hs| ==> hs[j] != hs[k]
  }

  predicate PastTags(s: State, hs: seq<Handle>) {
    forall j :: 0 <= j < |hs| ==> hs[j].index < |s.slots| && hs[j].tag <= s.slots[hs[j].index].tag
  }

  /** Over a whole run no (slot, tag) pair is issued twice. */
  lemma {:induction false} HandlesIssuedOnce(s: State, events: seq<Event>)
    requires Execute(s, events).Next?
    ensures NoRepeats(Issued(s, events)) && PastTags(Execute(s, events).state, Issued(s, events))
  {
    if events != [] {
      var last, before := events[|events| - 1], events[..|events| - 1];
      HandlesIssuedOnce(s, before);
      var s1, s2 := Execute(s, before).state, Execute(s, events).state;
      SlotsStay(s1, last.agent, last.action);
      forall i | 0 <= i < |s1.slots| ensures s1.slots[i].tag <= s2.slots[i].tag {
        TagsGrow(s1, last.agent, last.action, i);
      }
      if IssuedBy(s1, last.action) != [] { TagsGrow(s1, last.agent, last.action, last.action.slot); }
    }
  }

  // --- the closure runs once for each call

  /** The call of t has run its closure and has not returned yet. */
  predicate HasRun(pc: Pc) {
    (pc.InSlot? && pc.ran) || pc.Ran? || pc.Stored? || (pc.Unslotted? && pc.done)
  }

  /** This step makes t's call return a result of its closure. */
  predicate Returns(s: State, t: Agent, a: Action) {
    a.ReleaseRead? || (a.ReleaseHandle? && PcOf(s, t).Unslotted? && PcOf(s, t).done)
  }

  function One(b: bool): nat {
    if b then 1 else 0
  }

  ghost function Runs(s: State, events: seq<Event>, t: Agent): nat
    requires Execute(s, events).Next?
  {
    if events == [] then 0
    else
      var last := events[|events| - 1];
      Runs(s, events[..|events| - 1], t) + One(last.agent == t && last.action.Run?)
  }

  ghost function Returned(s: State, events: seq<Event>, t: Agent): nat
    requires Execute(s, events).Next?
  {
    if events == [] then 0
    else
      var last, before := events[|events| - 1], events[..|events| - 1];
      Returned(s, before, t) + One(last.agent == t && Returns(Execute(s, before).state, t, last.action))
  }

  /** A step moves only the agent that takes it. */
  lemma OthersStay(s: State, t: Agent, a: Action, u: Agent)
    requires Step(s, t, a).Next? && t != u
    ensures PcOf(Step(s, t, a).state, u) == PcOf(s, u)
  {
  }

  lemma OwnRun(s: State, t: Agent, a: Action)
    requires Step(s, t, a).Next?
    ensures One(HasRun(PcOf(Step(s, t, a).state, t))) + One(Returns(s, t, a)) == One(HasRun(PcOf(s, t))) + One(a.Run?)
  {
  }

  lemma StepRunsOnce(s: State, t: Agent, a: Action, u: Agent)
    requires Step(s, t, a).Next?
    ensures One(HasRun(PcOf(Step(s, t, a).state, u))) + One(t == u && Returns(s, u, a)) ==
            One(HasRun(PcOf(s, u))) + One(t == u && a.Run?)
  {
    if t == u {
      OwnRun(s, t, a);
    } else {
      OthersStay(s, t, a, u);
    }
  }

  /** Every call that returned a result ran its closure exactly once; no other finished call ran it. */
  lemma {:induction false} EachCallRunsOnce(n: nat, files: map<Path, Content>, events: seq<Event>, t: Agent)
    requires Execute(Init(n, files), events).Next?
    ensures var s := Init(n, files);
            Runs(s, events, t) == Returned(s, events, t) + One(HasRun(PcOf(Execute(s, events).state, t)))
  {
    if events != [] {
      var last, before := events[|events| - 1], events[..|events| - 1];
      EachCallRunsOnce(n, files, before, t);
      StepRunsOnce(Execute(Init(n, files), before).state, last.agent, last.action, t);
    }
  }
}
