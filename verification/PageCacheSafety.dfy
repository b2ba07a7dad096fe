/** What every interleaving of the page cache keeps. */
module PageCacheSafety {
  import opened Options
  import opened PageCacheTypes
  import opened PageCacheMachine

  // --- one agent and one slot

  /** What an agent at pc knows about a slot whose write lock it holds. */
  predicate HolderKnows(pc: Pc, slot: Slot) {
    match pc
    case Victim(_, _, _) => slot.key.Some? ==> slot.filled
    case WrittenBack(_, _, _) => slot.key.Some? && slot.key.value.EphemeralPage? && slot.filled
    case Unmapped(_, _, _) => slot.key.Some?
    case Empty(_, _, _) => slot.key.None?
    case Inserted(_, _, _) => slot.key.None?
    case Guard(k, _, valid, touched) =>
      slot.key == Some(k) && (valid <==> slot.filled) && (touched ==> valid && k.EphemeralPage?)
    case Abandoned(k, _) => slot.key == Some(k)
    case ScanHeld(kind, f, _) => BelongsTo(slot.key, kind, f) && slot.filled
    case ScanUnmapped(kind, f, _) => BelongsTo(slot.key, kind, f)
    case _ => true
  }

  /** Agent t at pc works on slot i: it holds the lock its position says. */
  predicate PairOk(t: Agent, pc: Pc, i: nat, slot: Slot) {
    && (HoldsWrite(pc) ==> pc.slot == i && slot.writer == Some(t) && HolderKnows(pc, slot))
    && (pc.Reading? ==> pc.slot == i && t in slot.readers && slot.key == Some(pc.key))
    && (slot.writer == Some(t) ==> HoldsWrite(pc))
    && (t in slot.readers ==> pc.Reading?)
  }

  predicate SlotOk(slot: Slot) {
    && (slot.writer.Some? ==> slot.readers == {})
    && (slot.writer.None? && slot.key.Some? ==> slot.filled)
    && (slot.dirty ==> slot.key.Some? && slot.key.value.EphemeralPage?)
  }

  /** The key a slot stands for in the mapping: its own key, except that an agent between
      try_insert_mapping and storing the key has claimed it already, and one between
      remove_mapping and clearing the key claims it no longer. */
  function ClaimBy(pc: Pc, slot: Slot): Option<CacheKey> {
    match pc
    case Inserted(req, _, _) => Some(req)
    case Unmapped(_, _, _) => None
    case Abandoned(_, _) => None
    case ScanUnmapped(_, _, _) => None
    case _ => slot.key
  }

  predicate Scans(pc: Pc) {
    pc.Scan? || pc.ScanHeld? || pc.ScanUnmapped?
  }

  /** How a step at a slot may change the lock, the key, and the claim. */
  ghost predicate EffectOk(t: Agent, pc: Pc, slot: Slot, i: nat, e: Effect)
    requires e.Do?
  {
    && PairOk(t, e.pc, i, e.slot) && SlotOk(e.slot)
    && (forall u :: u != t ==> (u in e.slot.readers <==> u in slot.readers))
    && (slot.writer.None? || slot.writer == Some(t)) && (e.slot.writer.None? || e.slot.writer == Some(t))
    && (slot.writer.None? ==> e.slot.key == slot.key)
    && !e.pc.Found? && (Scans(e.pc) ==> Scans(pc) && e.pc.kind == pc.kind && e.pc.fileId == pc.fileId)
    && match e.map'
       case Keep => ClaimBy(e.pc, e.slot) == ClaimBy(pc, slot)
       case Add(k) => ClaimBy(pc, slot) == None && ClaimBy(e.pc, e.slot) == Some(k)
       case Remove(k) => ClaimBy(pc, slot) == Some(k) && ClaimBy(e.pc, e.slot) == None
  }

  lemma LockEffectIsOk(t: Agent, pc: Pc, slot: Slot, i: nat)
    requires PairOk(t, pc, i, slot) && SlotOk(slot) && !HoldsWrite(pc) && LockAt(t, pc, slot, i).Do?
    ensures EffectOk(t, pc, slot, i, LockAt(t, pc, slot, i))
  {
  }

  lemma EvictEffectIsOk(t: Agent, pc: Pc, slot: Slot, i: nat, a: Action)
    requires PairOk(t, pc, i, slot) && SlotOk(slot) && (pc.Victim? || pc.WrittenBack? || pc.Unmapped?)
             && EvictAt(pc, slot, i, a).Do?
    ensures EffectOk(t, pc, slot, i, EvictAt(pc, slot, i, a))
  {
  }

  lemma GuardEffectIsOk(disk: map<CacheKey, Page>, t: Agent, pc: Pc, slot: Slot, i: nat, a: Action)
    requires PairOk(t, pc, i, slot) && SlotOk(slot) && pc.Guard? && GuardAt(disk, pc, slot, a).Do?
    ensures EffectOk(t, pc, slot, i, GuardAt(disk, pc, slot, a))
  {
  }

  lemma EffectIsOk(s: State, t: Agent, slot: Slot, i: nat, a: Action)
    requires PairOk(t, PcOf(s, t), i, slot) && SlotOk(slot)
    requires EffectAt(s, t, slot, i, a).Do?
    ensures EffectOk(t, PcOf(s, t), slot, i, EffectAt(s, t, slot, i, a))
  {
    var pc := PcOf(s, t);
    if !HoldsWrite(pc) {
      LockEffectIsOk(t, pc, slot, i);
    } else if pc.Victim? || pc.WrittenBack? || pc.Unmapped? {
      EvictEffectIsOk(t, pc, slot, i, a);
    } else if pc.Guard? {
      GuardEffectIsOk(s.disk, t, pc, slot, i, a);
    }
  }

  // --- page contents at one slot

  /** The buffer may be newer than the disk. */
  predicate Ahead(holder: Pc, slot: Slot) {
    (slot.dirty || (holder.Guard? && holder.touched)) && !holder.WrittenBack?
  }

  /** The slot shows a page for k: it has the key and mark_valid was called. */
  predicate Shows(slot: Slot, k: CacheKey) {
    slot.key == Some(k) && slot.filled
  }

  /** What the slot claimed for k, the disk page d and the stored contents c have to do with each other. */
  predicate DataAt(holder: Pc, slot: Slot, k: CacheKey, d: Page, c: Page) {
    if Shows(slot, k) then slot.buf == c && (Ahead(holder, slot) || d == c) else d == c
  }

  function DiskAfter(e: Effect, k: CacheKey, d: Page): Page
    requires e.Do?
  {
    if e.page'.ToDisk? && e.page'.key == k then e.page'.page else d
  }

  function ContentsAfter(e: Effect, k: CacheKey, c: Page): Page
    requires e.Do?
  {
    if e.page'.ToContents? && e.page'.key == k then e.page'.page else c
  }

  /** The data of page k is in order at the slot before the step. */
  predicate DataBefore(pc: Pc, slot: Slot, e: Effect, k: CacheKey, d: Page, c: Page)
    requires e.Do?
  {
    if ClaimBy(pc, slot) == Some(k) then DataAt(pc, slot, k, d, c) else e.map' == Add(k) && d == c
  }

  /** ... and after it; a page that is unmapped is left intact on disk. */
  predicate DataKept(e: Effect, k: CacheKey, d: Page, c: Page)
    requires e.Do?
  {
    var d', c' := DiskAfter(e, k, d), ContentsAfter(e, k, c);
    if e.map' == Remove(k) then d' == c' else DataAt(e.pc, e.slot, k, d', c')
  }

  lemma EvictKeepsData(pc: Pc, slot: Slot, i: nat, a: Action, k: CacheKey, d: Page, c: Page)
    requires (pc.Victim? || pc.WrittenBack? || pc.Unmapped?) && HolderKnows(pc, slot) && SlotOk(slot)
    requires EvictAt(pc, slot, i, a).Do? && DataBefore(pc, slot, EvictAt(pc, slot, i, a), k, d, c)
    ensures DataKept(EvictAt(pc, slot, i, a), k, d, c)
  {
  }

  lemma GuardKeepsData(disk: map<CacheKey, Page>, pc: Pc, slot: Slot, a: Action, k: CacheKey, c: Page)
    requires pc.Guard? && HolderKnows(pc, slot) && SlotOk(slot)
    requires GuardAt(disk, pc, slot, a).Do? && DataBefore(pc, slot, GuardAt(disk, pc, slot, a), k, PageOf(disk, k), c)
    ensures DataKept(GuardAt(disk, pc, slot, a), k, PageOf(disk, k), c)
  {
  }

  lemma InsertKeepsData(m: map<CacheKey, nat>, pc: Pc, slot: Slot, i: nat, a: Action, k: CacheKey, d: Page, c: Page)
    requires (pc.Empty? || pc.Inserted?) && HolderKnows(pc, slot) && SlotOk(slot)
    requires InsertAt(m, pc, slot, i, a).Do? && DataBefore(pc, slot, InsertAt(m, pc, slot, i, a), k, d, c)
    ensures DataKept(InsertAt(m, pc, slot, i, a), k, d, c)
  {
  }

  lemma LockKeepsData(t: Agent, pc: Pc, slot: Slot, i: nat, k: CacheKey, d: Page, c: Page)
    requires !HoldsWrite(pc) && SlotOk(slot) && LockAt(t, pc, slot, i).Do?
             && DataBefore(pc, slot, LockAt(t, pc, slot, i), k, d, c)
    ensures DataKept(LockAt(t, pc, slot, i), k, d, c)
  {
  }

  /** A step keeps a claimed page's data; a step that unmaps a page leaves it intact on disk,
      unless drop_buffers throws away a page of a dropped ephemeral file. */
  lemma EffectKeepsData(s: State, t: Agent, slot: Slot, i: nat, a: Action, k: CacheKey, c: Page)
    requires PairOk(t, PcOf(s, t), i, slot) && SlotOk(slot)
    requires EffectAt(s, t, slot, i, a).Do?
    requires DataBefore(PcOf(s, t), slot, EffectAt(s, t, slot, i, a), k, PageOf(s.disk, k), c)
    requires PcOf(s, t).ScanHeld? ==> !k.EphemeralPage?
    ensures DataKept(EffectAt(s, t, slot, i, a), k, PageOf(s.disk, k), c)
  {
    var pc, d := PcOf(s, t), PageOf(s.disk, k);
    if !HoldsWrite(pc) {
      LockKeepsData(t, pc, slot, i, k, d, c);
    } else if pc.Victim? || pc.WrittenBack? || pc.Unmapped? {
      EvictKeepsData(pc, slot, i, a, k, d, c);
    } else if pc.Empty? || pc.Inserted? {
      InsertKeepsData(s.mapping, pc, slot, i, a, k, d, c);
    } else if pc.Guard? {
      GuardKeepsData(s.disk, pc, slot, a, k, c);
    }
  }

  lemma GuardEffects(disk: map<CacheKey, Page>, pc: Pc, slot: Slot, a: Action, c: Page)
    requires pc.Guard? && HolderKnows(pc, slot) && SlotOk(slot)
    ensures var e := GuardAt(disk, pc, slot, a);
            && (e.Do? && !e.page'.NoPage? ==>
                  a.WriteBuf? && pc.valid && e.page' == ToContents(pc.key, a.data) && ClaimBy(pc, slot) == Some(pc.key))
            && (e.Do? && a.WriteBuf? && pc.valid ==> !e.page'.NoPage?)
            && ((pc.key.MaterializedPage? ==> DataAt(pc, slot, pc.key, PageOf(disk, pc.key), c)) ==> !e.Crash?)
  {
  }

  lemma EvictEffects(pc: Pc, slot: Slot, i: nat, a: Action)
    requires pc.Victim? || pc.WrittenBack? || pc.Unmapped?
    ensures var e := EvictAt(pc, slot, i, a);
            !e.Crash? && (e.Do? && !e.page'.NoPage? ==> e.page'.ToDisk? && ClaimBy(pc, slot) == Some(e.page'.key))
  {
  }

  lemma OtherEffects(s: State, t: Agent, slot: Slot, i: nat, a: Action)
    requires PairOk(t, PcOf(s, t), i, slot) && !PcOf(s, t).Guard?
    requires !(PcOf(s, t).Victim? || PcOf(s, t).WrittenBack? || PcOf(s, t).Unmapped?)
    ensures var e := EffectAt(s, t, slot, i, a); !e.Crash? && (e.Do? ==> e.page'.NoPage?)
  {
  }

  /** The only page a step writes is the one its slot claims; contents change only through a valid guard. */
  lemma EffectWritesOwnPage(s: State, t: Agent, slot: Slot, i: nat, a: Action)
    requires PairOk(t, PcOf(s, t), i, slot) && SlotOk(slot) && EffectAt(s, t, slot, i, a).Do?
    ensures var e, pc := EffectAt(s, t, slot, i, a), PcOf(s, t);
            && (!e.page'.NoPage? ==> ClaimBy(pc, slot) == Some(e.page'.key))
            && (e.page'.ToContents? <==> a.WriteBuf? && pc.Guard? && pc.valid)
            && (e.page'.ToContents? ==> e.page' == ToContents(pc.key, a.data))
  {
    var pc := PcOf(s, t);
    if pc.Guard? {
      GuardEffects(s.disk, pc, slot, a, []);
    } else if pc.Victim? || pc.WrittenBack? || pc.Unmapped? {
      EvictEffects(pc, slot, i, a);
    } else {
      OtherEffects(s, t, slot, i, a);
    }
  }

  /** No assertion on a slot fails: a guard always has a key, only ephemeral pages get dirty, and
      memorizing a page again finds the same image. */
  lemma EffectNeverCrashes(s: State, t: Agent, slot: Slot, i: nat, a: Action, c: Page)
    requires PairOk(t, PcOf(s, t), i, slot) && SlotOk(slot)
    requires PcOf(s, t).Guard? && PcOf(s, t).key.MaterializedPage? ==>
               DataAt(PcOf(s, t), slot, PcOf(s, t).key, PageOf(s.disk, PcOf(s, t).key), c)
    ensures !EffectAt(s, t, slot, i, a).Crash?
  {
    var pc := PcOf(s, t);
    if pc.Guard? {
      GuardEffects(s.disk, pc, slot, a, c);
    } else if pc.Victim? || pc.WrittenBack? || pc.Unmapped? {
      EvictEffects(pc, slot, i, a);
    } else {
      OtherEffects(s, t, slot, i, a);
    }
  }

  // --- the whole state

  function Holder(s: State, i: nat): Pc
    requires i < |s.slots|
  {
    if s.slots[i].writer.Some? then PcOf(s, s.slots[i].writer.value) else Idle
  }

  function Claim(s: State, i: nat): Option<CacheKey>
    requires i < |s.slots|
  {
    ClaimBy(Holder(s, i), s.slots[i])
  }

  ghost predicate AgentOk(s: State, t: Agent) {
    var pc := PcOf(s, t);
    && (HoldsWrite(pc) || pc.Reading? ==> pc.slot < |s.slots| && PairOk(t, pc, pc.slot, s.slots[pc.slot]))
    && (forall i :: 0 <= i < |s.slots| && s.slots[i].writer == Some(t) ==> HoldsWrite(pc) && pc.slot == i)
    && (forall i :: 0 <= i < |s.slots| && t in s.slots[i].readers ==> pc.Reading? && pc.slot == i)
    && (pc.Found? ==> pc.slot < |s.slots|)
    && (Scans(pc) ==>
          !pc.kind.Materialized? && (pc.kind.Ephemeral? ==> pc.fileId in s.dropped))
  }

  ghost predicate LocksOk(s: State) {
    && (forall t: Agent :: AgentOk(s, t))
    && (forall i :: 0 <= i < |s.slots| ==> SlotOk(s.slots[i]))
  }

  /** The mapping and the slots' claims are inverse to each other. */
  ghost predicate MappingOk(s: State) {
    && (forall k :: k in s.mapping ==> s.mapping[k] < |s.slots| && Claim(s, s.mapping[k]) == Some(k))
    && (forall i :: 0 <= i < |s.slots| && Claim(s, i).Some? ==>
          Claim(s, i).value in s.mapping && s.mapping[Claim(s, i).value] == i)
  }

  lemma PairAtTarget(s: State, t: Agent, a: Action, i: nat)
    requires LocksOk(s) && i < |s.slots| && Target(PcOf(s, t), a) == Some(i)
    ensures PairOk(t, PcOf(s, t), i, s.slots[i])
  {
    assert AgentOk(s, t);
  }

  lemma ApplyKeepsOwn(s: State, t: Agent, i: nat, e: Effect)
    requires AgentOk(s, t) && i < |s.slots| && e.Do? && Apply(s, t, i, e).Next?
    requires PairOk(t, PcOf(s, t), i, s.slots[i]) && EffectOk(t, PcOf(s, t), s.slots[i], i, e)
    ensures AgentOk(Apply(s, t, i, e).state, t)
  {
  }

  lemma ApplyKeepsOther(s: State, t: Agent, i: nat, e: Effect, u: Agent)
    requires AgentOk(s, u) && u != t && i < |s.slots| && SlotOk(s.slots[i]) && e.Do? && Apply(s, t, i, e).Next?
    requires PairOk(t, PcOf(s, t), i, s.slots[i]) && EffectOk(t, PcOf(s, t), s.slots[i], i, e)
    ensures AgentOk(Apply(s, t, i, e).state, u)
  {
  }

  lemma ApplyKeepsLocks(s: State, t: Agent, i: nat, e: Effect)
    requires LocksOk(s) && i < |s.slots| && e.Do? && Apply(s, t, i, e).Next?
    requires PairOk(t, PcOf(s, t), i, s.slots[i]) && EffectOk(t, PcOf(s, t), s.slots[i], i, e)
    ensures LocksOk(Apply(s, t, i, e).state)
  {
    forall u: Agent ensures AgentOk(Apply(s, t, i, e).state, u) {
      assert AgentOk(s, u);
      if u == t {
        ApplyKeepsOwn(s, t, i, e);
      } else {
        ApplyKeepsOther(s, t, i, e, u);
      }
    }
  }

  // --- the mapping

  ghost predicate GaugesOk(s: State) {
    && s.gauges.Keys == {Materialized, Ephemeral, Immutable}
    && forall kind :: kind in s.gauges ==> s.gauges[kind] == PAGE_SZ * |KeysOfKind(s.mapping, kind)|
  }

  /** A step changes the claim of its own slot only. */
  lemma ApplyKeepsOtherClaims(s: State, t: Agent, i: nat, e: Effect, j: nat)
    requires LocksOk(s) && i < |s.slots| && j < |s.slots| && e.Do? && Apply(s, t, i, e).Next?
    requires PairOk(t, PcOf(s, t), i, s.slots[i]) && EffectOk(t, PcOf(s, t), s.slots[i], i, e)
    ensures j != i ==> Holder(Apply(s, t, i, e).state, j) == Holder(s, j)
    ensures j != i ==> Claim(Apply(s, t, i, e).state, j) == Claim(s, j)
    ensures j == i ==> Claim(s, i) == ClaimBy(PcOf(s, t), s.slots[i])
    ensures j == i ==> Claim(Apply(s, t, i, e).state, i) == ClaimBy(e.pc, e.slot)
  {
    assert AgentOk(s, t);
  }

  lemma ApplyKeepsMapping(s: State, t: Agent, i: nat, e: Effect)
    requires LocksOk(s) && MappingOk(s) && i < |s.slots| && e.Do? && Apply(s, t, i, e).Next?
    requires PairOk(t, PcOf(s, t), i, s.slots[i]) && EffectOk(t, PcOf(s, t), s.slots[i], i, e)
    requires e.map'.Add? ==> e.map'.key !in s.mapping
    ensures MappingOk(Apply(s, t, i, e).state)
  {
    var s' := Apply(s, t, i, e).state;
    ApplyKeepsOtherClaims(s, t, i, e, i);
    forall j | 0 <= j < |s.slots| && Claim(s', j).Some?
      ensures Claim(s', j).value in s'.mapping && s'.mapping[Claim(s', j).value] == j
    {
      ApplyKeepsOtherClaims(s, t, i, e, j);
    }
    forall k | k in s'.mapping ensures s'.mapping[k] < |s.slots| && Claim(s', s'.mapping[k]) == Some(k) {
      ApplyKeepsOtherClaims(s, t, i, e, s'.mapping[k]);
    }
  }

  lemma ApplyKeepsGauges(s: State, t: Agent, i: nat, e: Effect)
    requires GaugesOk(s) && i < |s.slots| && e.Do? && Apply(s, t, i, e).Next?
    requires e.map'.Add? ==> e.map'.key !in s.mapping
    ensures GaugesOk(Apply(s, t, i, e).state)
  {
    var s' := Apply(s, t, i, e).state;
    forall kind ensures kind in s'.gauges ==> s'.gauges[kind] == PAGE_SZ * |KeysOfKind(s'.mapping, kind)| {
      if e.map'.Add? { CountAfterInsert(s.mapping, e.map'.key, i, kind); }
      if e.map'.Remove? { CountAfterRemove(s.mapping, e.map'.key, kind); }
    }
  }

  // --- page contents

  predicate Live(s: State, k: CacheKey) {
    !(k.EphemeralPage? && k.fileId in s.dropped)
  }

  /** What a caller would find for k: the cached buffer if one is mapped and valid, else the disk. */
  function View(s: State, k: CacheKey): Page {
    if k in s.mapping && s.mapping[k] < |s.slots| && Shows(s.slots[s.mapping[k]], k)
    then s.slots[s.mapping[k]].buf
    else PageOf(s.disk, k)
  }

  ghost predicate PageIsOk(s: State, k: CacheKey) {
    var d, c := PageOf(s.disk, k), PageOf(s.contents, k);
    if k in s.mapping then s.mapping[k] < |s.slots| && DataAt(Holder(s, s.mapping[k]), s.slots[s.mapping[k]], k, d, c)
    else d == c
  }

  ghost predicate DataOk(s: State) {
    forall k :: Live(s, k) ==> PageIsOk(s, k)
  }

  ghost predicate Inv(s: State) {
    LocksOk(s) && MappingOk(s) && GaugesOk(s) && DataOk(s)
  }

  /** What an effect must do to page k: keep the data if the slot claims k, else leave k alone. */
  predicate PageEffectOk(s: State, t: Agent, slot: Slot, e: Effect, k: CacheKey)
    requires e.Do?
  {
    var d', c' := DiskAfter(e, k, PageOf(s.disk, k)), ContentsAfter(e, k, PageOf(s.contents, k));
    if ClaimBy(PcOf(s, t), slot) != Some(k) && e.map' != Add(k)
    then d' == PageOf(s.disk, k) && c' == PageOf(s.contents, k)
    else if e.map' == Remove(k) then d' == c'
    else DataAt(e.pc, e.slot, k, d', c')
  }

  lemma OwnPageIsOk(s: State, t: Agent, a: Action, i: nat, k: CacheKey)
    requires Inv(s) && i < |s.slots| && Live(s, k) && PairOk(t, PcOf(s, t), i, s.slots[i])
    requires EffectAt(s, t, s.slots[i], i, a).Do?
    requires EffectAt(s, t, s.slots[i], i, a).map' == Add(k) ==> k !in s.mapping
    requires Claim(s, i) == ClaimBy(PcOf(s, t), s.slots[i])
    requires Claim(s, i) == Some(k) || EffectAt(s, t, s.slots[i], i, a).map' == Add(k)
    ensures PageEffectOk(s, t, s.slots[i], EffectAt(s, t, s.slots[i], i, a), k)
  {
    assert PageIsOk(s, k) && AgentOk(s, t) && SlotOk(s.slots[i]);
    EffectKeepsData(s, t, s.slots[i], i, a, k, PageOf(s.contents, k));
  }

  lemma PageEffectIsOk(s: State, t: Agent, a: Action, i: nat, k: CacheKey)
    requires Inv(s) && i < |s.slots| && Live(s, k) && PairOk(t, PcOf(s, t), i, s.slots[i])
    requires EffectAt(s, t, s.slots[i], i, a).Do?
    requires EffectAt(s, t, s.slots[i], i, a).map' == Add(k) ==> k !in s.mapping
    requires Claim(s, i) == ClaimBy(PcOf(s, t), s.slots[i])
    ensures PageEffectOk(s, t, s.slots[i], EffectAt(s, t, s.slots[i], i, a), k)
  {
    var e := EffectAt(s, t, s.slots[i], i, a);
    if Claim(s, i) == Some(k) || e.map' == Add(k) {
      OwnPageIsOk(s, t, a, i, k);
    } else if !e.page'.NoPage? {
      EffectWritesOwnPage(s, t, s.slots[i], i, a);
    }
  }

  lemma ApplyKeepsOwnPage(s: State, t: Agent, i: nat, e: Effect, k: CacheKey)
    requires e.Do? && i < |s.slots| && Apply(s, t, i, e).Next? && PageEffectOk(s, t, s.slots[i], e, k)
    requires PairOk(t, e.pc, i, e.slot) && (e.slot.writer.None? || e.slot.writer == Some(t))
    requires ClaimBy(PcOf(s, t), s.slots[i]) == Some(k) || e.map' == Add(k)
    requires var s' := Apply(s, t, i, e).state; k in s'.mapping ==> s'.mapping[k] == i
    requires k !in Apply(s, t, i, e).state.mapping ==> e.map' == Remove(k)
    requires ClaimBy(e.pc, e.slot) == Some(k) || e.map' == Remove(k)
    ensures PageIsOk(Apply(s, t, i, e).state, k)
  {
  }

  lemma ApplyKeepsOtherPage(s: State, t: Agent, i: nat, e: Effect, k: CacheKey)
    requires PageIsOk(s, k) && e.Do? && i < |s.slots| && Apply(s, t, i, e).Next? && PageEffectOk(s, t, s.slots[i], e, k)
    requires ClaimBy(PcOf(s, t), s.slots[i]) != Some(k) && e.map' != Add(k) && e.map' != Remove(k)
    requires k in s.mapping ==>
               s.mapping[k] != i && Holder(Apply(s, t, i, e).state, s.mapping[k]) == Holder(s, s.mapping[k])
    ensures PageIsOk(Apply(s, t, i, e).state, k)
  {
  }

  lemma ApplyKeepsPage(s: State, t: Agent, i: nat, e: Effect, k: CacheKey)
    requires LocksOk(s) && MappingOk(s) && PageIsOk(s, k) && i < |s.slots|
    requires e.Do? && Apply(s, t, i, e).Next? && (e.map'.Add? ==> e.map'.key !in s.mapping)
    requires PairOk(t, PcOf(s, t), i, s.slots[i]) && EffectOk(t, PcOf(s, t), s.slots[i], i, e)
    requires PageEffectOk(s, t, s.slots[i], e, k)
    ensures PageIsOk(Apply(s, t, i, e).state, k)
  {
    ApplyKeepsOtherClaims(s, t, i, e, i);
    if Claim(s, i) == Some(k) || e.map' == Add(k) {
      ApplyKeepsOwnPage(s, t, i, e, k);
    } else {
      if k in s.mapping { ApplyKeepsOtherClaims(s, t, i, e, s.mapping[k]); }
      ApplyKeepsOtherPage(s, t, i, e, k);
    }
  }

  // --- steps

  lemma AddIsNew(s: State, t: Agent, slot: Slot, i: nat, a: Action)
    requires EffectAt(s, t, slot, i, a).Do? && EffectAt(s, t, slot, i, a).map'.Add?
    ensures EffectAt(s, t, slot, i, a).map'.key !in s.mapping
  {
  }

  lemma SlotStepKeepsInv(s: State, t: Agent, a: Action, i: nat)
    requires Inv(s) && i < |s.slots| && Target(PcOf(s, t), a) == Some(i)
    requires EffectAt(s, t, s.slots[i], i, a).Do? && Apply(s, t, i, EffectAt(s, t, s.slots[i], i, a)).Next?
    ensures Inv(Apply(s, t, i, EffectAt(s, t, s.slots[i], i, a)).state)
  {
    var e := EffectAt(s, t, s.slots[i], i, a);
    var s' := Apply(s, t, i, e).state;
    assert AgentOk(s, t) && SlotOk(s.slots[i]);
    PairAtTarget(s, t, a, i);
    EffectIsOk(s, t, s.slots[i], i, a);
    if e.map'.Add? { AddIsNew(s, t, s.slots[i], i, a); }
    ApplyKeepsLocks(s, t, i, e);
    ApplyKeepsMapping(s, t, i, e);
    ApplyKeepsGauges(s, t, i, e);
    ApplyKeepsOtherClaims(s, t, i, e, i);
    forall k | Live(s', k) ensures PageIsOk(s', k) {
      assert PageIsOk(s, k);
      PageEffectIsOk(s, t, a, i, k);
      ApplyKeepsPage(s, t, i, e, k);
    }
  }

  lemma MoveKeepsInv(s: State, t: Agent, pc: Pc, dropped: set<nat>)
    requires Inv(s) && !HoldsWrite(PcOf(s, t)) && !PcOf(s, t).Reading? && !HoldsWrite(pc) && !pc.Reading?
    requires s.dropped <= dropped && AgentOk(s.(pcs := s.pcs[t := pc], dropped := dropped), t)
    ensures Inv(s.(pcs := s.pcs[t := pc], dropped := dropped))
  {
    var s' := s.(pcs := s.pcs[t := pc], dropped := dropped);
    forall u: Agent ensures AgentOk(s', u) {
      assert AgentOk(s, u);
    }
    forall i | 0 <= i < |s.slots| ensures Holder(s', i) == Holder(s, i) && Claim(s', i) == Claim(s, i) {
    }
    forall k | Live(s', k) ensures PageIsOk(s', k) {
      assert PageIsOk(s, k);
    }
  }

  lemma MovesOnly(s: State, t: Agent, a: Action)
    requires Move(s, t, a).Next? && AgentOk(s, t) && MappingOk(s)
    ensures var s', pc := Move(s, t, a).state, PcOf(Move(s, t, a).state, t);
            && s' == s.(pcs := s.pcs[t := pc], dropped := s'.dropped)
            && s.dropped <= s'.dropped && AgentOk(s', t) && !HoldsWrite(pc) && !pc.Reading?
            && !HoldsWrite(PcOf(s, t)) && !PcOf(s, t).Reading?
  {
  }

  /** Only a scan steps to a slot beyond the last, and ends there. */
  lemma ScanEnds(s: State, t: Agent, a: Action)
    requires Step(s, t, a).Next? && AgentOk(s, t)
    requires Target(PcOf(s, t), a).Some? && Target(PcOf(s, t), a).value >= |s.slots|
    ensures PcOf(s, t).Scan? && Step(s, t, a).state == s.(pcs := s.pcs[t := Idle]) && AgentOk(Step(s, t, a).state, t)
  {
  }

  lemma MoveShape(s: State, t: Agent, a: Action)
    requires Step(s, t, a).Next? && AgentOk(s, t) && MappingOk(s)
    requires Target(PcOf(s, t), a).Some? ==> Target(PcOf(s, t), a).value >= |s.slots|
    ensures var s', pc := Step(s, t, a).state, PcOf(Step(s, t, a).state, t);
            && s' == s.(pcs := s.pcs[t := pc], dropped := s'.dropped)
            && s.dropped <= s'.dropped && AgentOk(s', t) && !HoldsWrite(pc) && !pc.Reading?
            && !HoldsWrite(PcOf(s, t)) && !PcOf(s, t).Reading?
  {
    if Target(PcOf(s, t), a).None? {
      MovesOnly(s, t, a);
    } else {
      ScanEnds(s, t, a);
    }
  }

  lemma StepKeepsInv(s: State, t: Agent, a: Action)
    requires Inv(s) && Step(s, t, a).Next?
    ensures Inv(Step(s, t, a).state)
  {
    var target := Target(PcOf(s, t), a);
    assert AgentOk(s, t);
    if target.Some? && target.value < |s.slots| {
      SlotStepKeepsInv(s, t, a, target.value);
    } else {
      MoveShape(s, t, a);
      var s' := Step(s, t, a).state;
      MoveKeepsInv(s, t, PcOf(s', t), s'.dropped);
    }
  }

  lemma SlotStepNeverPanics(s: State, t: Agent, a: Action, i: nat)
    requires Inv(s) && i < |s.slots| && PairOk(t, PcOf(s, t), i, s.slots[i])
    ensures var e := EffectAt(s, t, s.slots[i], i, a);
            !e.Crash? && (e.Do? && e.map'.Remove? ==> e.map'.key in s.mapping)
  {
    var pc := PcOf(s, t);
    var e := EffectAt(s, t, s.slots[i], i, a);
    assert SlotOk(s.slots[i]);
    if pc.Guard? {
      assert Claim(s, i) == Some(pc.key);
      assert pc.key.MaterializedPage? ==> PageIsOk(s, pc.key);
    }
    EffectNeverCrashes(s, t, s.slots[i], i, a, if pc.Guard? then PageOf(s.contents, pc.key) else []);
    if e.Do? && e.map'.Remove? {
      EffectIsOk(s, t, s.slots[i], i, a);
      assert Claim(s, i) == ClaimBy(pc, s.slots[i]);
    }
  }

  lemma TargetInRange(s: State, t: Agent, a: Action)
    requires AgentOk(s, t) && Target(PcOf(s, t), a).Some? && Target(PcOf(s, t), a).value >= |s.slots|
    ensures PcOf(s, t).Scan? || PcOf(s, t).NeedVictim?
  {
  }

  lemma MoveNeverPanics(s: State, t: Agent, a: Action)
    ensures !Move(s, t, a).Panic?
  {
  }

  /** None of the source's asserts, unwraps, expects and index operations fails. */
  lemma StepNeverPanics(s: State, t: Agent, a: Action)
    requires Inv(s)
    ensures !Step(s, t, a).Panic?
  {
    var target := Target(PcOf(s, t), a);
    assert AgentOk(s, t);
    if target.None? {
      MoveNeverPanics(s, t, a);
    } else if target.value < |s.slots| {
      PairAtTarget(s, t, a, target.value);
      SlotStepNeverPanics(s, t, a, target.value);
    } else {
      TargetInRange(s, t, a);
    }
  }

  ghost predicate SafeOutcome(o: Outcome, n: nat) {
    match o
    case Disabled => true
    case Panic => false
    case Next(s) => Inv(s) && |s.slots| == n
  }

  lemma StepIsSafe(s: State, t: Agent, a: Action)
    requires Inv(s)
    ensures SafeOutcome(Step(s, t, a), |s.slots|)
  {
    StepNeverPanics(s, t, a);
    if Step(s, t, a).Next? {
      StepKeepsInv(s, t, a);
      StepKeepsSlotCount(s, t, a);
    }
  }

  lemma StepKeepsSlotCount(s: State, t: Agent, a: Action)
    requires Step(s, t, a).Next?
    ensures |Step(s, t, a).state.slots| == |s.slots|
  {
  }

  lemma InitIsSafe(n: nat, disk: map<CacheKey, Page>)
    ensures Inv(Init(n, disk))
  {
    assert forall kind :: KeysOfKind(Init(n, disk).mapping, kind) == {};
  }

  /** Every interleaving of every number of agents keeps the invariant and never panics. */
  lemma {:induction false} RunIsSafe(n: nat, disk: map<CacheKey, Page>, events: seq<Event>)
    ensures SafeOutcome(Run(Init(n, disk), events), n)
  {
    if events == [] {
      InitIsSafe(n, disk);
    } else {
      var last := events[|events| - 1];
      RunIsSafe(n, disk, events[..|events| - 1]);
      var before := Run(Init(n, disk), events[..|events| - 1]);
      if before.Next? {
        StepIsSafe(before.state, last.agent, last.action);
      }
    }
  }

  // --- what the invariant means to a user of the cache

  /** A slot nobody has write-locked is mapped under its own key, and only it is; a mapping entry
      points to a slot that holds the key, or that its writer is just about to fill. */
  lemma MappingAgreesWithSlots(s: State, k: CacheKey, i: nat, j: nat)
    requires Inv(s) && i < |s.slots| && j < |s.slots|
    ensures s.slots[i].writer.None? && s.slots[i].key == Some(k) ==> k in s.mapping && s.mapping[k] == i
    ensures k in s.mapping && s.mapping[k] == i ==>
              || s.slots[i].key == Some(k)
              || (s.slots[i].writer.Some? && Holder(s, i).Inserted? && Holder(s, i).req == k)
    ensures i != j && s.slots[i].writer.None? && s.slots[j].writer.None? && s.slots[i].key.Some? ==>
              s.slots[i].key != s.slots[j].key
  {
    assert Claim(s, i).Some? && Claim(s, j) == Claim(s, i) ==> i == j;
  }

  lemma {:induction false} InjectionBound(keys: set<CacheKey>, m: map<CacheKey, nat>, n: nat)
    requires keys <= m.Keys && forall k :: k in keys ==> m[k] < n
    requires forall k, l :: k in keys && l in keys && m[k] == m[l] ==> k == l
    ensures |keys| <= n
    decreases n
  {
    if n == 0 {
      assert keys == {};
    } else if exists k :: k in keys && m[k] == n - 1 {
      var k :| k in keys && m[k] == n - 1;
      InjectionBound(keys - {k}, m, n - 1);
    } else {
      InjectionBound(keys, m, n - 1);
    }
  }

  /** The three size gauges count the pages of their kind and together stay within max_bytes. */
  lemma GaugesWithinMaxBytes(s: State)
    requires Inv(s)
    ensures s.gauges.Keys == {Materialized, Ephemeral, Immutable}
    ensures forall kind :: kind in s.gauges ==> s.gauges[kind] == PAGE_SZ * |KeysOfKind(s.mapping, kind)|
    ensures s.gauges[Materialized] + s.gauges[Ephemeral] + s.gauges[Immutable] <= PAGE_SZ * |s.slots|
  {
    var m, e, i := KeysOfKind(s.mapping, Materialized), KeysOfKind(s.mapping, Ephemeral),
      KeysOfKind(s.mapping, Immutable);
    assert |m + e + i| == |m| + |e| + |i|;
    InjectionBound(m + e + i, s.mapping, |s.slots|);
  }

  /** A reader sees a buffer that was marked valid for its key, with what callers stored there. */
  lemma ReaderSeesContents(s: State, t: Agent)
    requires Inv(s) && PcOf(s, t).Reading?
    ensures PcOf(s, t).slot < |s.slots| && Shows(s.slots[PcOf(s, t).slot], PcOf(s, t).key)
    ensures Live(s, PcOf(s, t).key) ==> s.slots[PcOf(s, t).slot].buf == PageOf(s.contents, PcOf(s, t).key)
  {
    var pc := PcOf(s, t);
    assert AgentOk(s, t) && SlotOk(s.slots[pc.slot]);
    assert Claim(s, pc.slot) == Some(pc.key);
    assert Live(s, pc.key) ==> PageIsOk(s, pc.key);
  }

  /** The cache is transparent: what a caller would find is what callers stored. */
  lemma ViewIsContents(s: State, k: CacheKey)
    requires Inv(s) && Live(s, k)
    ensures View(s, k) == PageOf(s.contents, k)
  {
    assert PageIsOk(s, k);
  }

  lemma ApplyContents(s: State, t: Agent, i: nat, e: Effect, k: CacheKey)
    requires i < |s.slots| && Apply(s, t, i, e).Next?
    ensures PageOf(Apply(s, t, i, e).state.contents, k) == ContentsAfter(e, k, PageOf(s.contents, k))
    ensures Apply(s, t, i, e).state.dropped == s.dropped
  {
  }

  lemma ContentsChangeOnlyByWrites(s: State, t: Agent, a: Action, k: CacheKey)
    requires Inv(s) && Step(s, t, a).Next?
    ensures PageOf(Step(s, t, a).state.contents, k) ==
            if a.WriteBuf? && PcOf(s, t).Guard? && PcOf(s, t).valid && PcOf(s, t).key == k
            then a.data else PageOf(s.contents, k)
    ensures Live(Step(s, t, a).state, k) ==> Live(s, k)
  {
    var target := Target(PcOf(s, t), a);
    assert AgentOk(s, t);
    if target.Some? && target.value < |s.slots| {
      var i := target.value;
      PairAtTarget(s, t, a, i);
      assert SlotOk(s.slots[i]);
      EffectWritesOwnPage(s, t, s.slots[i], i, a);
      ApplyContents(s, t, i, EffectAt(s, t, s.slots[i], i, a), k);
    } else {
      MoveShape(s, t, a);
    }
  }

  /** ... so eviction, failed writeback, lookups and abandoned guards never change it; only writing
      through a valid guard does, and only for the guard's page. */
  lemma ViewChangesOnlyByWrites(s: State, t: Agent, a: Action, k: CacheKey)
    requires Inv(s) && Step(s, t, a).Next? && Live(Step(s, t, a).state, k)
    ensures View(Step(s, t, a).state, k) ==
            if a.WriteBuf? && PcOf(s, t).Guard? && PcOf(s, t).valid && PcOf(s, t).key == k
            then a.data else View(s, k)
  {
    StepKeepsInv(s, t, a);
    ContentsChangeOnlyByWrites(s, t, a, k);
    ViewIsContents(s, k);
    ViewIsContents(Step(s, t, a).state, k);
  }
}
