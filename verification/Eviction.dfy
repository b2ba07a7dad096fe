/** One iteration of disk usage based eviction: choosing the victims, and what came of evicting them. */
module Evictions {
  import opened Options
  import opened Sums
  import opened EvictionOrder
  import opened FilesystemUsage

  // --- phase 1: choose the victims

  function Bytes(): Candidate -> nat {
    (c: Candidate) => c.layer.size
  }

  function AboveBytes(): Candidate -> nat {
    (c: Candidate) => if c.partition.Above? then c.layer.size else 0
  }

  /** The usage once these candidates are gone. */
  function After(u: Usage, cs: seq<Candidate>): Usage {
    AddAvailable(u, Weigh(cs, Bytes()))
  }

  datatype Planned = Planned(respectingMinResidentSize: Usage, fallbackToGlobalLru: Option<Usage>)

  function FinalUsage(p: Planned): Usage {
    if p.fallbackToGlobalLru.Some? then p.fallbackToGlobalLru.value else p.respectingMinResidentSize
  }

  predicate SomeBelow(cs: seq<Candidate>) {
    exists i :: 0 <= i < |cs| && cs[i].partition.Below?
  }

  /** How many candidates come before the first that is to go late. */
  function AboveCount(cs: seq<Candidate>): (n: nat)
    ensures n <= |cs| && (forall i :: 0 <= i < n ==> cs[i].partition.Above?) && (n < |cs| ==> cs[n].partition.Below?)
  {
    if cs == [] then 0
    else
      var n := AboveCount(cs[..|cs| - 1]);
      if n < |cs| - 1 || cs[|cs| - 1].partition.Below? then n else |cs|
  }

  /** The layers of one timeline, in order. */
  function OfTimeline(cs: seq<Candidate>, timeline: nat): seq<Layer> {
    if cs == [] then []
    else
      var before := OfTimeline(cs[..|cs| - 1], timeline);
      if cs[|cs| - 1].layer.timeline == timeline then before + [cs[|cs| - 1].layer] else before
  }

  type Batches = map<nat, seq<Layer>>

  /** Every victim is in its timeline's batch, and nothing else is in any. */
  ghost predicate Batched(cs: seq<Candidate>, batched: Batches) {
    forall t :: (t in batched <==> OfTimeline(cs, t) != []) && (t in batched ==> batched[t] == OfTimeline(cs, t))
  }

  /** The batches after one more victim. */
  function WithVictim(batched: Batches, c: Candidate): Batches {
    var t := c.layer.timeline;
    batched[t := (if t in batched then batched[t] else []) + [c.layer]]
  }

  function BatchesOf(cs: seq<Candidate>): Batches {
    if cs == [] then map[] else WithVictim(BatchesOf(cs[..|cs| - 1]), cs[|cs| - 1])
  }

  lemma {:induction false} BatchesAreBatched(cs: seq<Candidate>)
    ensures Batched(cs, BatchesOf(cs))
    decreases |cs|
  {
    if cs != [] { BatchesAreBatched(cs[..|cs| - 1]); }
  }

  /** The usage when the first candidate that is to go late was reached. */
  function Warned(u: Usage, taken: seq<Candidate>): Option<Usage> {
    if AboveCount(taken) < |taken| then Some(After(u, taken[..AboveCount(taken)])) else None
  }

  lemma TakeStep(u: Usage, taken: seq<Candidate>, c: Candidate)
    ensures After(u, taken + [c]) == AddAvailable(After(u, taken), c.layer.size)
    ensures Warned(u, taken + [c]) ==
            if Warned(u, taken).None? && c.partition.Below? then Some(After(u, taken)) else Warned(u, taken)
  {
    assert (taken + [c])[..|taken|] == taken;
    var n := AboveCount(taken);
    assert (taken + [c])[..n] == taken[..n];
  }

  /** One more victim. */
  method TakeNext(ghost u: Usage, ghost taken: seq<Candidate>, c: Candidate,
                  usage: Usage, warned: Option<Usage>, batched: Batches)
      returns (usage': Usage, warned': Option<Usage>, batched': Batches)
    requires usage == After(u, taken) && warned == Warned(u, taken) && batched == BatchesOf(taken)
    ensures usage' == After(u, taken + [c]) && warned' == Warned(u, taken + [c]) && batched' == BatchesOf(taken + [c])
  {
    TakeStep(u, taken, c);
    assert (taken + [c])[..|taken|] == taken;
    warned' := if c.partition.Below? && warned.None? then Some(usage) else warned;
    usage' := AddAvailable(usage, c.layer.size);
    batched' := WithVictim(batched, c);
  }

  /** There is pressure until n victims are taken. */
  predicate PressureUntil(config: Config, u: Usage, cs: seq<Candidate>, n: nat)
    requires n <= |cs|
  {
    forall j :: 0 <= j < n ==> HasPressure(config, After(u, cs[..j]))
  }

  /** Candidates are taken in order until there is no pressure. */
  method PlanEvictions(config: Config, u: Usage, cs: seq<Candidate>)
      returns (n: nat, planned: Planned, batched: Batches)
    ensures n <= |cs| && PressureUntil(config, u, cs, n)
    ensures n < |cs| ==> !HasPressure(config, After(u, cs[..n]))
    ensures planned == PlannedUsage(u, cs[..n]) && batched == BatchesOf(cs[..n])
  {
    n, batched := 0, map[];
    var usage := u;
    var warned: Option<Usage> := None;
    while n < |cs| && HasPressure(config, usage)
      invariant n <= |cs| && usage == After(u, cs[..n]) && warned == Warned(u, cs[..n]) && batched == BatchesOf(cs[..n])
      invariant PressureUntil(config, u, cs, n)
    {
      assert cs[..n + 1] == cs[..n] + [cs[n]];
      usage, warned, batched := TakeNext(u, cs[..n], cs[n], usage, warned, batched);
      n := n + 1;
    }
    planned := if warned.Some? then Planned(warned.value, Some(usage)) else Planned(usage, None);
  }

  function PlannedUsage(u: Usage, taken: seq<Candidate>): Planned {
    var warned := Warned(u, taken);
    if warned.Some? then Planned(warned.value, Some(After(u, taken))) else Planned(After(u, taken), None)
  }

  lemma {:induction false} AboveWeighsTheSame(cs: seq<Candidate>, n: nat)
    requires n <= |cs| && (forall i :: 0 <= i < n ==> cs[i].partition.Above?)
             && (forall i :: n <= i < |cs| ==> cs[i].partition.Below?)
    ensures Weigh(cs, AboveBytes()) == Weigh(cs[..n], Bytes())
    decreases |cs|
  {
    if |cs| > n {
      AboveWeighsTheSame(cs[..|cs| - 1], n);
      assert cs[..|cs| - 1][..n] == cs[..n];
    } else if cs != [] {
      AboveWeighsTheSame(cs[..|cs| - 1], n - 1);
      assert cs[..n] == cs && cs[..|cs| - 1][..n - 1] == cs[..n - 1];
    }
  }

  /** The plan counts what goes early, and, when that is not enough, everything that goes. */
  lemma PlannedIsCounted(u: Usage, taken: seq<Candidate>)
    requires InEvictionOrder(taken)
    ensures var planned := PlannedUsage(u, taken);
            && planned.respectingMinResidentSize.avail == u.avail + Weigh(taken, AboveBytes())
            && FinalUsage(planned).avail == u.avail + Weigh(taken, Bytes())
            && (planned.fallbackToGlobalLru.Some? <==> SomeBelow(taken))
  {
    var n := AboveCount(taken);
    if n < |taken| {
      forall i | n <= i < |taken| ensures taken[i].partition.Below? { assert GoesBefore(taken[n], taken[i]); }
    }
    AboveWeighsTheSame(taken, n);
    assert taken[..|taken|] == taken;
  }

  lemma AfterMore(u: Usage, cs: seq<Candidate>, n: nat, k: nat)
    requires n <= k <= |cs|
    ensures After(u, cs[..k]) == AddAvailable(After(u, cs[..n]), Weigh(cs[n..k], Bytes()))
  {
    assert cs[..k] == cs[..n] + cs[n..k];
    WeighAppend(cs[..n], cs[n..k], Bytes());
  }

  lemma NoPressureLater(config: Config, u: Usage, cs: seq<Candidate>, n: nat, k: nat)
    requires IsRounding(config.round) && n <= k <= |cs| && !HasPressure(config, After(u, cs[..n]))
    ensures !HasPressure(config, After(u, cs[..k]))
  {
    AfterMore(u, cs, n, k);
    PressureMonotone(config, After(u, cs[..n]), Weigh(cs[n..k], Bytes()));
  }

  /** The victims are the shortest prefix of the candidates that ends the pressure, or all of them. */
  lemma VictimsAreShortest(config: Config, u: Usage, cs: seq<Candidate>, n: nat, k: nat)
    requires n <= |cs| && PressureUntil(config, u, cs, n)
    requires n < |cs| ==> !HasPressure(config, After(u, cs[..n]))
    requires k <= |cs|
    ensures !HasPressure(config, After(u, cs[..k])) ==> n <= k
    ensures IsRounding(config.round) && n <= k && n < |cs| ==> !HasPressure(config, After(u, cs[..k]))
  {
    if IsRounding(config.round) && n <= k && n < |cs| { NoPressureLater(config, u, cs, n, k); }
  }

  /** The first half of an iteration: nothing without pressure, else a plan that obeys the policy. */
  method PlanIteration(config: Config, u: Usage, states: seq<TenantState>)
    returns (pressure: bool, cs: seq<Candidate>, n: nat, planned: Planned, batched: Batches)
    requires StatesWellNamed(states)
    ensures pressure <==> HasPressure(config, u)
    ensures n <= |cs| && planned == PlannedUsage(u, cs[..n]) && batched == BatchesOf(cs[..n])
    ensures !pressure ==> cs == []
    ensures pressure ==> InEvictionOrder(cs)
    ensures pressure ==> exists tenants :: ListsAll(states, tenants) && PolicyHolds(tenants, cs, n)
    ensures pressure && n < |cs| ==> !HasPressure(config, After(u, cs[..n]))
    ensures PressureUntil(config, u, cs, n)
  {
    pressure := HasPressure(config, u);
    if !pressure { return false, [], 0, Planned(u, None), map[]; }
    cs := CollectEvictionCandidates(states);
    ghost var tenants: seq<Tenant>, sorted: seq<seq<Layer>> :|
      ListsAll(states, tenants) && Candidates(tenants, sorted, cs);
    ListedAreWellNamed(states, tenants);
    n, planned, batched := PlanEvictions(config, u, cs);
    PrefixObeysPolicy(tenants, sorted, cs, n);
  }

  // --- phase 2: evict them, batch by batch

  /** Of one layer: evicted, not there any more, an error, or not attempted because of cancellation. */
  datatype LayerResult = Evicted | Refused | Failed | Skipped
  datatype BatchResult = BatchError | PerLayer(results: seq<LayerResult>)
  datatype LayerCount = LayerCount(fileSizes: nat, count: nat)
  datatype Outcome = Cancelled | Finished(assumed: Usage, failed: LayerCount)

  /** The result the batch's i-th layer came to. */
  function ResultAt(r: BatchResult, i: nat): LayerResult
    requires r.PerLayer? ==> i < |r.results|
  {
    if r.BatchError? then Failed else r.results[i]
  }

  predicate Answers(batch: seq<Layer>, r: BatchResult) {
    r.PerLayer? ==> |r.results| == |batch|
  }

  /** Of the first n layers of the batch, the weight of those that came to this result. */
  function Tally(batch: seq<Layer>, r: BatchResult, result: LayerResult, w: Layer -> nat, n: nat): nat
    requires Answers(batch, r) && n <= |batch|
  {
    if n == 0 then 0
    else Tally(batch, r, result, w, n - 1) + if ResultAt(r, n - 1) == result then w(batch[n - 1]) else 0
  }

  /** The weight of those that did not. */
  function Others(batch: seq<Layer>, r: BatchResult, result: LayerResult, w: Layer -> nat, n: nat): nat
    requires Answers(batch, r) && n <= |batch|
  {
    if n == 0 then 0
    else Others(batch, r, result, w, n - 1) + if ResultAt(r, n - 1) == result then 0 else w(batch[n - 1])
  }

  lemma {:induction false} TallyAndOthers(batch: seq<Layer>, r: BatchResult, result: LayerResult, n: nat)
    requires Answers(batch, r) && n <= |batch|
    ensures Tally(batch, r, result, Size(), n) + Others(batch, r, result, Size(), n) == TotalSize(batch[..n])
  {
    if n > 0 {
      TallyAndOthers(batch, r, result, n - 1);
      assert batch[..n][..n - 1] == batch[..n - 1];
    }
  }

  lemma {:induction false} NothingWith(batch: seq<Layer>, r: BatchResult, result: LayerResult, w: Layer -> nat, n: nat)
    requires r.BatchError? && result != Failed && n <= |batch|
    ensures Tally(batch, r, result, w, n) == 0
  {
    if n > 0 { NothingWith(batch, r, result, w, n - 1); }
  }

  function One(): Layer -> nat {
    (l: Layer) => 1
  }

  function Total(batch: seq<Layer>, r: BatchResult, result: LayerResult, w: Layer -> nat): nat
    requires Answers(batch, r)
  {
    Tally(batch, r, result, w, |batch|)
  }

  function Refusals(failed: LayerCount, batch: seq<Layer>, r: BatchResult, n: nat): LayerCount
    requires Answers(batch, r) && n <= |batch|
  {
    LayerCount(failed.fileSizes + Tally(batch, r, Refused, Size(), n),
               failed.count + Tally(batch, r, Refused, One(), n))
  }

  method EvictBatch(batch: seq<Layer>, r: BatchResult, usage: Usage, failed: LayerCount)
    returns (usage': Usage, failed': LayerCount, skipped: bool)
    requires Answers(batch, r)
    ensures skipped <==> r.PerLayer? && Skipped in r.results
    ensures !skipped ==> usage' == AddAvailable(usage, Total(batch, r, Evicted, Size()))
    ensures !skipped ==> failed' == Refusals(failed, batch, r, |batch|)
  {
    usage', failed', skipped := usage, failed, false;
    if r.BatchError? {
      NothingWith(batch, r, Evicted, Size(), |batch|);
      NothingWith(batch, r, Refused, Size(), |batch|);
      NothingWith(batch, r, Refused, One(), |batch|);
      return;
    }
    for i := 0 to |batch|
      invariant Skipped !in r.results[..i]
      invariant usage' == AddAvailable(usage, Tally(batch, r, Evicted, Size(), i))
      invariant failed' == Refusals(failed, batch, r, i)
    {
      match r.results[i] {
        case Evicted => usage' := AddAvailable(usage', batch[i].size);
        case Refused => failed' := LayerCount(failed'.fileSizes + batch[i].size, failed'.count + 1);
        case Failed =>
        case Skipped =>
          skipped := true;
          return;
      }
    }
    assert r.results[..|batch|] == r.results;
  }

  // --- the whole of phase 2

  type Results = map<nat, BatchResult>

  predicate AllAnswer(batched: Batches, results: Results) {
    forall t :: t in batched ==> t in results && Answers(batched[t], results[t])
  }

  /** The weight of what came to this result, by timeline. */
  function ByTimeline(batched: Batches, results: Results, result: LayerResult, w: Layer -> nat): map<nat, nat>
    requires AllAnswer(batched, results)
  {
    map t | t in batched :: Total(batched[t], results[t], result, w)
  }

  function NotEvicted(batched: Batches, results: Results): map<nat, nat>
    requires AllAnswer(batched, results)
  {
    map t | t in batched :: Others(batched[t], results[t], Evicted, Size(), |batched[t]|)
  }

  /** What was refused in these batches. */
  ghost function RefusedBy(done: Batches, results: Results): LayerCount
    requires AllAnswer(done, results)
  {
    LayerCount(Sum(ByTimeline(done, results, Refused, Size())), Sum(ByTimeline(done, results, Refused, One())))
  }

  /** The outcome when these batches are done. */
  ghost function FinishedWith(u: Usage, done: Batches, results: Results): Outcome
    requires AllAnswer(done, results)
  {
    Finished(AddAvailable(u, Sum(ByTimeline(done, results, Evicted, Size()))),
             RefusedBy(done, results))
  }

  lemma TotalStep(done: Batches, results: Results, t: nat, batch: seq<Layer>, result: LayerResult, w: Layer -> nat)
    requires AllAnswer(done, results) && t !in done && t in results && Answers(batch, results[t])
    ensures AllAnswer(done[t := batch], results)
    ensures Sum(ByTimeline(done[t := batch], results, result, w)) ==
            Sum(ByTimeline(done, results, result, w)) + Total(batch, results[t], result, w)
  {
    var total := Total(batch, results[t], result, w);
    assert ByTimeline(done[t := batch], results, result, w) == ByTimeline(done, results, result, w)[t := total];
    SumUpdate(ByTimeline(done, results, result, w), t, total);
  }

  lemma RefusedStep(done: Batches, results: Results, t: nat, batch: seq<Layer>)
    requires AllAnswer(done, results) && t !in done && t in results && Answers(batch, results[t])
    ensures AllAnswer(done[t := batch], results)
    ensures RefusedBy(done[t := batch], results) == Refusals(RefusedBy(done, results), batch, results[t], |batch|)
  {
    TotalStep(done, results, t, batch, Refused, Size());
    TotalStep(done, results, t, batch, Refused, One());
  }

  lemma FinishedStep(u: Usage, done: Batches, results: Results, t: nat, batch: seq<Layer>)
    requires AllAnswer(done, results) && t !in done && t in results && Answers(batch, results[t])
    ensures AllAnswer(done[t := batch], results)
    ensures var before := FinishedWith(u, done, results);
            FinishedWith(u, done[t := batch], results) ==
            Finished(AddAvailable(before.assumed, Total(batch, results[t], Evicted, Size())),
                     Refusals(before.failed, batch, results[t], |batch|))
  {
    TotalStep(done, results, t, batch, Evicted, Size());
    RefusedStep(done, results, t, batch);
  }

  lemma NothingFinished(u: Usage, results: Results)
    ensures FinishedWith(u, map[], results) == Finished(u, LayerCount(0, 0))
  {
    assert ByTimeline(map[], results, Evicted, Size()) == map[];
    assert ByTimeline(map[], results, Refused, Size()) == map[] && ByTimeline(map[], results, Refused, One()) == map[];
  }

  lemma MoveBatch(done: Batches, todo: Batches, t: nat)
    requires t in todo && todo.Keys !! done.Keys
    ensures done[t := todo[t]] + (todo - {t}) == done + todo && (todo - {t}).Keys !! done[t := todo[t]].Keys
  {
  }

  /** Layers are skipped only on cancellation; `cancelled` are the timelines after whose batch the
      cancellation is noticed. Timelines are visited in no particular order. */
  method EvictBatches(u: Usage, batched: Batches, results: Results, cancelled: set<nat>) returns (outcome: Outcome)
    requires AllAnswer(batched, results)
    requires forall t :: t in batched && results[t].PerLayer? && Skipped in results[t].results ==> t in cancelled
    ensures outcome == if batched.Keys !! cancelled then FinishedWith(u, batched, results) else Cancelled
  {
    var usage, failed, todo := u, LayerCount(0, 0), batched;
    ghost var done: Batches := map[];
    NothingFinished(u, results);
    while todo != map[]
      invariant todo.Keys !! done.Keys && done + todo == batched && done.Keys !! cancelled
      invariant AllAnswer(done, results) && Finished(usage, failed) == FinishedWith(u, done, results)
      decreases |todo|
    {
      var t :| t in todo;
      var batch := todo[t];
      assert batched[t] == batch;
      var skipped;
      FinishedStep(u, done, results, t, batch);
      usage, failed, skipped := EvictBatch(batch, results[t], usage, failed);
      if t in cancelled {
        assert t in batched.Keys * cancelled;
        return Cancelled;
      }
      MoveBatch(done, todo, t);
      done := done[t := batch];
      todo := todo - {t};
    }
    assert done + todo == done;
    outcome := Finished(usage, failed);
  }

  // --- accounting

  function BatchSizes(batched: Batches): map<nat, nat> {
    map t | t in batched :: TotalSize(batched[t])
  }

  lemma LayerWeighs(batch: seq<Layer>, layer: Layer)
    ensures TotalSize(batch + [layer]) == TotalSize(batch) + layer.size
  {
    assert (batch + [layer])[..|batch|] == batch;
  }

  lemma VictimWeighs(batched: Batches, c: Candidate)
    ensures Sum(BatchSizes(WithVictim(batched, c))) == Sum(BatchSizes(batched)) + c.layer.size
  {
    var t := c.layer.timeline;
    var batch := if t in batched then batched[t] else [];
    LayerWeighs(batch, c.layer);
    var size := TotalSize(batch + [c.layer]);
    assert BatchSizes(WithVictim(batched, c)) == BatchSizes(batched)[t := size];
    SumUpdate(BatchSizes(batched), t, size);
  }

  /** Grouping by timeline loses no victim. */
  lemma {:induction false} BatchesWeighTheSame(cs: seq<Candidate>)
    ensures Sum(BatchSizes(BatchesOf(cs))) == Weigh(cs, Bytes())
    decreases |cs|
  {
    if cs == [] {
      assert BatchSizes(BatchesOf(cs)) == map[];
    } else {
      BatchesWeighTheSame(cs[..|cs| - 1]);
      VictimWeighs(BatchesOf(cs[..|cs| - 1]), cs[|cs| - 1]);
    }
  }

  /** What was planned and what is assumed differ by the bytes that were not evicted. */
  lemma Accounting(u: Usage, victims: seq<Candidate>, results: Results)
    requires InEvictionOrder(victims) && AllAnswer(BatchesOf(victims), results)
    ensures var batched := BatchesOf(victims);
            FinalUsage(PlannedUsage(u, victims)).avail - FinishedWith(u, batched, results).assumed.avail ==
            Sum(NotEvicted(batched, results))
  {
    var batched := BatchesOf(victims);
    PlannedIsCounted(u, victims);
    BatchesWeighTheSame(victims);
    forall t | t in batched
      ensures BatchSizes(batched)[t] ==
              ByTimeline(batched, results, Evicted, Size())[t] + NotEvicted(batched, results)[t]
    {
      TallyAndOthers(batched[t], results[t], Evicted, |batched[t]|);
      assert batched[t][..|batched[t]|] == batched[t];
    }
    SumPlus(ByTimeline(batched, results, Evicted, Size()), NotEvicted(batched, results), BatchSizes(batched));
  }

  lemma {:induction false} OthersByResult(batch: seq<Layer>, r: BatchResult, n: nat)
    requires Answers(batch, r) && n <= |batch|
    ensures Others(batch, r, Evicted, Size(), n) ==
            Tally(batch, r, Refused, Size(), n) +
            Tally(batch, r, Failed, Size(), n) + Tally(batch, r, Skipped, Size(), n)
  {
    if n > 0 { OthersByResult(batch, r, n - 1); }
  }

  /** What the iteration does not report: layers that failed, alone or with their batch, and skipped ones. */
  function Unreported(batched: Batches, results: Results): map<nat, nat>
    requires AllAnswer(batched, results)
  {
    map t | t in batched ::
      Total(batched[t], results[t], Failed, Size()) + Total(batched[t], results[t], Skipped, Size())
  }

  /** What was planned and is not assumed is reported as failed, but for the bytes that failed in an error
      or were skipped. */
  lemma GapIsReported(u: Usage, victims: seq<Candidate>, results: Results)
    requires InEvictionOrder(victims) && AllAnswer(BatchesOf(victims), results)
    ensures var batched := BatchesOf(victims);
            var finished := FinishedWith(u, batched, results);
            FinalUsage(PlannedUsage(u, victims)).avail - finished.assumed.avail ==
            finished.failed.fileSizes + Sum(Unreported(batched, results))
  {
    var batched := BatchesOf(victims);
    Accounting(u, victims, results);
    forall t | t in batched
      ensures NotEvicted(batched, results)[t] ==
              ByTimeline(batched, results, Refused, Size())[t] + Unreported(batched, results)[t]
    {
      OthersByResult(batched[t], results[t], |batched[t]|);
    }
    SumPlus(ByTimeline(batched, results, Refused, Size()), Unreported(batched, results), NotEvicted(batched, results));
  }

  /** The layer failed in an error or was skipped, and takes space. */
  predicate Lost(batch: seq<Layer>, r: BatchResult, i: nat)
    requires Answers(batch, r) && i < |batch|
  {
    (ResultAt(r, i) == Failed || ResultAt(r, i) == Skipped) && batch[i].size > 0
  }

  lemma {:induction false} NothingLost(batch: seq<Layer>, r: BatchResult, n: nat)
    requires Answers(batch, r) && n <= |batch|
    ensures Tally(batch, r, Failed, Size(), n) + Tally(batch, r, Skipped, Size(), n) == 0 <==>
            forall i :: 0 <= i < n ==> !Lost(batch, r, i)
  {
    if n > 0 {
      NothingLost(batch, r, n - 1);
      assert Size()(batch[n - 1]) > 0 && (ResultAt(r, n - 1) == Failed || ResultAt(r, n - 1) == Skipped) <==>
             Lost(batch, r, n - 1);
    }
  }

  lemma {:induction false} SumIsZero(values: map<nat, nat>)
    ensures Sum(values) == 0 <==> forall t :: t in values ==> values[t] == 0
    decreases |values|
  {
    if values != map[] {
      var t :| t in values;
      SumRemove(values, t);
      SumIsZero(values - {t});
      assert forall t' :: t' in values ==> t' == t || t' in values - {t};
    }
  }

  /** The report explains the gap if and only if no layer that takes space failed in an error or was skipped. */
  lemma ReportExplainsIff(u: Usage, victims: seq<Candidate>, results: Results)
    requires InEvictionOrder(victims) && AllAnswer(BatchesOf(victims), results)
    ensures var batched := BatchesOf(victims);
            var finished := FinishedWith(u, batched, results);
            FinalUsage(PlannedUsage(u, victims)).avail - finished.assumed.avail == finished.failed.fileSizes <==>
            forall t, i :: t in batched && 0 <= i < |batched[t]| ==> !Lost(batched[t], results[t], i)
  {
    var batched := BatchesOf(victims);
    GapIsReported(u, victims, results);
    SumIsZero(Unreported(batched, results));
    forall t | t in batched
      ensures Unreported(batched, results)[t] == 0 <==>
              forall i :: 0 <= i < |batched[t]| ==> !Lost(batched[t], results[t], i)
    {
      NothingLost(batched[t], results[t], |batched[t]|);
    }
  }

  lemma {:induction false} NoOthers(batch: seq<Layer>, r: BatchResult, n: nat)
    requires r.PerLayer? && Answers(batch, r) && n <= |batch|
             && forall i :: 0 <= i < |r.results| ==> r.results[i].Evicted?
    ensures Others(batch, r, Evicted, Size(), n) == 0
  {
    if n > 0 { NoOthers(batch, r, n - 1); }
  }

  predicate AllEvicted(r: BatchResult) {
    r.PerLayer? && forall i :: 0 <= i < |r.results| ==> r.results[i].Evicted?
  }

  /** The two agree when every eviction succeeds. */
  lemma PlannedIsAssumed(u: Usage, victims: seq<Candidate>, results: Results)
    requires InEvictionOrder(victims) && AllAnswer(BatchesOf(victims), results)
    requires forall t :: t in BatchesOf(victims) ==> AllEvicted(results[t])
    ensures FinalUsage(PlannedUsage(u, victims)) == FinishedWith(u, BatchesOf(victims), results).assumed
  {
    var batched := BatchesOf(victims);
    Accounting(u, victims, results);
    forall t | t in batched ensures NotEvicted(batched, results)[t] == 0 {
      assert AllEvicted(results[t]);
      NoOthers(batched[t], results[t], |batched[t]|);
    }
    SumIsZero(NotEvicted(batched, results));
  }
}
