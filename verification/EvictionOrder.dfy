/** Which layers may go, and in which order: collect_eviction_candidates. */
module EvictionOrder {
  import opened Options
  import opened Seqs

  datatype Layer = Layer(tenant: nat, timeline: nat, id: nat, size: nat, lastActivity: nat)
  datatype Partition = Above | Below
  datatype Candidate = Candidate(partition: Partition, layer: Layer)

  /** A tenant's resident layers, and how much of them it is to keep. */
  datatype Tenant = Tenant(layers: seq<Layer>, minResidentSize: nat)

  // --- what a tenant has

  datatype TimelineLayer = TimelineLayer(layer: Layer, remote: bool)
  datatype TimelineState = TimelineState(active: bool, layers: seq<TimelineLayer>)

  /** A tenant that is gone has no timelines. */
  datatype TenantState = TenantState(timelines: seq<TimelineState>, sizeOverride: Option<nat>)

  function Resident(layers: seq<TimelineLayer>): seq<Layer> {
    if layers == [] then []
    else
      var last := layers[|layers| - 1];
      Resident(layers[..|layers| - 1]) + if last.remote then [] else [last.layer]
  }

  function ResidentOf(timelines: seq<TimelineState>): seq<Layer> {
    if timelines == [] then []
    else
      var last := timelines[|timelines| - 1];
      ResidentOf(timelines[..|timelines| - 1]) + if last.active then Resident(last.layers) else []
  }

  predicate SizeIn(layers: seq<TimelineLayer>, size: nat) {
    exists i :: 0 <= i < |layers| && layers[i].layer.size == size
  }

  /** The tenant has a layer of this size, resident or remote, in an active timeline. */
  predicate HasSize(timelines: seq<TimelineState>, size: nat) {
    exists t :: 0 <= t < |timelines| && timelines[t].active && SizeIn(timelines[t].layers, size)
  }

  ghost predicate IsLargest(timelines: seq<TimelineState>, size: nat) {
    (size == 0 || HasSize(timelines, size)) && forall s: nat :: HasSize(timelines, s) ==> s <= size
  }

  /** The tenant as the eviction sees it: without an override it is to keep the size of its largest layer. */
  ghost predicate Lists(state: TenantState, tenant: Tenant) {
    && tenant.layers == ResidentOf(state.timelines)
    && if state.sizeOverride.Some? then tenant.minResidentSize == state.sizeOverride.value
       else IsLargest(state.timelines, tenant.minResidentSize)
  }

  ghost predicate ListsAll(states: seq<TenantState>, tenants: seq<Tenant>) {
    |states| == |tenants| && forall k :: 0 <= k < |states| ==> Lists(states[k], tenants[k])
  }

  // --- weights

  function Weigh<T>(cs: seq<T>, w: T -> nat): nat {
    if cs == [] then 0 else Weigh(cs[..|cs| - 1], w) + w(cs[|cs| - 1])
  }

  lemma {:induction false} WeighAppend<T>(a: seq<T>, b: seq<T>, w: T -> nat)
    ensures Weigh(a + b, w) == Weigh(a, w) + Weigh(b, w)
    decreases |b|
  {
    if b == [] {
      assert a + b == a;
    } else {
      WeighAppend(a, b[..|b| - 1], w);
      assert (a + b)[..|a + b| - 1] == a + b[..|b| - 1];
    }
  }

  lemma WeighBetween<T>(a: seq<T>, c: T, b: seq<T>, w: T -> nat)
    ensures Weigh(a + [c] + b, w) == Weigh(a + b, w) + w(c)
  {
    WeighAppend(a + [c], b, w);
    WeighAppend(a, b, w);
    assert (a + [c])[..|a|] == a;
  }

  lemma SameRest<T>(c: T, rest: seq<T>, before: seq<T>, after: seq<T>)
    requires multiset([c] + rest) == multiset(before + [c] + after)
    ensures multiset(rest) == multiset(before + after)
  {
    assert multiset(rest) == multiset([c] + rest) - multiset{c};
    assert multiset(before + [c] + after) == multiset(before) + multiset{c} + multiset(after);
    assert multiset(before + after) == multiset(before + [c] + after) - multiset{c};
  }

  lemma FindIn<T>(c: T, rest: seq<T>, b: seq<T>) returns (before: seq<T>, after: seq<T>)
    requires multiset([c] + rest) == multiset(b)
    ensures b == before + [c] + after && multiset(rest) == multiset(before + after)
  {
    assert c in multiset([c] + rest);
    var i :| 0 <= i < |b| && b[i] == c;
    before, after := b[..i], b[i + 1..];
    assert b == before + [c] + after;
    SameRest(c, rest, before, after);
  }

  lemma {:induction false} WeighOrder<T>(a: seq<T>, b: seq<T>, w: T -> nat)
    requires multiset(a) == multiset(b)
    ensures Weigh(a, w) == Weigh(b, w)
    decreases |a|
  {
    if a == [] {
      assert |multiset(b)| == |b|;
    } else {
      var c, rest := a[0], a[1..];
      assert a == [c] + rest == [] + [c] + rest;
      var before, after := FindIn(c, rest, b);
      WeighOrder(rest, before + after, w);
      WeighBetween([], c, rest, w);
      assert [] + rest == rest;
      WeighBetween(before, c, after, w);
    }
  }

  /** Bytes of the tenant's layers. */
  function OfTenant(tenant: nat): Candidate -> nat {
    (c: Candidate) => if c.layer.tenant == tenant then c.layer.size else 0
  }

  /** Bytes of the tenant's layers that are to go last. */
  function BelowOf(tenant: nat): Candidate -> nat {
    (c: Candidate) => if c.layer.tenant == tenant && c.partition.Below? then c.layer.size else 0
  }

  // --- one tenant

  function Size(): Layer -> nat {
    (l: Layer) => l.size
  }

  function TotalSize(layers: seq<Layer>): nat {
    Weigh(layers, Size())
  }

  predicate MostRecentFirst(layers: seq<Layer>) {
    forall i, j :: 0 <= i <= j < |layers| ==> layers[i].lastActivity >= layers[j].lastActivity
  }

  /** A layer is to go early when the more recent ones already exceed the size to keep. */
  function Partitioned(layers: seq<Layer>, minResidentSize: nat): seq<Candidate> {
    seq(|layers|, i requires 0 <= i < |layers| =>
      Candidate(if TotalSize(layers[..i]) > minResidentSize then Above else Below, layers[i]))
  }

  lemma {:induction false} SumGrows(layers: seq<Layer>, i: nat, j: nat)
    requires i <= j <= |layers|
    ensures TotalSize(layers[..i]) <= TotalSize(layers[..j])
    decreases j
  {
    if i < j {
      SumGrows(layers, i, j - 1);
      assert layers[..j][..j - 1] == layers[..j - 1];
    }
  }

  /** What goes early is no more recent than what goes late. */
  lemma AboveIsOlder(layers: seq<Layer>, minResidentSize: nat, i: nat, j: nat)
    requires MostRecentFirst(layers) && i < |layers| && j < |layers|
    requires Partitioned(layers, minResidentSize)[i].partition.Above?
             && Partitioned(layers, minResidentSize)[j].partition.Below?
    ensures layers[i].lastActivity <= layers[j].lastActivity
  {
    if i < j { SumGrows(layers, i, j); }
  }

  /** The layers that go late weigh min_resident_size, or are all there is. */
  lemma {:induction false} BelowSuffices(layers: seq<Layer>, minResidentSize: nat, tenant: nat, i: nat)
    requires i <= |layers| && forall j :: 0 <= j < |layers| ==> layers[j].tenant == tenant
    ensures var below := Weigh(Partitioned(layers, minResidentSize)[..i], BelowOf(tenant));
            if TotalSize(layers[..i]) > minResidentSize then below > minResidentSize
            else below == TotalSize(layers[..i])
    decreases i
  {
    var cs, w := Partitioned(layers, minResidentSize), BelowOf(tenant);
    if i > 0 {
      BelowSuffices(layers, minResidentSize, tenant, i - 1);
      assert cs[..i][..i - 1] == cs[..i - 1];
      assert layers[..i][..i - 1] == layers[..i - 1];
    }
  }

  // --- all tenants

  predicate GoesBefore(a: Candidate, b: Candidate) {
    (a.partition.Above? && b.partition.Below?) ||
    (a.partition == b.partition && a.layer.lastActivity <= b.layer.lastActivity)
  }

  predicate InEvictionOrder(cs: seq<Candidate>) {
    forall i, j :: 0 <= i <= j < |cs| ==> GoesBefore(cs[i], cs[j])
  }

  /** Every layer belongs to the tenant that lists it. */
  predicate WellNamed(tenants: seq<Tenant>) {
    forall k, i :: 0 <= k < |tenants| && 0 <= i < |tenants[k].layers| ==> tenants[k].layers[i].tenant == k
  }

  predicate BelongTo(timelines: seq<TimelineState>, tenant: nat) {
    forall t, i :: 0 <= t < |timelines| && 0 <= i < |timelines[t].layers| ==>
      timelines[t].layers[i].layer.tenant == tenant
  }

  predicate StatesWellNamed(states: seq<TenantState>) {
    forall k :: 0 <= k < |states| ==> BelongTo(states[k].timelines, k)
  }

  /** Each tenant's layers sorted in some way that puts recent ones first. */
  predicate SortedLayers(tenants: seq<Tenant>, sorted: seq<seq<Layer>>) {
    && |sorted| == |tenants|
    && forall k :: 0 <= k < |tenants| ==>
         MostRecentFirst(sorted[k]) && multiset(sorted[k]) == multiset(tenants[k].layers)
  }

  function AllPartitioned(tenants: seq<Tenant>, sorted: seq<seq<Layer>>): seq<seq<Candidate>>
    requires |sorted| == |tenants|
  {
    seq(|tenants|, k requires 0 <= k < |tenants| => Partitioned(sorted[k], tenants[k].minResidentSize))
  }

  /** A possible result of collecting the candidates. */
  ghost predicate Candidates(tenants: seq<Tenant>, sorted: seq<seq<Layer>>, cs: seq<Candidate>) {
    && SortedLayers(tenants, sorted)
    && multiset(cs) == multiset(Flatten(AllPartitioned(tenants, sorted)))
    && InEvictionOrder(cs)
  }

  lemma {:induction false} WeighNothing(cs: seq<Candidate>, w: Candidate -> nat)
    requires forall c :: c in cs ==> w(c) == 0
    ensures Weigh(cs, w) == 0
    decreases |cs|
  {
    if cs != [] { WeighNothing(cs[..|cs| - 1], w); }
  }

  /** When only one part weighs anything, it weighs as much as all of them. */
  lemma {:induction false} WeighFlatten(parts: seq<seq<Candidate>>, k: nat, w: Candidate -> nat)
    requires forall p, c :: 0 <= p < |parts| && c in parts[p] && p != k ==> w(c) == 0
    ensures Weigh(Flatten(parts), w) == if k < |parts| then Weigh(parts[k], w) else 0
    decreases |parts|
  {
    if parts != [] {
      var n := |parts| - 1;
      WeighFlatten(parts[..n], k, w);
      WeighAppend(Flatten(parts[..n]), parts[n], w);
      if n != k { WeighNothing(parts[n], w); }
    }
  }

  lemma NamesKept(tenants: seq<Tenant>, sorted: seq<seq<Layer>>, k: nat, i: nat)
    requires WellNamed(tenants) && SortedLayers(tenants, sorted) && k < |tenants| && i < |sorted[k]|
    ensures sorted[k][i].tenant == k
  {
    assert sorted[k][i] in multiset(tenants[k].layers);
  }

  lemma FromTenant(tenants: seq<Tenant>, sorted: seq<seq<Layer>>, cs: seq<Candidate>, c: Candidate)
    requires WellNamed(tenants) && Candidates(tenants, sorted, cs) && c in cs
    ensures c.layer.tenant < |tenants|
            && c in Partitioned(sorted[c.layer.tenant], tenants[c.layer.tenant].minResidentSize)
  {
    var parts := AllPartitioned(tenants, sorted);
    assert c in multiset(cs);
    assert c in Flatten(parts);
    InFlatten(parts, c);
    var k :| 0 <= k < |parts| && c in parts[k];
    var i :| 0 <= i < |parts[k]| && parts[k][i] == c;
    NamesKept(tenants, sorted, k, i);
  }

  lemma WeightOfTenant(tenants: seq<Tenant>, sorted: seq<seq<Layer>>, cs: seq<Candidate>, k: nat, w: Candidate -> nat)
    requires WellNamed(tenants) && Candidates(tenants, sorted, cs) && k < |tenants|
    requires forall c: Candidate :: c.layer.tenant != k ==> w(c) == 0
    ensures Weigh(cs, w) == Weigh(Partitioned(sorted[k], tenants[k].minResidentSize), w)
  {
    var parts := AllPartitioned(tenants, sorted);
    WeighOrder(cs, Flatten(parts), w);
    forall p, c | 0 <= p < |parts| && c in parts[p] && p != k ensures w(c) == 0 {
      var i :| 0 <= i < |parts[p]| && parts[p][i] == c;
      NamesKept(tenants, sorted, p, i);
    }
    WeighFlatten(parts, k, w);
  }

  // --- the policy, for victims cs[..n]

  /** Nothing that is to go late goes before all that is to go early, of any tenant. */
  lemma AboveGoesFirst(cs: seq<Candidate>, n: nat, i: nat, j: nat)
    requires InEvictionOrder(cs) && i < n <= j < |cs| && cs[i].partition.Below?
    ensures cs[j].partition.Below?
  {
    assert GoesBefore(cs[i], cs[j]);
  }

  /** Within a tenant what is kept is at least as recent as what goes. */
  lemma KeptIsAsRecent(tenants: seq<Tenant>, sorted: seq<seq<Layer>>, cs: seq<Candidate>, n: nat, i: nat, j: nat)
    requires WellNamed(tenants) && Candidates(tenants, sorted, cs) && i < n <= j < |cs|
    requires cs[i].layer.tenant == cs[j].layer.tenant
    ensures cs[i].layer.lastActivity <= cs[j].layer.lastActivity
  {
    assert GoesBefore(cs[i], cs[j]);
    if cs[i].partition != cs[j].partition {
      var k := cs[i].layer.tenant;
      FromTenant(tenants, sorted, cs, cs[i]);
      FromTenant(tenants, sorted, cs, cs[j]);
      var part := Partitioned(sorted[k], tenants[k].minResidentSize);
      var a :| 0 <= a < |part| && part[a] == cs[i];
      var b :| 0 <= b < |part| && part[b] == cs[j];
      AboveIsOlder(sorted[k], tenants[k].minResidentSize, a, b);
    }
  }

  lemma {:induction false} BelowWithin(cs: seq<Candidate>, k: nat)
    ensures Weigh(cs, BelowOf(k)) <= Weigh(cs, OfTenant(k))
    decreases |cs|
  {
    if cs != [] { BelowWithin(cs[..|cs| - 1], k); }
  }

  /** The candidates hold enough that is to go late. */
  lemma BelowHeld(tenants: seq<Tenant>, sorted: seq<seq<Layer>>, cs: seq<Candidate>, k: nat)
    requires WellNamed(tenants) && Candidates(tenants, sorted, cs) && k < |tenants|
    ensures Weigh(cs, BelowOf(k)) >= LeastKept(tenants[k])
  {
    var layers, least := sorted[k], tenants[k].minResidentSize;
    forall i | 0 <= i < |layers| ensures layers[i].tenant == k { NamesKept(tenants, sorted, k, i); }
    WeightOfTenant(tenants, sorted, cs, k, BelowOf(k));
    BelowSuffices(layers, least, k, |layers|);
    assert Partitioned(layers, least)[..|layers|] == Partitioned(layers, least) && layers[..|layers|] == layers;
    WeighOrder(layers, tenants[k].layers, Size());
  }

  /** When nothing that is to go late goes, every tenant keeps min_resident_size, or all it has. */
  lemma MinResidentSizeKept(tenants: seq<Tenant>, sorted: seq<seq<Layer>>, cs: seq<Candidate>, n: nat, k: nat)
    requires WellNamed(tenants) && Candidates(tenants, sorted, cs) && n <= |cs| && k < |tenants|
    requires forall i :: 0 <= i < n ==> cs[i].partition.Above?
    ensures Weigh(cs[n..], OfTenant(k)) >= LeastKept(tenants[k])
  {
    BelowHeld(tenants, sorted, cs, k);
    assert cs == cs[..n] + cs[n..];
    WeighAppend(cs[..n], cs[n..], BelowOf(k));
    WeighNothing(cs[..n], BelowOf(k));
    BelowWithin(cs[n..], k);
  }

  // --- collecting

  lemma Inserted<T>(xs: seq<T>, k: nat, x: T)
    requires k <= |xs|
    ensures multiset(xs[..k] + [x] + xs[k..]) == multiset(xs) + multiset{x}
  {
    assert xs == xs[..k] + xs[k..];
  }

  lemma OneMore<T>(xs: seq<T>, i: nat)
    requires i < |xs|
    ensures multiset(xs[..i + 1]) == multiset(xs[..i]) + multiset{xs[i]}
  {
    assert xs[..i + 1] == xs[..i] + [xs[i]];
  }

  method InsertRecent(sorted: seq<Layer>, layer: Layer) returns (longer: seq<Layer>)
    requires MostRecentFirst(sorted)
    ensures MostRecentFirst(longer) && multiset(longer) == multiset(sorted) + multiset{layer}
  {
    var k := 0;
    while k < |sorted| && sorted[k].lastActivity >= layer.lastActivity
      invariant k <= |sorted| && forall j :: 0 <= j < k ==> sorted[j].lastActivity >= layer.lastActivity
    {
      k := k + 1;
    }
    Inserted(sorted, k, layer);
    longer := sorted[..k] + [layer] + sorted[k..];
  }

  /** Any sort will do; callers learn no more than this. */
  method SortMostRecentFirst(layers: seq<Layer>) returns (sorted: seq<Layer>)
    ensures MostRecentFirst(sorted) && multiset(sorted) == multiset(layers)
  {
    sorted := [];
    for i := 0 to |layers|
      invariant MostRecentFirst(sorted) && multiset(sorted) == multiset(layers[..i])
    {
      OneMore(layers, i);
      sorted := InsertRecent(sorted, layers[i]);
    }
    assert layers[..|layers|] == layers;
  }

  method InsertCandidate(sorted: seq<Candidate>, c: Candidate) returns (longer: seq<Candidate>)
    requires InEvictionOrder(sorted)
    ensures InEvictionOrder(longer) && multiset(longer) == multiset(sorted) + multiset{c}
  {
    var k := 0;
    while k < |sorted| && GoesBefore(sorted[k], c)
      invariant k <= |sorted| && forall j :: 0 <= j < k ==> GoesBefore(sorted[j], c)
    {
      k := k + 1;
    }
    Inserted(sorted, k, c);
    longer := sorted[..k] + [c] + sorted[k..];
  }

  method SortForEviction(cs: seq<Candidate>) returns (sorted: seq<Candidate>)
    ensures InEvictionOrder(sorted) && multiset(sorted) == multiset(cs)
  {
    sorted := [];
    for i := 0 to |cs|
      invariant InEvictionOrder(sorted) && multiset(sorted) == multiset(cs[..i])
    {
      OneMore(cs, i);
      sorted := InsertCandidate(sorted, cs[i]);
    }
    assert cs[..|cs|] == cs;
  }

  method PartitionByCumsum(layers: seq<Layer>, minResidentSize: nat) returns (cs: seq<Candidate>)
    ensures cs == Partitioned(layers, minResidentSize)
  {
    cs := [];
    var cumsum := 0;
    for i := 0 to |layers|
      invariant cumsum == TotalSize(layers[..i]) && cs == Partitioned(layers, minResidentSize)[..i]
    {
      cs := cs + [Candidate(if cumsum > minResidentSize then Above else Below, layers[i])];
      assert layers[..i + 1][..i] == layers[..i];
      cumsum := cumsum + layers[i].size;
    }
  }

  /** A timeline's largest layer, and its resident layers. */
  method LocalLayers(layers: seq<TimelineLayer>) returns (maxLayerSize: Option<nat>, resident: seq<Layer>)
    ensures resident == Resident(layers) && (maxLayerSize.None? <==> layers == [])
    ensures maxLayerSize.Some? ==> SizeIn(layers, maxLayerSize.value)
    ensures forall i :: 0 <= i < |layers| ==> maxLayerSize.Some? && layers[i].layer.size <= maxLayerSize.value
  {
    maxLayerSize, resident := None, [];
    for i := 0 to |layers|
      invariant resident == Resident(layers[..i]) && (maxLayerSize.None? <==> i == 0)
      invariant maxLayerSize.Some? ==> SizeIn(layers, maxLayerSize.value)
      invariant forall j :: 0 <= j < i ==> layers[j].layer.size <= maxLayerSize.value
    {
      var size := layers[i].layer.size;
      if maxLayerSize.None? || maxLayerSize.value < size { maxLayerSize := Some(size); }
      assert layers[..i + 1][..i] == layers[..i];
      if !layers[i].remote { resident := resident + [layers[i].layer]; }
    }
    assert layers[..|layers|] == layers;
  }

  lemma OneMoreTimeline(timelines: seq<TimelineState>, t: nat, size: nat)
    requires t < |timelines|
    ensures HasSize(timelines[..t + 1], size) <==>
            HasSize(timelines[..t], size) || (timelines[t].active && SizeIn(timelines[t].layers, size))
  {
    var longer, shorter := timelines[..t + 1], timelines[..t];
    assert forall k :: 0 <= k < t ==> longer[k] == shorter[k];
    assert longer[t] == timelines[t];
  }

  lemma LargestSoFar(timelines: seq<TimelineState>, t: nat, before: nat, after: nat)
    requires t < |timelines| && IsLargest(timelines[..t], before)
    requires if !timelines[t].active then after == before
             else after >= before && (after == before || SizeIn(timelines[t].layers, after))
                  && forall size: nat :: SizeIn(timelines[t].layers, size) ==> size <= after
    ensures IsLargest(timelines[..t + 1], after)
  {
    var longer := timelines[..t + 1];
    OneMoreTimeline(timelines, t, after);
    forall size: nat | HasSize(longer, size) ensures size <= after {
      OneMoreTimeline(timelines, t, size);
    }
  }

  lemma {:induction false} ResidentAre(layers: seq<TimelineLayer>, l: Layer)
    requires l in Resident(layers)
    ensures exists i :: 0 <= i < |layers| && layers[i] == TimelineLayer(l, false)
  {
    var n := |layers| - 1;
    if l in Resident(layers[..n]) {
      ResidentAre(layers[..n], l);
      var i :| 0 <= i < n && layers[..n][i] == TimelineLayer(l, false);
      assert layers[i] == TimelineLayer(l, false);
    }
  }

  lemma {:induction false} ResidentBelong(timelines: seq<TimelineState>, tenant: nat, l: Layer)
    requires BelongTo(timelines, tenant) && l in ResidentOf(timelines)
    ensures l.tenant == tenant
  {
    var n := |timelines| - 1;
    if l in ResidentOf(timelines[..n]) {
      ResidentBelong(timelines[..n], tenant, l);
    } else {
      ResidentAre(timelines[n].layers, l);
    }
  }

  /** Tenants' layers belong to them when their timelines' layers do. */
  lemma ListedAreWellNamed(states: seq<TenantState>, tenants: seq<Tenant>)
    requires StatesWellNamed(states) && ListsAll(states, tenants)
    ensures WellNamed(tenants)
  {
    forall k, i | 0 <= k < |tenants| && 0 <= i < |tenants[k].layers| ensures tenants[k].layers[i].tenant == k {
      assert Lists(states[k], tenants[k]);
      ResidentBelong(states[k].timelines, k, tenants[k].layers[i]);
    }
  }

  /** A tenant's candidates before they are sorted, and the size it is to keep. */
  method ListTenant(state: TenantState) returns (tenant: Tenant)
    ensures Lists(state, tenant)
  {
    var timelines, layers, maxLayerSize := state.timelines, [], 0;
    for t := 0 to |timelines|
      invariant layers == ResidentOf(timelines[..t]) && IsLargest(timelines[..t], maxLayerSize)
    {
      ghost var before := maxLayerSize;
      if timelines[t].active {
        var largest, resident := LocalLayers(timelines[t].layers);
        layers := layers + resident;
        if largest.Some? && maxLayerSize < largest.value { maxLayerSize := largest.value; }
      }
      assert timelines[..t + 1][..t] == timelines[..t];
      LargestSoFar(timelines, t, before, maxLayerSize);
    }
    assert timelines[..|timelines|] == timelines;
    tenant := Tenant(layers, if state.sizeOverride.Some? then state.sizeOverride.value else maxLayerSize);
  }

  lemma OneMoreTenant(tenants: seq<Tenant>, sorted: seq<seq<Layer>>, tenant: Tenant, layers: seq<Layer>)
    requires SortedLayers(tenants, sorted)
    requires MostRecentFirst(layers) && multiset(layers) == multiset(tenant.layers)
    ensures SortedLayers(tenants + [tenant], sorted + [layers])
    ensures Flatten(AllPartitioned(tenants + [tenant], sorted + [layers])) ==
            Flatten(AllPartitioned(tenants, sorted)) + Partitioned(layers, tenant.minResidentSize)
  {
    var part := Partitioned(layers, tenant.minResidentSize);
    assert AllPartitioned(tenants + [tenant], sorted + [layers]) == AllPartitioned(tenants, sorted) + [part];
    FlattenPush(AllPartitioned(tenants, sorted), part);
  }

  lemma ListsOneMore(states: seq<TenantState>, k: nat, tenants: seq<Tenant>, tenant: Tenant)
    requires k < |states| && ListsAll(states[..k], tenants) && Lists(states[k], tenant)
    ensures ListsAll(states[..k + 1], tenants + [tenant])
  {
    forall j | 0 <= j <= k ensures Lists(states[..k + 1][j], (tenants + [tenant])[j]) {
      if j < k { assert states[..k][j] == states[j]; }
    }
  }

  /** One tenant's candidates. */
  method AddTenant(state: TenantState, all: seq<Candidate>, ghost tenants: seq<Tenant>, ghost sorted: seq<seq<Layer>>)
      returns (more: seq<Candidate>, ghost tenant: Tenant, ghost layers: seq<Layer>)
    requires SortedLayers(tenants, sorted) && all == Flatten(AllPartitioned(tenants, sorted))
    ensures Lists(state, tenant) && SortedLayers(tenants + [tenant], sorted + [layers])
    ensures more == Flatten(AllPartitioned(tenants + [tenant], sorted + [layers]))
  {
    var listed := ListTenant(state);
    var recentFirst := SortMostRecentFirst(listed.layers);
    var part := PartitionByCumsum(recentFirst, listed.minResidentSize);
    tenant, layers, more := listed, recentFirst, all + part;
    OneMoreTenant(tenants, sorted, tenant, layers);
  }

  /** The loop over the tenants. */
  method ListAll(states: seq<TenantState>)
      returns (all: seq<Candidate>, ghost tenants: seq<Tenant>, ghost sorted: seq<seq<Layer>>)
    ensures ListsAll(states, tenants) && SortedLayers(tenants, sorted)
    ensures all == Flatten(AllPartitioned(tenants, sorted))
  {
    all, tenants, sorted := [], [], [];
    for k := 0 to |states|
      invariant ListsAll(states[..k], tenants)
      invariant SortedLayers(tenants, sorted) && all == Flatten(AllPartitioned(tenants, sorted))
    {
      ghost var tenant, layers;
      all, tenant, layers := AddTenant(states[k], all, tenants, sorted);
      ListsOneMore(states, k, tenants, tenant);
      tenants, sorted := tenants + [tenant], sorted + [layers];
    }
    assert states[..|states|] == states;
  }

  method CollectEvictionCandidates(states: seq<TenantState>) returns (cs: seq<Candidate>)
    ensures exists tenants, sorted: seq<seq<Layer>> :: ListsAll(states, tenants) && Candidates(tenants, sorted, cs)
  {
    var all;
    ghost var tenants, sorted;
    all, tenants, sorted := ListAll(states);
    cs := SortForEviction(all);
    assert Candidates(tenants, sorted, cs);
  }

  /** The policy as a whole, for victims cs[..n]. */
  ghost predicate PolicyHolds(tenants: seq<Tenant>, cs: seq<Candidate>, n: nat)
    requires n <= |cs|
  {
    && (forall i, j :: 0 <= i < n <= j < |cs| && cs[i].partition.Below? ==> cs[j].partition.Below?)
    && (forall i, j :: 0 <= i < n <= j < |cs| && cs[i].layer.tenant == cs[j].layer.tenant ==>
          cs[i].layer.lastActivity <= cs[j].layer.lastActivity)
    && ((forall i :: 0 <= i < n ==> cs[i].partition.Above?) ==>
          forall k :: 0 <= k < |tenants| ==> Weigh(cs[n..], OfTenant(k)) >= LeastKept(tenants[k]))
  }

  function LeastKept(tenant: Tenant): nat {
    var has := TotalSize(tenant.layers);
    if tenant.minResidentSize < has then tenant.minResidentSize else has
  }

  /** Any prefix of the candidates obeys the policy. */
  lemma PrefixObeysPolicy(tenants: seq<Tenant>, sorted: seq<seq<Layer>>, cs: seq<Candidate>, n: nat)
    requires WellNamed(tenants) && Candidates(tenants, sorted, cs) && n <= |cs|
    ensures PolicyHolds(tenants, cs, n)
  {
    forall i, j | 0 <= i < n <= j < |cs| && cs[i].partition.Below? ensures cs[j].partition.Below? {
      AboveGoesFirst(cs, n, i, j);
    }
    forall i, j | 0 <= i < n <= j < |cs| && cs[i].layer.tenant == cs[j].layer.tenant
      ensures cs[i].layer.lastActivity <= cs[j].layer.lastActivity
    {
      KeptIsAsRecent(tenants, sorted, cs, n, i, j);
    }
    if forall i :: 0 <= i < n ==> cs[i].partition.Above? {
      forall k | 0 <= k < |tenants| ensures Weigh(cs[n..], OfTenant(k)) >= LeastKept(tenants[k]) {
        MinResidentSizeKept(tenants, sorted, cs, n, k);
      }
    }
  }

  // --- the default size to keep

  /** When nothing that is to go late goes, a tenant with resident layers keeps one. */
  lemma OneLayerStays(tenants: seq<Tenant>, sorted: seq<seq<Layer>>, cs: seq<Candidate>, n: nat, k: nat)
    requires WellNamed(tenants) && Candidates(tenants, sorted, cs) && n <= |cs| && k < |tenants|
    requires tenants[k].layers != [] && forall i :: 0 <= i < n ==> cs[i].partition.Above?
    ensures exists j :: n <= j < |cs| && cs[j].layer.tenant == k
  {
    var parts, layers := AllPartitioned(tenants, sorted), sorted[k];
    assert |multiset(layers)| == |multiset(tenants[k].layers)|;
    var recent: Candidate := parts[k][0];
    NamesKept(tenants, sorted, k, 0);
    assert layers[..0] == [];
    assert recent.partition.Below?;
    FlattenHolds(parts, k, recent);
    assert recent in multiset(cs);
    var j :| 0 <= j < |cs| && cs[j] == recent;
  }

  /** Without an override a tenant keeps as much as its largest layer takes, so that there is room for any
      one of its layers, or keeps all its resident layers. */
  lemma LargestKept(states: seq<TenantState>, tenants: seq<Tenant>, sorted: seq<seq<Layer>>, cs: seq<Candidate>,
                    n: nat, k: nat, size: nat)
    requires WellNamed(tenants) && ListsAll(states, tenants) && Candidates(tenants, sorted, cs)
    requires n <= |cs| && (forall i :: 0 <= i < n ==> cs[i].partition.Above?)
    requires k < |states| && states[k].sizeOverride.None? && HasSize(states[k].timelines, size)
    ensures Weigh(cs[n..], OfTenant(k)) >= size || Weigh(cs[n..], OfTenant(k)) >= TotalSize(tenants[k].layers)
  {
    assert Lists(states[k], tenants[k]);
    MinResidentSizeKept(tenants, sorted, cs, n, k);
  }
}
