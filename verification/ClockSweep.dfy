/**
  The clock sweep of find_victim: usage counts and the clock arm. Locks, writeback and the slot's
  contents are the step machine's business; here each attempt to take a slot just has an outcome.
*/
module ClockSweep {
  import opened Options
  import opened Arith

  const MAX_USAGE_COUNT: nat := 5

  /** What happens when the sweep reaches a slot whose count is zero. */
  datatype Attempt = Acquired | WouldBlock | WritebackFailed | Poisoned

  datatype Result = Victim(slot: nat) | LimitExceeded | LockPoisoned

  /** How many slots the arm passes from position `arm` before it reaches slot j. */
  function Offset(n: nat, arm: nat, j: nat): nat
    requires j < n && arm < n
  {
    if arm <= j then j - arm else j + n - arm
  }

  /** The slot at offset r. */
  function Position(n: nat, arm: nat, r: nat): nat
    requires arm < n && r <= n
  {
    if arm + r < n then arm + r else arm + r - n
  }

  /** Visits of slot j in the first q * n + r turns. */
  function Visits(n: nat, arm: nat, q: nat, r: nat, j: nat): nat
    requires j < n && arm < n
  {
    q + if Offset(n, arm, j) < r then 1 else 0
  }

  function Lowered(count: nat, times: nat): nat {
    if count <= times then 0 else count - times
  }

  /** Slot i has the lowest count, and comes first in arm order among those that have it. */
  predicate FirstMinimum(counts: seq<nat>, arm: nat, i: nat) {
    && i < |counts| && arm < |counts|
    && forall j :: 0 <= j < |counts| ==>
         counts[i] < counts[j] ||
         (counts[i] == counts[j] && Offset(|counts|, arm, i) <= Offset(|counts|, arm, j))
  }

  /** The counts after q * n + r turns of a sweep that started at `arm`. */
  function Swept(counts: seq<nat>, arm: nat, q: nat, r: nat): seq<nat>
    requires arm < |counts|
  {
    seq(|counts|, j requires 0 <= j < |counts| => Lowered(counts[j], Visits(|counts|, arm, q, r, j)))
  }

  /** One more turn visits the slot at offset r. */
  lemma OneTurn(counts: seq<nat>, arm: nat, q: nat, r: nat, i: nat)
    requires arm < |counts| && i < |counts| && Offset(|counts|, arm, i) == r
    ensures Swept(counts, arm, q, r)[i] == Lowered(counts[i], q)
    ensures Swept(counts, arm, q, r + 1) == Swept(counts, arm, q, r)[i := Lowered(Swept(counts, arm, q, r)[i], 1)]
    ensures r + 1 == |counts| ==> Swept(counts, arm, q + 1, 0) == Swept(counts, arm, q, r + 1)
  {
  }

  /** In the first q * n + r turns no slot of count zero came by. */
  predicate NoneEmpty(counts: seq<nat>, arm: nat, q: nat, r: nat)
    requires arm < |counts|
  {
    forall j :: 0 <= j < |counts| ==> counts[j] >= Visits(|counts|, arm, q, r, j)
  }

  lemma StillNoneEmpty(counts: seq<nat>, arm: nat, q: nat, r: nat, i: nat)
    requires arm < |counts| && i < |counts| && Offset(|counts|, arm, i) == r
    requires NoneEmpty(counts, arm, q, r) && counts[i] > q
    ensures NoneEmpty(counts, arm, q, r + 1)
    ensures r + 1 == |counts| ==> NoneEmpty(counts, arm, q + 1, 0)
  {
  }

  lemma FirstEmptyIsMinimum(counts: seq<nat>, arm: nat, q: nat, r: nat, i: nat)
    requires arm < |counts| && i < |counts| && Offset(|counts|, arm, i) == r
    requires NoneEmpty(counts, arm, q, r) && counts[i] <= q
    ensures counts[i] == q && FirstMinimum(counts, arm, i)
  {
    forall j | 0 <= j < |counts| ensures Visits(|counts|, arm, q, r, j) <= counts[j] {
    }
  }

  lemma NextPosition(x: nat, n: nat)
    requires n > 0
    ensures (x + 1) % n == if x % n + 1 == n then 0 else x % n + 1
  {
    var q, r := x / n, x % n;
    assert x == q * n + r;
    if r + 1 == n {
      assert x + 1 == (q + 1) * n;
      Remainder(q + 1, 0, n);
    } else {
      Remainder(q, r + 1, n);
    }
  }

  /** The first slot of minimum count is reached within 5n + 1 turns. */
  lemma SweepBound(counts: seq<nat>, arm: nat, i: nat, r: nat)
    requires FirstMinimum(counts, arm, i) && r == Offset(|counts|, arm, i) + 1
    requires forall j :: 0 <= j < |counts| ==> counts[j] <= MAX_USAGE_COUNT
    ensures counts[i] * |counts| + r <= 5 * |counts| + 1
  {
    if counts[i] == 5 {
      assert counts[arm] == 5 && Offset(|counts|, arm, arm) == 0;
    } else {
      Scale(counts[i], 4, |counts|);
    }
  }

  class Clock {
    const usage: array<nat>
    var nextEvictSlot: nat

    ghost predicate Valid()
      reads this, usage
    {
      usage.Length > 0 && forall j :: 0 <= j < usage.Length ==> usage[j] <= MAX_USAGE_COUNT
    }

    constructor (n: nat)
      requires n > 0
      ensures Valid() && fresh(usage) && usage.Length == n && nextEvictSlot == 0
      ensures forall j :: 0 <= j < n ==> usage[j] == 0
    {
      usage := new nat[n](_ => 0);
      nextEvictSlot := 0;
    }

    /** inc_usage_count: up to the ceiling. */
    method IncUsageCount(i: nat)
      requires Valid() && i < usage.Length
      modifies usage
      ensures Valid()
      ensures usage[..] ==
              old(usage[..])[i := if old(usage[i]) == MAX_USAGE_COUNT then MAX_USAGE_COUNT else old(usage[i]) + 1]
    {
      if usage[i] != MAX_USAGE_COUNT {
        usage[i] := usage[i] + 1;
      }
    }

    /** dec_usage_count: down to zero; returns the old count. */
    method DecUsageCount(i: nat) returns (count: nat)
      requires Valid() && i < usage.Length
      modifies usage
      ensures Valid()
      ensures count == old(usage[i]) && usage[..] == old(usage[..])[i := Lowered(count, 1)]
    {
      count := usage[i];
      if count != 0 {
        usage[i] := count - 1;
      }
    }

    /** The clock arm: fetch_add, modulo the number of slots. */
    method Advance(ghost arm: nat, ghost r: nat) returns (i: nat)
      requires usage.Length > 0 && arm < usage.Length && r < usage.Length
      requires nextEvictSlot % usage.Length == Position(usage.Length, arm, r)
      modifies this`nextEvictSlot
      ensures nextEvictSlot == old(nextEvictSlot) + 1
      ensures i == Position(usage.Length, arm, r) && Offset(usage.Length, arm, i) == r
      ensures nextEvictSlot % usage.Length ==
              Position(usage.Length, arm, if r + 1 == usage.Length then 0 else r + 1)
    {
      i := nextEvictSlot % usage.Length;
      NextPosition(nextEvictSlot, usage.Length);
      nextEvictSlot := nextEvictSlot + 1;
    }

    /** One turn: the arm moves on, and the slot it leaves has its count lowered. */
    method Turn(ghost counts: seq<nat>, ghost arm: nat, ghost q: nat, ghost r: nat) returns (i: nat, count: nat)
      requires Valid() && arm < usage.Length == |counts| && r < usage.Length
      requires nextEvictSlot % usage.Length == Position(usage.Length, arm, r) && usage[..] == Swept(counts, arm, q, r)
      modifies this`nextEvictSlot, usage
      ensures nextEvictSlot == old(nextEvictSlot) + 1 && Valid()
      ensures nextEvictSlot % usage.Length == Position(usage.Length, arm, if r + 1 == usage.Length then 0 else r + 1)
      ensures usage[..] == Swept(counts, arm, q, r + 1)
      ensures r + 1 == usage.Length ==> usage[..] == Swept(counts, arm, q + 1, 0)
      ensures i < usage.Length && Offset(usage.Length, arm, i) == r && count == Lowered(counts[i], q)
    {
      i := Advance(arm, r);
      OneTurn(counts, arm, q, r, i);
      count := DecUsageCount(i);
    }

    /**
      find_victim. The sweep lowers every count once per visit. Left alone it takes the first slot
      of minimum count within 5n + 1 turns. Whatever the other agents hold, it ends within 10n + 1
      turns, or with the first turn from which no writeback fails.
    */
    method FindVictim(attempt: nat -> Attempt, noFailureFrom: nat, ghost alone: bool)
        returns (result: Result, turns: nat, ghost q: nat, ghost r: nat)
      requires Valid()
      requires forall k :: k >= noFailureFrom ==> !attempt(k).WritebackFailed?
      requires alone ==> forall k :: attempt(k).Acquired?
      modifies this, usage
      ensures Valid() && nextEvictSlot == old(nextEvictSlot) + turns
      ensures turns == q * usage.Length + r && 1 <= r <= usage.Length
      ensures turns <= 10 * usage.Length + 1 || turns <= noFailureFrom
      ensures usage[..] == Swept(old(usage[..]), old(nextEvictSlot) % usage.Length, q, r)
      ensures result.Victim? ==>
                && result.slot < usage.Length && old(usage[result.slot]) <= q && attempt(turns).Acquired?
                && Offset(usage.Length, old(nextEvictSlot) % usage.Length, result.slot) == r - 1
      ensures result.LimitExceeded? ==> turns > 10 * usage.Length && attempt(turns).WouldBlock?
      ensures alone ==>
                && result.Victim?
                && FirstMinimum(old(usage[..]), old(nextEvictSlot) % usage.Length, result.slot)
                && q == old(usage[result.slot]) && turns <= 5 * usage.Length + 1
    {
      var n := usage.Length;
      ghost var arm, counts := nextEvictSlot % n, usage[..];
      var iterLimit := n * 10;
      turns, q, r := 0, 0, 0;
      while true
        invariant Valid()
        invariant nextEvictSlot == old(nextEvictSlot) + turns && turns == q * n + r && 0 <= r < n
        invariant nextEvictSlot % n == Position(n, arm, r)
        invariant turns <= 10 * n || turns < noFailureFrom
        invariant usage[..] == Swept(counts, arm, q, r)
        invariant alone ==> NoneEmpty(counts, arm, q, r)
        decreases 10 * n + 1 + noFailureFrom - turns
      {
        var i, count := Turn(counts, arm, q, r);
        turns, r := turns + 1, r + 1;
        Scale(q, q, n);
        if count > 0 {
          assert q < 5;
          Scale(q, 4, n);
          if alone { StillNoneEmpty(counts, arm, q, r - 1, i); }
        } else {
          match attempt(turns) {
            case Acquired =>
              if alone {
                FirstEmptyIsMinimum(counts, arm, q, r - 1, i);
                SweepBound(counts, arm, i, r);
              }
              return Victim(i), turns, q, r;
            case Poisoned => return LockPoisoned, turns, q, r;
            case WouldBlock =>
              if turns > iterLimit { return LimitExceeded, turns, q, r; }
            case WritebackFailed =>
          }
        }
        if r == n {
          q, r := q + 1, 0;
        }
      }
    }
  }

  // --- the sweep among other threads

  /** What another thread does to the cache between two steps of the sweep: it moves the arm, and
      lowers or raises counts. */
  datatype Step = Tick | Dec(slot: nat) | Inc(slot: nat)

  datatype Shared = Shared(usage: seq<nat>, arm: nat)

  predicate Bounded(usage: seq<nat>) {
    forall j :: 0 <= j < |usage| ==> usage[j] <= MAX_USAGE_COUNT
  }

  function Does(s: Shared, step: Step): Shared {
    match step
    case Tick => s.(arm := s.arm + 1)
    case Dec(i) => if i < |s.usage| then s.(usage := s.usage[i := Lowered(s.usage[i], 1)]) else s
    case Inc(i) =>
      if i < |s.usage| && s.usage[i] != MAX_USAGE_COUNT then s.(usage := s.usage[i := s.usage[i] + 1]) else s
  }

  function After(s: Shared, steps: seq<Step>): Shared {
    if steps == [] then s else Does(After(s, steps[..|steps| - 1]), steps[|steps| - 1])
  }

  function Incs(steps: seq<Step>): nat {
    if steps == [] then 0 else Incs(steps[..|steps| - 1]) + if steps[|steps| - 1].Inc? then 1 else 0
  }

  /** What the others do in one turn of the sweep: before the arm moves, and then before the count is lowered. */
  datatype Meanwhile = Meanwhile(first: seq<Step>, second: seq<Step>)

  /** How often counts are raised in the first k turns. */
  function Raises(others: nat -> Meanwhile, k: nat): nat {
    if k == 0 then 0 else Raises(others, k - 1) + Incs(others(k - 1).first) + Incs(others(k - 1).second)
  }

  ghost predicate RaisesAtMost(others: nat -> Meanwhile, raises: nat) {
    forall k :: Raises(others, k) <= raises
  }

  function Total(counts: seq<nat>): nat {
    if counts == [] then 0 else Total(counts[..|counts| - 1]) + counts[|counts| - 1]
  }

  lemma {:induction false} TotalUpdate(counts: seq<nat>, i: nat, count: nat)
    requires i < |counts|
    ensures Total(counts[i := count]) + counts[i] == Total(counts) + count
  {
    var last := |counts| - 1;
    if i < last {
      TotalUpdate(counts[..last], i, count);
      assert counts[i := count][..last] == counts[..last][i := count];
    } else {
      assert counts[i := count][..last] == counts[..last];
    }
  }

  lemma {:induction false} TotalBound(counts: seq<nat>)
    requires Bounded(counts)
    ensures Total(counts) <= MAX_USAGE_COUNT * |counts|
  {
    if counts != [] {
      TotalBound(counts[..|counts| - 1]);
    }
  }

  lemma {:induction false} OthersRaise(s: Shared, steps: seq<Step>)
    requires Bounded(s.usage)
    ensures |After(s, steps).usage| == |s.usage| && Bounded(After(s, steps).usage)
    ensures Total(After(s, steps).usage) <= Total(s.usage) + Incs(steps)
  {
    if steps != [] {
      var before, last := After(s, steps[..|steps| - 1]), steps[|steps| - 1];
      OthersRaise(s, steps[..|steps| - 1]);
      if !last.Tick? && last.slot < |s.usage| {
        TotalUpdate(before.usage, last.slot, Does(before, last).usage[last.slot]);
      }
    }
  }

  function Max(a: nat, b: nat): nat {
    if a <= b then b else a
  }

  /** One turn of the sweep: the slot it reached, the count it found there, and the state it left. */
  datatype Visit = Visit(slot: nat, count: nat, after: Shared)

  function SharedTurn(s: Shared, m: Meanwhile): (v: Visit)
    requires s.usage != [] && Bounded(s.usage)
    ensures |v.after.usage| == |s.usage| && Bounded(v.after.usage) && v.slot < |s.usage|
    ensures Total(v.after.usage) + (if v.count > 0 then 1 else 0) <= Total(s.usage) + Incs(m.first) + Incs(m.second)
  {
    OthersRaise(s, m.first);
    var moved := Does(After(s, m.first), Tick);
    OthersRaise(moved, m.second);
    var i, found := After(s, m.first).arm % |s.usage|, After(moved, m.second);
    TotalUpdate(found.usage, i, Lowered(found.usage[i], 1));
    Visit(i, found.usage[i], Does(found, Dec(i)))
  }

  /** The state after k turns of a sweep that began at `start`. */
  function StateAt(start: Shared, others: nat -> Meanwhile, k: nat): (s: Shared)
    requires start.usage != [] && Bounded(start.usage)
    ensures |s.usage| == |start.usage| && Bounded(s.usage)
  {
    if k == 0 then start
    else SharedTurn(StateAt(start, others, k - 1), others(k - 1)).after
  }

  function VisitAt(start: Shared, others: nat -> Meanwhile, k: nat): Visit
    requires start.usage != [] && Bounded(start.usage)
  {
    SharedTurn(StateAt(start, others, k), others(k))
  }

  /** What the sweep answers at its k-th turn, if it ends there. */
  function Ending(n: nat, attempt: nat -> Attempt, k: nat, v: Visit): Option<Result> {
    if v.count > 0 then None
    else
      match attempt(k)
      case Acquired => Some(Victim(v.slot))
      case Poisoned => Some(LockPoisoned)
      case WouldBlock => if k >= 10 * n then Some(LimitExceeded) else None
      case WritebackFailed => None
  }

  /** The counts found in the first k turns. */
  function Found(start: Shared, others: nat -> Meanwhile, k: nat): (counts: seq<nat>)
    requires start.usage != [] && Bounded(start.usage)
    ensures |counts| == k
  {
    seq(k, j requires 0 <= j < k => VisitAt(start, others, j).count)
  }

  /** How many of the counts could be lowered. */
  function Busy(counts: seq<nat>): nat {
    if counts == [] then 0 else Busy(counts[..|counts| - 1]) + if counts[|counts| - 1] > 0 then 1 else 0
  }

  lemma {:induction false} BusyFrom(counts: seq<nat>, limit: nat)
    requires forall j :: limit <= j < |counts| ==> counts[j] > 0
    ensures |counts| <= limit + Busy(counts)
  {
    if |counts| > limit {
      BusyFrom(counts[..|counts| - 1], limit);
    }
  }

  lemma {:induction false} BusyBound(start: Shared, others: nat -> Meanwhile, k: nat)
    requires start.usage != [] && Bounded(start.usage)
    ensures Busy(Found(start, others, k)) + Total(StateAt(start, others, k).usage)
         <= Total(start.usage) + Raises(others, k)
  {
    if k > 0 {
      BusyBound(start, others, k - 1);
      var v := VisitAt(start, others, k - 1);
      assert Found(start, others, k)[..k - 1] == Found(start, others, k - 1);
      assert StateAt(start, others, k) == v.after;
    }
  }

  ghost predicate GoesOn(start: Shared, attempt: nat -> Attempt, others: nat -> Meanwhile, k: nat)
    requires start.usage != [] && Bounded(start.usage)
  {
    Ending(|start.usage|, attempt, k, VisitAt(start, others, k)).None?
  }

  ghost predicate NoEndingBefore(start: Shared, attempt: nat -> Attempt, others: nat -> Meanwhile, k: nat)
    requires start.usage != [] && Bounded(start.usage)
  {
    forall j :: 0 <= j < k ==> GoesOn(start, attempt, others, j)
  }

  ghost predicate NoFailureFrom(attempt: nat -> Attempt, first: nat) {
    forall k :: k >= first ==> !attempt(k).WritebackFailed?
  }

  lemma OneMoreTurn(start: Shared, attempt: nat -> Attempt, others: nat -> Meanwhile, k: nat)
    requires start.usage != [] && Bounded(start.usage)
    requires NoEndingBefore(start, attempt, others, k) && GoesOn(start, attempt, others, k)
    ensures NoEndingBefore(start, attempt, others, k + 1)
    ensures StateAt(start, others, k + 1) == VisitAt(start, others, k).after
  {
  }

  lemma WhyItGoesOn(start: Shared, attempt: nat -> Attempt, noFailureFrom: nat, others: nat -> Meanwhile, k: nat)
    requires start.usage != [] && Bounded(start.usage)
    requires NoFailureFrom(attempt, noFailureFrom) && GoesOn(start, attempt, others, k)
    ensures k < Max(10 * |start.usage|, noFailureFrom) || VisitAt(start, others, k).count > 0
  {
  }

  /** A sweep that has not ended after so many turns has met raised counts. */
  lemma SharedBound(start: Shared, attempt: nat -> Attempt, noFailureFrom: nat,
                    others: nat -> Meanwhile, k: nat, raises: nat)
    requires start.usage != [] && Bounded(start.usage) && RaisesAtMost(others, raises)
    requires NoFailureFrom(attempt, noFailureFrom) && NoEndingBefore(start, attempt, others, k)
    ensures k <= Max(10 * |start.usage|, noFailureFrom) + 5 * |start.usage| + raises
  {
    var counts, limit := Found(start, others, k), Max(10 * |start.usage|, noFailureFrom);
    forall j | limit <= j < k ensures counts[j] > 0 {
      WhyItGoesOn(start, attempt, noFailureFrom, others, j);
    }
    BusyFrom(counts, limit);
    BusyBound(start, others, k);
    TotalBound(start.usage);
    assert Raises(others, k) <= raises;
  }

  lemma NextTurn(start: Shared, attempt: nat -> Attempt, noFailureFrom: nat,
                 others: nat -> Meanwhile, k: nat, raises: nat)
    requires start.usage != [] && Bounded(start.usage) && RaisesAtMost(others, raises)
    requires NoFailureFrom(attempt, noFailureFrom)
    requires NoEndingBefore(start, attempt, others, k) && GoesOn(start, attempt, others, k)
    ensures NoEndingBefore(start, attempt, others, k + 1)
    ensures StateAt(start, others, k + 1) == VisitAt(start, others, k).after
    ensures k + 1 <= Max(10 * |start.usage|, noFailureFrom) + 5 * |start.usage| + raises
  {
    OneMoreTurn(start, attempt, others, k);
    SharedBound(start, attempt, noFailureFrom, others, k + 1, raises);
  }

  /** Without a bound on the raises there is none on the sweep: a lone slot whose reader raises the count
      before every visit is never taken, though its lock is free and no writeback fails. */
  lemma RaisedForever(attempt: nat -> Attempt, others: nat -> Meanwhile, k: nat)
    requires forall j :: others(j) == Meanwhile([], [Inc(0)])
    ensures GoesOn(Shared([0], 0), attempt, others, k)
  {
    var s := StateAt(Shared([0], 0), others, k);
    var moved := Does(s, Tick);
    assert After(moved, [Inc(0)]) == Does(After(moved, []), Inc(0));
    assert After(s, []) == s;
  }

  /** The sweep has come to turn k without an ending, and is within its bound. */
  ghost predicate Sweeping(start: Shared, attempt: nat -> Attempt, others: nat -> Meanwhile, k: nat, s: Shared,
                           bound: nat)
    requires start.usage != [] && Bounded(start.usage)
  {
    s == StateAt(start, others, k) && NoEndingBefore(start, attempt, others, k) && k <= bound
  }

  /** One turn, and whether the sweep ends there. */
  method TakeTurn(start: Shared, attempt: nat -> Attempt, ghost noFailureFrom: nat, others: nat -> Meanwhile,
                  ghost raises: nat, s: Shared, k: nat, ghost bound: nat)
      returns (after: Shared, ending: Option<Result>)
    requires start.usage != [] && Bounded(start.usage) && RaisesAtMost(others, raises)
    requires NoFailureFrom(attempt, noFailureFrom) && Sweeping(start, attempt, others, k, s, bound)
    requires bound == Max(10 * |start.usage|, noFailureFrom) + 5 * |start.usage| + raises
    ensures ending == Ending(|start.usage|, attempt, k, VisitAt(start, others, k))
    ensures ending.None? ==> k < bound && Sweeping(start, attempt, others, k + 1, after, bound)
  {
    var v := SharedTurn(s, others(k));
    after, ending := v.after, Ending(|start.usage|, attempt, k, v);
    if ending.None? { NextTurn(start, attempt, noFailureFrom, others, k, raises); }
  }

  /**
    find_victim among other sweeps, which move the same arm and lower the same counts, and readers, which
    raise them. It ends at the first turn that has an ending. The limit of 10n turns is looked at only
    where a lock is held, so every count raised meanwhile can cost one more turn; nothing else can.
  */
  method FindVictimShared(start: Shared, attempt: nat -> Attempt, noFailureFrom: nat,
                          others: nat -> Meanwhile, raises: nat)
      returns (result: Result, last: nat)
    requires start.usage != [] && Bounded(start.usage) && RaisesAtMost(others, raises)
    requires NoFailureFrom(attempt, noFailureFrom)
    ensures last <= Max(10 * |start.usage|, noFailureFrom) + 5 * |start.usage| + raises
    ensures Ending(|start.usage|, attempt, last, VisitAt(start, others, last)) == Some(result)
    ensures NoEndingBefore(start, attempt, others, last)
  {
    ghost var bound := Max(10 * |start.usage|, noFailureFrom) + 5 * |start.usage| + raises;
    var s := start;
    last := 0;
    while true
      invariant Sweeping(start, attempt, others, last, s, bound)
      decreases bound - last
    {
      var after, ending := TakeTurn(start, attempt, noFailureFrom, others, raises, s, last, bound);
      if ending.Some? {
        return ending.value, last;
      }
      s, last := after, last + 1;
    }
  }
}
