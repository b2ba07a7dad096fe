/** The clock that picks a slot for a physical file: OpenFiles::find_victim_slot. */
module VictimSlots {
  import opened Options
  import opened Arith
  import opened ClockSweep

  type Path = nat

  /** The slot can be had at the first visit. */
  predicate Free(flags: seq<bool>, locked: set<nat>, i: nat)
    requires i < |flags|
  {
    !flags[i] && i !in locked
  }

  /** The flags when the arm, starting at `arm`, has made so many turns. */
  function Cleared(flags: seq<bool>, arm: nat, turns: nat): seq<bool>
    requires arm < |flags|
  {
    seq(|flags|, j requires 0 <= j < |flags| => flags[j] && Offset(|flags|, arm, j) >= turns)
  }

  /** Where the arm stands within its first two sweeps. */
  function TurnOf(n: nat, turns: nat): nat
    requires turns <= 2 * n
  {
    if turns < n then turns else if turns < 2 * n then turns - n else turns - 2 * n
  }

  /** The slot the arm reaches in a turn, counted from 0. */
  function SlotAt(n: nat, arm: nat, turn: nat): nat
    requires arm < n && turn <= 2 * n
  {
    Position(n, arm, TurnOf(n, turn))
  }

  /** The turn finds its slot's flag clear, as all are in the second sweep, and its lock free. */
  predicate Succeeds(flags: seq<bool>, locked: nat -> set<nat>, arm: nat, turn: nat)
    requires arm < |flags| && turn < 2 * |flags|
  {
    var i := SlotAt(|flags|, arm, turn);
    (turn >= |flags| || !flags[i]) && i !in locked(turn)
  }

  predicate NothingYet(flags: seq<bool>, locked: nat -> set<nat>, arm: nat, turns: nat)
    requires arm < |flags| && turns <= 2 * |flags|
  {
    forall k :: 0 <= k < turns ==> !Succeeds(flags, locked, arm, k)
  }

  /** The slot of the first turn that succeeds, or of the turn after two sweeps without success. */
  predicate IsFirst(flags: seq<bool>, locked: nat -> set<nat>, arm: nat, i: nat, turns: nat)
    requires arm < |flags|
  {
    && 1 <= turns <= 2 * |flags| + 1 && i == SlotAt(|flags|, arm, turns - 1)
    && NothingYet(flags, locked, arm, turns - 1) && (turns <= 2 * |flags| ==> Succeeds(flags, locked, arm, turns - 1))
  }

  /** The slot nearest to the arm. */
  predicate Nearest(candidates: set<nat>, n: nat, arm: nat, i: nat)
    requires arm < n
  {
    i < n && i in candidates && forall j :: j in candidates && j < n ==> Offset(n, arm, i) <= Offset(n, arm, j)
  }

  /** The nearest slot that is neither locked nor recently used; failing that, since one sweep clears
      all flags, the nearest that is not locked; failing that, the slot under the arm. */
  predicate IsVictim(flags: seq<bool>, locked: set<nat>, arm: nat, i: nat, turns: nat)
    requires arm < |flags|
  {
    var n := |flags|;
    var free := set j | 0 <= j < n && Free(flags, locked, j);
    var unlocked := set j | 0 <= j < n && j !in locked;
    if free != {} then Nearest(free, n, arm, i) && turns == Offset(n, arm, i) + 1
    else if unlocked != {} then Nearest(unlocked, n, arm, i) && turns == n + Offset(n, arm, i) + 1
    else i == arm && turns == 2 * n + 1
  }

  /** A slot comes by at its offset, and again one sweep later. */
  lemma ComesBy(n: nat, arm: nat, j: nat)
    requires arm < n && j < n
    ensures SlotAt(n, arm, Offset(n, arm, j)) == SlotAt(n, arm, n + Offset(n, arm, j)) == j
  {
  }

  lemma OffsetAt(n: nat, arm: nat, turn: nat)
    requires arm < n && turn < 2 * n
    ensures SlotAt(n, arm, turn) < n && Offset(n, arm, SlotAt(n, arm, turn)) == TurnOf(n, turn)
  {
  }

  /** While the locked slots stay the same, the first to be had is the victim. */
  lemma SteadyVictim(flags: seq<bool>, locked: nat -> set<nat>, held: set<nat>, arm: nat, i: nat, turns: nat)
    requires arm < |flags| && IsFirst(flags, locked, arm, i, turns)
    requires forall k :: locked(k) == held
    ensures IsVictim(flags, held, arm, i, turns)
  {
    var n := |flags|;
    forall j | 0 <= j < n
      ensures Free(flags, held, j) ==> turns - 1 <= Offset(n, arm, j)
      ensures j !in held ==> turns - 1 <= n + Offset(n, arm, j)
    {
      ComesBy(n, arm, j);
      if Free(flags, held, j) && Offset(n, arm, j) < turns - 1 {
        assert Succeeds(flags, locked, arm, Offset(n, arm, j));
      } else if j !in held && n + Offset(n, arm, j) < turns - 1 {
        assert Succeeds(flags, locked, arm, n + Offset(n, arm, j));
      }
    }
    if turns <= 2 * n {
      OffsetAt(n, arm, turns - 1);
      assert i !in held && (turns <= n ==> Free(flags, held, i));
    }
  }

  lemma OneCleared(flags: seq<bool>, arm: nat, turns: nat)
    requires arm < |flags| && turns < 2 * |flags|
    ensures var i := SlotAt(|flags|, arm, turns);
            && Cleared(flags, arm, turns)[i] == (turns < |flags| && flags[i])
            && Cleared(flags, arm, turns + 1) == Cleared(flags, arm, turns)[i := false]
  {
  }

  lemma AllCleared(flags: seq<bool>, arm: nat)
    requires arm < |flags|
    ensures Cleared(flags, arm, 2 * |flags|) == Cleared(flags, arm, 2 * |flags| + 1)
  {
  }

  /** Where the arm is after so many turns from `start`. */
  lemma ArmAfter(start: nat, turns: nat, n: nat)
    requires n > 0 && turns <= 2 * n
    ensures (start + turns) % n == Position(n, start % n, TurnOf(n, turns))
  {
    var q, arm := start / n, start % n;
    assert start == q * n + arm;
    Scale(q, q, n);
    Scale(q + 1, q + 1, n);
    if arm + turns < n {
      Remainder(q, arm + turns, n);
    } else if arm + turns < 2 * n {
      Remainder(q + 1, arm + turns - n, n);
    } else {
      Remainder(q + 2, arm + turns - 2 * n, n);
    }
  }

  class OpenFiles {
    var next: nat
    var recentlyUsed: seq<bool>
    var tags: seq<nat>
    var files: seq<Option<Path>>

    ghost predicate Valid()
      reads this
    {
      0 < |recentlyUsed| == |tags| == |files|
    }

    constructor (n: nat)
      requires n > 0
      ensures Valid() && |tags| == n && next == 0
      ensures forall i :: 0 <= i < n ==> !recentlyUsed[i] && tags[i] == 0 && files[i].None?
    {
      next := 0;
      recentlyUsed, tags, files := seq(n, _ => false), seq(n, _ => 0), seq(n, _ => None);
    }

    /** The clock arm: fetch_add, modulo the number of slots. */
    method Advance(ghost start: nat, ghost turns: nat) returns (i: nat)
      requires Valid() && turns <= 2 * |tags| && next == start + turns
      modifies this`next
      ensures next == start + turns + 1
      ensures i < |tags| && i == SlotAt(|tags|, start % |tags|, turns)
    {
      i := next % |tags|;
      ArmAfter(start, turns, |tags|);
      next := next + 1;
    }

    /** Where the sweep stands after so many turns without success. */
    ghost predicate Sweeping(locked: nat -> set<nat>, flags: seq<bool>, arm: nat, turns: nat)
      reads this
    {
      && Valid() && arm < |tags| == |flags| && turns <= 2 * |tags|
      && recentlyUsed == Cleared(flags, arm, turns) && NothingYet(flags, locked, arm, turns)
    }

    /** One turn of the sweep; `taken` when the slot under the arm was to be had. */
    method Turn(locked: nat -> set<nat>, turns: nat, ghost flags: seq<bool>, ghost start: nat, ghost arm: nat)
      returns (index: nat, taken: bool)
      requires Sweeping(locked, flags, arm, turns) && turns < 2 * |tags|
      requires next == start + turns && arm == start % |tags|
      modifies this`next, this`recentlyUsed
      ensures Valid() && next == start + turns + 1 && recentlyUsed == Cleared(flags, arm, turns + 1)
      ensures if taken then index < |tags| && IsFirst(flags, locked, arm, index, turns + 1)
              else Sweeping(locked, flags, arm, turns + 1)
    {
      index := Advance(start, turns);
      OneCleared(flags, arm, turns);
      taken := !recentlyUsed[index] && index !in locked(turns);
      recentlyUsed := recentlyUsed[index := false];
      assert taken <==> Succeeds(flags, locked, arm, turns);
    }

    /** The sweep of find_victim_slot: after two rounds without success the slot under the arm is taken. */
    method Sweep(locked: nat -> set<nat>, ghost arm: nat) returns (index: nat, turns: nat)
      requires Valid() && arm == next % |tags|
      modifies this`next, this`recentlyUsed
      ensures Valid() && index < |tags| && next == old(next) + turns
      ensures IsFirst(old(recentlyUsed), locked, arm, index, turns)
      ensures recentlyUsed == Cleared(old(recentlyUsed), arm, turns)
    {
      ghost var flags, start := recentlyUsed, next;
      assert Cleared(flags, arm, 0) == flags;
      turns := 0;
      while turns < 2 * |tags|
        invariant turns <= 2 * |tags| && next == start + turns && Sweeping(locked, flags, arm, turns)
      {
        var taken;
        index, taken := Turn(locked, turns, flags, start, arm);
        turns := turns + 1;
        if taken { return; }
      }
      index := Advance(start, turns);
      turns := turns + 1;
      AllCleared(flags, arm);
    }

    /** `locked(k)` are the slots other threads hold at the k-th turn; the last resort waits for its slot. */
    method FindVictimSlot(locked: nat -> set<nat>) returns (index: nat, tag: nat, turns: nat)
      requires Valid()
      modifies this
      ensures Valid() && |tags| == old(|tags|) && index < |tags|
      ensures next == old(next) + turns && 1 <= turns <= 2 * |tags| + 1
      ensures IsFirst(old(recentlyUsed), locked, old(next) % |tags|, index, turns)
      ensures (forall k :: locked(k) == locked(0)) ==>
                IsVictim(old(recentlyUsed), locked(0), old(next) % |tags|, index, turns)
      ensures tag == old(tags[index]) + 1 && tags == old(tags)[index := tag]
      ensures files == old(files)[index := None]
      ensures recentlyUsed == Cleared(old(recentlyUsed), old(next) % |tags|, turns)[index := true]
    {
      index, turns := Sweep(locked, next % |tags|);
      if forall k :: locked(k) == locked(0) {
        SteadyVictim(old(recentlyUsed), locked, locked(0), old(next) % |tags|, index, turns);
      }
      files := files[index := None];
      tag := tags[index] + 1;
      tags := tags[index := tag];
      recentlyUsed := recentlyUsed[index := true];
    }
  }
}
