/** Sequences of sequences, joined. */
module Seqs {
  function Flatten<T>(parts: seq<seq<T>>): seq<T> {
    if parts == [] then [] else Flatten(parts[..|parts| - 1]) + parts[|parts| - 1]
  }

  lemma FlattenPush<T>(parts: seq<seq<T>>, p: seq<T>)
    ensures Flatten(parts + [p]) == Flatten(parts) + p
  {
    assert (parts + [p])[..|parts|] == parts;
  }

  lemma Reassociate<T>(a: seq<T>, b: seq<T>, c: seq<T>)
    ensures (a + b) + c == a + (b + c)
  {
  }

  lemma {:induction false} FlattenFirst<T>(parts: seq<seq<T>>)
    requires parts != []
    ensures Flatten(parts) == parts[0] + Flatten(parts[1..])
    decreases |parts|
  {
    var init, last := parts[..|parts| - 1], parts[|parts| - 1];
    if init == [] {
      assert parts[1..] == [];
    } else {
      FlattenFirst(init);
      FlattenPush(init[1..], last);
      assert parts[1..] == init[1..] + [last];
      Reassociate(init[0], Flatten(init[1..]), last);
    }
  }

  lemma {:induction false} InFlatten<T>(parts: seq<seq<T>>, x: T)
    requires x in Flatten(parts)
    ensures exists k :: 0 <= k < |parts| && x in parts[k]
    decreases |parts|
  {
    var n := |parts| - 1;
    if x !in parts[n] {
      InFlatten(parts[..n], x);
      var k :| 0 <= k < n && x in parts[..n][k];
      assert x in parts[k];
    }
  }

  lemma {:induction false} FlattenHolds<T>(parts: seq<seq<T>>, k: nat, x: T)
    requires k < |parts| && x in parts[k]
    ensures x in Flatten(parts)
    decreases |parts|
  {
    var n := |parts| - 1;
    if k < n {
      FlattenHolds(parts[..n], k, x);
    }
  }
}
