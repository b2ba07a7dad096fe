/** Sums of the values of a map. */
module Sums {
  ghost function Sum<K(!new)>(values: map<K, nat>): nat {
    if values == map[] then 0 else var k :| k in values; values[k] + Sum(values - {k})
  }

  lemma {:induction false} SumRemove<K(!new)>(values: map<K, nat>, k: K)
    requires k in values
    ensures Sum(values) == values[k] + Sum(values - {k})
    decreases |values|
  {
    var first :| first in values && Sum(values) == values[first] + Sum(values - {first});
    if first != k {
      SumRemove(values - {first}, k);
      assert (values - {first}) - {k} == (values - {k}) - {first};
      SumRemove(values - {k}, first);
    }
  }

  lemma SumUpdate<K(!new)>(values: map<K, nat>, k: K, n: nat)
    ensures Sum(values[k := n]) == Sum(values) + n - if k in values then values[k] else 0
  {
    SumRemove(values[k := n], k);
    if k in values {
      SumRemove(values, k);
      assert values[k := n] - {k} == values - {k};
    } else {
      assert values[k := n] - {k} == values;
    }
  }

  lemma SameRest<K(!new)>(values: map<K, nat>, part: map<K, nat>, k: K)
    requires k in part && part.Keys <= values.Keys
    ensures (values - {k}) - (part - {k}).Keys == values - part.Keys && (part - {k}).Keys <= (values - {k}).Keys
  {
    assert (part - {k}).Keys == part.Keys - {k};
  }

  lemma {:induction false} SumSplit<K(!new)>(values: map<K, nat>, part: map<K, nat>)
    requires part.Keys <= values.Keys && forall k :: k in part ==> part[k] == values[k]
    ensures Sum(values) == Sum(part) + Sum(values - part.Keys)
    decreases |part|
  {
    if part == map[] {
      assert values - part.Keys == values;
    } else {
      var k :| k in part;
      SumRemove(values, k);
      SumRemove(part, k);
      SameRest(values, part, k);
      SumSplit(values - {k}, part - {k});
    }
  }

  /** Sums add up key by key. */
  lemma {:induction false} SumPlus<K(!new)>(a: map<K, nat>, b: map<K, nat>, c: map<K, nat>)
    requires a.Keys == b.Keys == c.Keys && forall k :: k in a ==> c[k] == a[k] + b[k]
    ensures Sum(c) == Sum(a) + Sum(b)
    decreases |a|
  {
    if a != map[] {
      var k :| k in a;
      SumRemove(a, k);
      SumRemove(b, k);
      SumRemove(c, k);
      SumPlus(a - {k}, b - {k}, c - {k});
    } else {
      assert b == map[] && c == map[];
    }
  }
}
