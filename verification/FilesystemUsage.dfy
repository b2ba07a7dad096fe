/** The disk usage that eviction looks at: how full the file system is, and when that is too full. */
module FilesystemUsage {
  import opened Arith

  /** `round` is what floating-point arithmetic makes of an exact result. */
  datatype Config = Config(minAvailBytes: nat, maxUsagePct: nat, round: real -> real)
  datatype Usage = Usage(total: nat, avail: nat)

  /** 100 * (1 - avail / total), rounded at each step and truncated to an unsigned integer: negative and
      undefined values are 0. */
  function UsagePct(round: real -> real, u: Usage): nat {
    var avail, total := round(u.avail as real), round(u.total as real);
    if total == 0.0 then 0 else UsedPct(round, round(avail / total))
  }

  /** The percentage that is used when this share is available. */
  function UsedPct(round: real -> real, share: real): nat {
    Truncated(round(100.0 * round(1.0 - share)))
  }

  function Truncated(x: real): nat {
    if x < 0.0 then 0 else x.Floor
  }

  predicate HasPressure(config: Config, u: Usage) {
    u.avail < config.minAvailBytes || UsagePct(config.round, u) >= config.maxUsagePct
  }

  function AddAvailable(u: Usage, bytes: nat): Usage {
    u.(avail := u.avail + bytes)
  }

  // --- what holds of every rounding

  /** Rounding keeps the order, and 0 and 1. */
  ghost predicate IsRounding(round: real -> real) {
    round(0.0) == 0.0 && round(1.0) == 1.0 && forall x, y :: x <= y ==> round(x) <= round(y)
  }

  lemma DivideMonotone(x: real, y: real, d: real)
    requires x <= y && d > 0.0
    ensures x / d <= y / d
  {
    assert x == x / d * d && y == y / d * d;
  }

  lemma PctNeverRises(round: real -> real, u: Usage, bytes: nat)
    requires IsRounding(round)
    ensures UsagePct(round, AddAvailable(u, bytes)) <= UsagePct(round, u)
  {
    var v := AddAvailable(u, bytes);
    var total, a, b := round(u.total as real), round(u.avail as real), round(v.avail as real);
    if u.total > 0 {
      assert round(1.0) <= total && a <= b;
      DivideMonotone(a, b, total);
      var q, r := round(a / total), round(b / total);
      var s, t := round(1.0 - q), round(1.0 - r);
      assert q <= r && t <= s && round(100.0 * t) <= round(100.0 * s);
    }
  }

  /** Freeing space never brings pressure. */
  lemma PressureMonotone(config: Config, u: Usage, bytes: nat)
    requires IsRounding(config.round) && !HasPressure(config, u)
    ensures !HasPressure(config, AddAvailable(u, bytes))
  {
    PctNeverRises(config.round, u, bytes);
  }

  // --- the exact share

  function ExactPct(u: Usage): nat {
    if u.avail >= u.total then 0 else 100 * (u.total - u.avail) / u.total
  }

  /** The exact percentage is reached when that share of the disk is used. */
  lemma PctMeansShare(u: Usage, pct: nat)
    requires u.total > 0 && pct > 0
    ensures ExactPct(u) >= pct <==> u.avail < u.total && 100 * (u.total - u.avail) >= pct * u.total
  {
    if u.avail < u.total { QuotientBound(100 * (u.total - u.avail), u.total, pct); }
  }

  const U64_LIMIT: real := 18446744073709551616.0
  const MILLIONTH: real := 0.000001

  predicate Near(x: real, y: real, limit: real) {
    y - limit <= x <= y + limit
  }

  /** Rounding changes what is within the range of 64-bit integers by about a millionth at most. */
  ghost predicate IsClose(round: real -> real) {
    forall x :: 0.0 <= x <= U64_LIMIT ==> Near(round(x), x, (x + 1.0) * MILLIONTH)
  }

  lemma NonNegative(x: real, y: real)
    requires 0.0 <= x && 0.0 <= y
    ensures 0.0 <= x * y
  {
  }

  lemma Grows(x: real, y: real, k: real)
    requires x >= y && k >= 0.0
    ensures x * k >= y * k
  {
    NonNegative(x - y, k);
    assert (x - y) * k == x * k - y * k;
  }

  lemma Cancel(x: real, y: real, k: real)
    requires x * k <= y * k && k > 0.0
    ensures x <= y
  {
  }

  lemma CancelStrictly(x: real, y: real, k: real)
    requires x * k < y * k && k > 0.0
    ensures x < y
  {
  }

  lemma Shrinks(r: real, h: real, limit: real)
    requires 0.0 <= r <= 1.0 && Near(h, 0.0, limit)
    ensures Near(r * h, 0.0, limit)
  {
    assert (1.0 - r) * h == h - r * h;
    if h >= 0.0 {
      NonNegative(r, h);
      NonNegative(1.0 - r, h);
    } else {
      NonNegative(r, -h);
      NonNegative(1.0 - r, -h);
      assert r * -h == -(r * h) && (1.0 - r) * -h == -((1.0 - r) * h);
    }
  }

  lemma Divided(k: real, t: real, y: real)
    requires 0.0 <= k && 0.9 * y <= t && 0.0 < y && k * t <= 4.0 * MILLIONTH * y
    ensures k <= 5.0 * MILLIONTH
  {
    Grows(t, 0.9 * y, k);
    Cancel(0.9 * k, 4.0 * MILLIONTH, y);
  }

  /** Quotients of close numbers are close: q is (x + g) / (y + h), and r is x / y. */
  lemma QuotientClose(x: real, y: real, g: real, h: real, q: real, r: real)
    requires x + g == q * (y + h) && x == r * y && 0.0 <= r <= 1.0 && y > 0.0
    requires Near(g, 0.0, 2.0 * MILLIONTH * y) && Near(h, 0.0, 2.0 * MILLIONTH * y)
    ensures Near(q, r, 5.0 * MILLIONTH)
  {
    Shrinks(r, h, 2.0 * MILLIONTH * y);
    assert (q - r) * (y + h) == g - r * h;
    if q >= r {
      Divided(q - r, y + h, y);
    } else {
      assert (r - q) * (y + h) == r * h - g;
      Divided(r - q, y + h, y);
    }
  }

  lemma {:induction false} RealTimes(a: nat, b: nat)
    ensures (a * b) as real == a as real * b as real
  {
    if a > 0 {
      RealTimes(a - 1, b);
      assert a * b == (a - 1) * b + b;
      assert a as real * b as real == (a - 1) as real * b as real + b as real;
    }
  }

  lemma ShareBounds(share: real, total: real, m: real, p: real)
    requires total > 0.0 && share * total == m && p * total <= m < (p + 1.0) * total
    ensures p <= share < p + 1.0
  {
    Cancel(p, share, total);
    CancelStrictly(share, p + 1.0, total);
  }

  /** The exact percentage is the whole part of the exact share; r is avail / total. */
  lemma ExactBounds(u: Usage, r: real)
    requires u.avail < u.total && u.avail as real == r * u.total as real
    ensures ExactPct(u) as real <= 100.0 * (1.0 - r) < ExactPct(u) as real + 1.0
  {
    var m, p, total := 100 * (u.total - u.avail), ExactPct(u), u.total as real;
    QuotientBound(m, u.total, p);
    QuotientBound(m, u.total, p + 1);
    RealTimes(p, u.total);
    RealTimes(p + 1, u.total);
    assert (100.0 * (1.0 - r)) * total == 100.0 * total - 100.0 * (r * total);
    ShareBounds(100.0 * (1.0 - r), total, m as real, p as real);
  }

  lemma InputClose(round: real -> real, n: nat)
    requires IsClose(round) && n as real <= U64_LIMIT
    ensures Near(round(n as real), n as real, (n as real + 1.0) * MILLIONTH)
  {
  }

  lemma UnitClose(round: real -> real, x: real)
    requires IsRounding(round) && IsClose(round) && 0.0 <= x <= 1.0
    ensures 0.0 <= round(x) <= 1.0 && Near(round(x), x, 2.0 * MILLIONTH)
  {
    assert round(0.0) <= round(x) <= round(1.0);
  }

  lemma PercentClose(round: real -> real, s: real)
    requires IsRounding(round) && IsClose(round) && 0.0 <= s <= 1.0
    ensures 0.0 <= round(100.0 * s) && Near(round(100.0 * s), 100.0 * s, 101.0 * MILLIONTH)
  {
    assert round(0.0) <= round(100.0 * s);
  }

  lemma UnitQuotient(a: real, t: real)
    requires 0.0 <= a <= t && 0.0 < t
    ensures 0.0 <= a / t <= 1.0 && a == a / t * t
  {
    DivideMonotone(0.0, a, t);
    DivideMonotone(a, t, t);
  }

  /** The computed share q of the available bytes is close to the exact one, r; q0 is the quotient. */
  lemma ShareClose(x: real, y: real, a: real, t: real, q0: real, q: real, r: real)
    requires 0.0 <= x && x + 1.0 <= y && 0.0 <= r <= 1.0 && x == r * y && a == q0 * t
    requires Near(a, x, (x + 1.0) * MILLIONTH) && Near(t, y, (y + 1.0) * MILLIONTH)
    requires Near(q, q0, 2.0 * MILLIONTH)
    ensures Near(q, r, 7.0 * MILLIONTH)
  {
    QuotientClose(x, y, a - x, t - y, q0, r);
  }

  lemma FloorsClose(x: real, y: real, n: nat)
    requires 0.0 <= x && n as real <= y < n as real + 1.0 && Near(x, y, 0.5)
    ensures n - 1 <= Truncated(x) <= n + 1
  {
  }

  lemma UsedPctClose(round: real -> real, q: real, r: real, n: nat)
    requires IsRounding(round) && IsClose(round) && 0.0 <= q <= 1.0 && Near(q, r, 7.0 * MILLIONTH)
    requires n as real <= 100.0 * (1.0 - r) < n as real + 1.0
    ensures n - 1 <= UsedPct(round, q) <= n + 1
  {
    UnitClose(round, 1.0 - q);
    PercentClose(round, round(1.0 - q));
    FloorsClose(round(100.0 * round(1.0 - q)), 100.0 * (1.0 - r), n);
  }

  lemma InputsOrdered(round: real -> real, u: Usage)
    requires IsRounding(round) && u.total > 0
    ensures 0.0 <= round(u.avail as real) && 1.0 <= round(u.total as real)
    ensures u.avail <= u.total ==> round(u.avail as real) <= round(u.total as real)
    ensures u.avail >= u.total ==> round(u.avail as real) >= round(u.total as real)
  {
    assert round(0.0) <= round(u.avail as real) && round(1.0) <= round(u.total as real);
  }

  lemma ExactShare(x: real, y: real) returns (r: real)
    requires 0.0 <= x <= y && 0.0 < y
    ensures 0.0 <= r <= 1.0 && x == r * y
  {
    UnitQuotient(x, y);
    r := x / y;
  }

  lemma RoundedShare(u: Usage, a: real, t: real, q0: real, q: real, r: real)
    requires u.avail < u.total && 0.0 <= r <= 1.0 && u.avail as real == r * u.total as real && a == q0 * t
    requires Near(a, u.avail as real, (u.avail as real + 1.0) * MILLIONTH)
    requires Near(t, u.total as real, (u.total as real + 1.0) * MILLIONTH) && Near(q, q0, 2.0 * MILLIONTH)
    ensures Near(q, r, 7.0 * MILLIONTH)
  {
    ShareClose(u.avail as real, u.total as real, a, t, q0, q, r);
  }

  lemma UnitRange(a: real, t: real)
    requires 0.0 <= a <= t && 0.0 < t
    ensures 0.0 <= a / t <= 1.0
  {
    UnitQuotient(a, t);
  }

  /** The computed share q is close to one that gives the exact percentage. */
  lemma ComputedShare(u: Usage, a: real, t: real, q: real) returns (r: real)
    requires u.avail < u.total && 0.0 <= a <= t && 0.0 < t && Near(q, a / t, 2.0 * MILLIONTH)
    requires Near(a, u.avail as real, (u.avail as real + 1.0) * MILLIONTH)
    requires Near(t, u.total as real, (u.total as real + 1.0) * MILLIONTH)
    ensures Near(q, r, 7.0 * MILLIONTH) && ExactPct(u) as real <= 100.0 * (1.0 - r) < ExactPct(u) as real + 1.0
  {
    UnitQuotient(a, t);
    r := ExactShare(u.avail as real, u.total as real);
    RoundedShare(u, a, t, a / t, q, r);
    ExactBounds(u, r);
  }

  lemma UsedWithinOne(round: real -> real, u: Usage, a: real, t: real)
    requires IsRounding(round) && IsClose(round) && u.avail < u.total && u.total as real <= U64_LIMIT
    requires a == round(u.avail as real) && t == round(u.total as real) && 0.0 <= a <= t && 0.0 < t
    ensures ExactPct(u) - 1 <= UsedPct(round, round(a / t)) <= ExactPct(u) + 1
  {
    InputClose(round, u.avail);
    InputClose(round, u.total);
    UnitRange(a, t);
    UnitClose(round, a / t);
    var r := ComputedShare(u, a, t, round(a / t));
    UsedPctClose(round, round(a / t), r, ExactPct(u));
  }

  /** The percentage computed is the exact one, or one off. */
  lemma PctWithinOne(round: real -> real, u: Usage)
    requires IsRounding(round) && IsClose(round) && u.total as real <= U64_LIMIT
    ensures ExactPct(u) - 1 <= UsagePct(round, u) <= ExactPct(u) + 1
  {
    if u.avail >= u.total {
      FullIsZero(round, u);
    } else {
      InputsOrdered(round, u);
      UsedWithinOne(round, u, round(u.avail as real), round(u.total as real));
    }
  }

  lemma NothingUsed(round: real -> real, q: real)
    requires IsRounding(round) && 1.0 <= q
    ensures UsedPct(round, round(q)) == 0
  {
    assert round(1.0) <= round(q);
    assert round(1.0 - round(q)) <= round(0.0);
    assert round(100.0 * round(1.0 - round(q))) <= round(0.0);
  }

  /** A disk with as much available as it has is not used at all, however results are rounded. */
  lemma FullIsZero(round: real -> real, u: Usage)
    requires IsRounding(round) && u.avail >= u.total
    ensures UsagePct(round, u) == 0
  {
    if u.total > 0 {
      var a, t := round(u.avail as real), round(u.total as real);
      InputsOrdered(round, u);
      DivideMonotone(t, a, t);
      NothingUsed(round, a / t);
    }
  }

  function Exactly(x: real): real {
    x
  }

  /** Exact arithmetic is such a rounding. */
  lemma ExactIsRounding()
    ensures IsRounding(Exactly) && IsClose(Exactly)
  {
  }

  lemma ExactlyUsed(q: real, n: nat)
    requires n as real <= 100.0 * (1.0 - q) < n as real + 1.0
    ensures UsedPct(Exactly, q) == n
  {
  }

  /** Exact arithmetic computes the exact percentage. */
  lemma ExactlyExact(u: Usage)
    ensures UsagePct(Exactly, u) == ExactPct(u)
  {
    if u.avail < u.total {
      UnitQuotient(u.avail as real, u.total as real);
      ExactBounds(u, u.avail as real / u.total as real);
      ExactlyUsed(u.avail as real / u.total as real, ExactPct(u));
    } else {
      FullIsZero(Exactly, u);
    }
  }

  /** With 9 of 10 bytes available, 64-bit floats compute 9 where a tenth of the disk is used. */
  lemma RoundedBelowShare(round: real -> real)
    requires round(9.0) == 9.0 && round(10.0) == 10.0
    requires round(0.9) == 8106479329266893.0 / 9007199254740992.0
    requires round(900719925474099.0 / 9007199254740992.0) == 900719925474099.0 / 9007199254740992.0
    requires round(90071992547409900.0 / 9007199254740992.0) == 5629499534213119.0 / 562949953421312.0
    ensures UsagePct(round, Usage(10, 9)) == 9 && ExactPct(Usage(10, 9)) == 10
  {
    assert 9.0 / 10.0 == 0.9;
    assert 1.0 - round(0.9) == 900719925474099.0 / 9007199254740992.0;
    assert 100.0 * (900719925474099.0 / 9007199254740992.0) == 90071992547409900.0 / 9007199254740992.0;
    assert 9.0 <= 5629499534213119.0 / 562949953421312.0 < 10.0;
  }
}
