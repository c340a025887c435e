/** `java.math.BigDecimal` as an unscaled integer and a scale: the value of
    `Decimal(u, s)` is u / 10^s. Only what the price computation uses:
    `valueOf(long)`, `multiply` and `setScale(n, RoundingMode.HALF_UP)`. */
module Decimals {

  datatype Decimal = Decimal(unscaled: int, scale: nat)

  function Pow10(n: nat): (r: nat)
    ensures r >= 1
  {
    if n == 0 then 1 else 10 * Pow10(n - 1)
  }

  function Abs(x: int): nat {
    if x < 0 then -x else x
  }

  /** `BigDecimal.valueOf(long)`: scale 0. */
  function ValueOfLong(n: int): Decimal {
    Decimal(n, 0)
  }

  /** `multiply`: unscaled values multiply, scales add. */
  function Multiply(a: Decimal, b: Decimal): Decimal {
    Decimal(a.unscaled * b.unscaled, a.scale + b.scale)
  }

  /** `r` is `d` rounded to `r.scale` digits with HALF_UP: at a scale no
      finer than `d`'s, the same value; at a coarser one, a whole number of
      units of `r.scale` within half a unit of `d`, a tie going away from zero,
      with `d`'s sign. */
  ghost predicate RoundsHalfUp(d: Decimal, r: Decimal) {
    if r.scale >= d.scale then
      r.unscaled == d.unscaled * Pow10(r.scale - d.scale)
    else
      NearestHalfUp(d.unscaled, r.unscaled * Pow10(d.scale - r.scale), Pow10(d.scale - r.scale))
  }

  /** `y` is as close to `x` as a multiple of `unit` can be, ties away from
      zero, with the sign of `x`. */
  ghost predicate NearestHalfUp(x: int, y: int, unit: nat) {
    && 2 * Abs(x - y) <= unit
    && (2 * Abs(x - y) == unit ==> Abs(y) > Abs(x))
    && (x >= 0 ==> y >= 0)
    && (x <= 0 ==> y <= 0)
  }

  /** `setScale(s, RoundingMode.HALF_UP)`. */
  function SetScaleHalfUp(d: Decimal, s: nat): (r: Decimal)
    ensures r.scale == s
    ensures RoundsHalfUp(d, r)
  {
    if s >= d.scale then
      Decimal(d.unscaled * Pow10(s - d.scale), s)
    else
      var n := RoundMagnitude(Abs(d.unscaled), Pow10(d.scale - s));
      ScaleDownRoundsHalfUp(d, s, n);
      Decimal(if d.unscaled < 0 then -(n as int) else n, s)
  }

  lemma ScaleDownRoundsHalfUp(d: Decimal, s: nat, n: nat)
    requires s < d.scale
    requires 2 * Abs(Abs(d.unscaled) - n * Pow10(d.scale - s)) <= Pow10(d.scale - s)
    requires 2 * Abs(Abs(d.unscaled) - n * Pow10(d.scale - s)) == Pow10(d.scale - s)
             ==> n * Pow10(d.scale - s) > Abs(d.unscaled)
    ensures RoundsHalfUp(d, Decimal(if d.unscaled < 0 then -(n as int) else n, s))
  {
    var p := Pow10(d.scale - s);
    var np := n * p;
    ProductFacts(n, p);
    SignedNearest(d.unscaled, np, p);
  }

  lemma ProductFacts(n: nat, p: nat)
    requires p >= 1
    ensures n * p >= 0 && (n == 0 || n * p >= p)
    ensures (-(n as int)) * p == -(n * p)
  {
    if n >= 1 {
      assert n * p == (n - 1) * p + p;
    }
  }

  /** The sign-and-magnitude step of HALF_UP rounding, in linear arithmetic. */
  lemma SignedNearest(u: int, np: int, p: nat)
    requires p >= 1 && np >= 0 && (np == 0 || np >= p)
    requires 2 * Abs(Abs(u) - np) <= p
    requires 2 * Abs(Abs(u) - np) == p ==> np > Abs(u)
    ensures NearestHalfUp(u, if u < 0 then -np else np, p)
  {
  }

  /** Division of a magnitude by `p`, rounding half up. */
  function RoundMagnitude(m: nat, p: nat): (n: nat)
    requires p >= 1
    ensures 2 * Abs(m - n * p) <= p
    ensures 2 * Abs(m - n * p) == p ==> n * p > m
  {
    var q := m / p;
    var rem := m % p;
    assert m == q * p + rem;
    assert (q + 1) * p == q * p + p;
    if 2 * rem >= p then q + 1 else q
  }

  /** Rounding never turns a non-negative value negative. */
  lemma RoundingKeepsSign(d: Decimal, r: Decimal)
    requires RoundsHalfUp(d, r) && d.unscaled >= 0
    ensures r.unscaled >= 0
  {
    if r.scale < d.scale {
      var p := Pow10(d.scale - r.scale);
      if r.unscaled < 0 {
        NegativeTimesPositive(r.unscaled, p);
      }
    } else {
      var p := Pow10(r.scale - d.scale);
      assert r.unscaled == d.unscaled * p;
    }
  }

  lemma NegativeTimesPositive(x: int, p: nat)
    requires x < 0 && p >= 1
    ensures x * p < 0
  {
    assert x * p == x * (p - 1) + x;
    if p > 1 {
      NegativeTimesPositive(x, p - 1);
    }
  }
}
