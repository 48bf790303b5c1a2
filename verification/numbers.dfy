/**
  JavaScript numbers as far as the dashboard depends on them: exact reals, plus
  the NaN that an unguarded `0 / 0` produces and that `isNaN` checks for.
 */
module Numbers {

  /** A number that may be NaN. Infinities never arise in the modelled code. */
  datatype Num = NaN | Fin(val: real)

  /** JavaScript `Math.round`: the nearest integer, halves rounded up. */
  function Round(x: real): (r: int)
    ensures x - 1.0 / 2.0 < r as real <= x + 1.0 / 2.0
  {
    (x + 1.0 / 2.0).Floor
  }

  /** `Math.min(hi, Math.max(lo, x))`. */
  function Clamp(x: real, lo: real, hi: real): (r: real)
    requires lo <= hi
    ensures lo <= r <= hi
    ensures lo <= x <= hi ==> r == x
    ensures x < lo ==> r == lo
    ensures hi < x ==> r == hi
  {
    if x < lo then lo else if hi < x then hi else x
  }

  function Min(a: real, b: real): (r: real)
    ensures r <= a && r <= b && (r == a || r == b)
  {
    if a <= b then a else b
  }

  function Max(a: real, b: real): (r: real)
    ensures r >= a && r >= b && (r == a || r == b)
  {
    if a >= b then a else b
  }

  function MinInt(a: int, b: int): (r: int)
    ensures r <= a && r <= b && (r == a || r == b)
  {
    if a <= b then a else b
  }

  /** Rounding is monotone: a larger argument never rounds to a smaller integer. */
  lemma RoundMonotone(x: real, y: real)
    requires x <= y
    ensures Round(x) <= Round(y)
  {
  }

  /** Rounding an integer-valued real gives that integer back. */
  lemma RoundOfInt(n: int)
    ensures Round(n as real) == n
  {
  }

  /** Comparing a quotient by a positive divisor is comparing the dividend with the product. */
  lemma Quotient(t: real, d: real, c: real)
    requires d > 0.0
    ensures t / d == c <==> t == c * d
    ensures t / d <= c <==> t <= c * d
    ensures t / d >= c <==> t >= c * d
  {
    var q := t / d;
    assert q * d == t;
    if q <= c {
      assert q * d <= c * d;
    }
    if q >= c {
      assert q * d >= c * d;
    }
    if t <= c * d {
      assert q * d <= c * d;
    }
    if t >= c * d {
      assert q * d >= c * d;
    }
  }
}
