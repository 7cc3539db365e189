/**
 Decimal arithmetic as the invoice service uses it: a value with two decimals is a
 natural number of cents, a quotient is first rounded to 28 significant digits with
 ties to even, and the result is then rounded to cents with ties away from zero.
 */
module Rounding {

  const TEN7: nat := 10_000_000
  const TEN21: nat := 1_000_000_000_000_000_000_000
  const TEN27: nat := 1_000_000_000_000_000_000_000_000_000

  /** A decimal number: `coef` divided by ten to the power `places`. */
  datatype Dec = Dec(coef: nat, places: nat)

  function Pow10(n: nat): (p: nat)
    ensures p >= 1
  {
    if n == 0 then 1 else 10 * Pow10(n - 1)
  }

  /** The integer nearest to n/d, ties going up. */
  function HalfUp(n: nat, d: nat): (q: nat)
    requires d > 0
    ensures (2 * q - 1) * d <= 2 * n < (2 * q + 1) * d
  {
    HalfUpBounds(n, d);
    (2 * n + d) / (2 * d)
  }

  lemma HalfUpBounds(n: nat, d: nat)
    requires d > 0
    ensures var q := (2 * n + d) / (2 * d); (2 * q - 1) * d <= 2 * n < (2 * q + 1) * d
  {
    var q := (2 * n + d) / (2 * d);
    assert 2 * n + d == 2 * d * q + (2 * n + d) % (2 * d);
    assert (2 * q - 1) * d == 2 * d * q - d;
    assert (2 * q + 1) * d == 2 * d * q + d;
  }

  /** The integer nearest to n/d, ties going to the even neighbour. */
  function HalfEven(n: nat, d: nat): (q: nat)
    requires d > 0
    ensures 2 * n - d <= 2 * (q * d) <= 2 * n + d
    ensures 2 * (q * d) == 2 * n - d || 2 * (q * d) == 2 * n + d ==> q % 2 == 0
  {
    HalfEvenBounds(n, d, n / d, n % d);
    NearestEven(n / d, n % d, d)
  }

  /** The quotient or the next integer, by the remainder. */
  function NearestEven(q: nat, r: nat, d: nat): nat {
    if 2 * r < d || (2 * r == d && q % 2 == 0) then q else q + 1
  }

  lemma HalfEvenBounds(n: nat, d: nat, q: nat, r: nat)
    requires n == q * d + r && r < d
    ensures var e := NearestEven(q, r, d);
      && 2 * n - d <= 2 * (e * d) <= 2 * n + d
      && (2 * (e * d) == 2 * n - d || 2 * (e * d) == 2 * n + d ==> e % 2 == 0)
  {
    assert (q + 1) * d == q * d + d;
  }

  /** There is one nearest integer unless the value is a tie. */
  lemma NearestIsUnique(n: nat, d: nat, a: int, b: int)
    requires (2 * a - 1) * d <= 2 * n < (2 * a + 1) * d
    requires (2 * b - 1) * d <= 2 * n < (2 * b + 1) * d
    requires d > 0
    ensures a == b
  {
    if a < b {
      assert (2 * a + 1) * d <= (2 * b - 1) * d by { MulMonotone(2 * a + 1, 2 * b - 1, d); }
    } else if b < a {
      assert (2 * b + 1) * d <= (2 * a - 1) * d by { MulMonotone(2 * b + 1, 2 * a - 1, d); }
    }
  }

  lemma MulMonotone(a: int, b: int, d: nat)
    requires a <= b
    ensures a * d <= b * d
  {
    assert b * d - a * d == (b - a) * d;
  }

  /** How many decimals a quotient keeps when its coefficient has 28 digits. */
  function Places(n: nat, d: nat): (s: nat)
    requires 0 < n && 0 < d
    ensures TEN27 * d <= n * Pow10(s)
    ensures s > 0 ==> n * Pow10(s - 1) < TEN27 * d
    decreases TEN27 * d - n
  {
    if TEN27 * d <= n then
      0
    else
      var s := Places(10 * n, d);
      assert n * Pow10(s + 1) == 10 * n * Pow10(s);
      assert s > 0 ==> n * Pow10(s) == 10 * n * Pow10(s - 1);
      s + 1
  }

  /** Decimal division of n by d in the default context: 28 significant digits, ties to even. */
  function Divide(n: nat, d: nat): (r: Dec)
    requires 0 < d
  {
    if n == 0 then Dec(0, 0)
    else
      var s := Places(n, d);
      Dec(HalfEven(n * Pow10(s), d), s)
  }

  /** A decimal number of currency units, quantized half-up to a number of cents. */
  function Quantize(v: Dec): nat {
    HalfUp(100 * v.coef, Pow10(v.places))
  }

  lemma {:induction false} Pow10AtLeast(s: nat)
    requires s >= 7
    ensures Pow10(s) % 200 == 0 && Pow10(s) >= TEN7
  {
    if s == 7 {
      assert Pow10(3) == 1000;
      assert Pow10(5) == 100_000;
      assert Pow10(7) == TEN7;
    } else {
      Pow10AtLeast(s - 1);
    }
  }

  lemma {:induction false} Pow10Small(s: nat)
    requires s <= 6
    ensures Pow10(s) <= 1_000_000
  {
    assert Pow10(2) == 100;
    assert Pow10(4) == 10_000;
    assert Pow10(6) == 1_000_000;
    if s % 2 == 1 { assert Pow10(s + 1) == 10 * Pow10(s); }
  }

  /** A quotient below 10^21 keeps at least seven decimals. */
  lemma EnoughPlaces(n: nat, d: nat)
    requires 0 < n && 0 < d && n < TEN21 * d
    ensures Pow10(Places(n, d)) >= TEN7 && Pow10(Places(n, d)) % 200 == 0
  {
    var s := Places(n, d);
    if s <= 6 {
      Pow10Small(s);
      MulMonotone(Pow10(s), 1_000_000, n);
    }
    Pow10AtLeast(s);
  }

  /** The quotient has 28 significant digits and is within half a unit of its last one. */
  lemma DivideIsNearest(n: nat, d: nat)
    requires 0 < n < 10 * TEN27 * d
    ensures var r := Divide(n, d);
      && TEN27 <= r.coef <= 10 * TEN27
      && 2 * (n * Pow10(r.places)) - d <= 2 * (r.coef * d) <= 2 * (n * Pow10(r.places)) + d
  {
    var s, c := Places(n, d), Divide(n, d).coef;
    var m := n * Pow10(s);
    assert m < 10 * TEN27 * d by {
      if s > 0 { assert m == 10 * (n * Pow10(s - 1)); }
    }
    CoefBounds(c, m, d, TEN27);
  }

  lemma MulCancel(a: int, b: int, d: nat)
    requires d > 0 && a * d < b * d + d
    ensures a <= b
  {
    assert (b + 1) * d == b * d + d;
    if a > b { MulMonotone(b + 1, a, d); }
  }

  lemma CoefBounds(c: nat, m: nat, d: nat, t: nat)
    requires 0 < d && t * d <= m < 10 * t * d
    requires 2 * m - d <= 2 * (c * d) <= 2 * m + d
    ensures t <= c <= 10 * t
  {
    MulCancel(t, c, d);
    assert (10 * t) * d == 10 * t * d;
    MulCancel(c, 10 * t, d);
  }

  /**
   Rounding twice is harmless. The quotient of n cents by d, taken in currency units at
   28 digits and then quantized to cents, is the exact quotient rounded half-up once:
   a value that is not a tie stays too far from one for the first rounding to reach it.
   */
  lemma TwoStageDivision(n: nat, d: nat)
    requires 0 < d <= 20_000
    requires n < TEN21 * 100 * d
    ensures Quantize(Divide(n, 100 * d)) == HalfUp(n, d)
  {
    if n == 0 {
      assert (2 * HalfUp(n, d) - 1) * d <= 0 < (2 * HalfUp(n, d) + 1) * d;
      NearestIsUnique(0, d, HalfUp(n, d), 0);
      NearestIsUnique(0, 1, HalfUp(0, 1), 0);
    } else {
      EnoughPlaces(n, 100 * d);
      var p := Pow10(Places(n, 100 * d));
      FirstStage(n, d, p);
      NearestIsUnique(100 * HalfEven(n * p, 100 * d), p, HalfUp(100 * HalfEven(n * p, 100 * d), p), HalfUp(n, d));
    }
  }

  /** The 28-digit quotient, in cents, still has the exact half-up result as its nearest integer. */
  lemma FirstStage(n: nat, d: nat, p: nat)
    requires 0 < d <= 20_000 && p >= TEN7 && p % 200 == 0
    ensures var c, m := HalfEven(n * p, 100 * d), HalfUp(n, d);
      (2 * m - 1) * p <= 200 * c < (2 * m + 1) * p
  {
    var c, m := HalfEven(n * p, 100 * d), HalfUp(n, d);
    FirstStageUpper(n, d, p, c, m);
    if 2 * n == (2 * m - 1) * d {
      FirstStageTie(n, d, p, c, m);
    } else {
      FirstStageLower(n, d, p, c, m);
    }
  }

  lemma FirstStageUpper(n: nat, d: nat, p: nat, c: nat, m: int)
    requires 0 < d <= 20_000 && p >= TEN7
    requires 2 * (c * (100 * d)) <= 2 * (n * p) + 100 * d
    requires 2 * n < (2 * m + 1) * d
    ensures 200 * c < (2 * m + 1) * p
  {
    assert 2 * n * p <= ((2 * m + 1) * d - 1) * p by { MulMonotone(2 * n, (2 * m + 1) * d - 1, p); }
    assert ((2 * m + 1) * d - 1) * p == (2 * m + 1) * p * d - p by { Rearrange(2 * m + 1, d, p, 1); }
    assert 200 * c * d < (2 * m + 1) * p * d;
    if 200 * c >= (2 * m + 1) * p {
      MulMonotone((2 * m + 1) * p, 200 * c, d);
    }
  }

  lemma FirstStageLower(n: nat, d: nat, p: nat, c: nat, m: int)
    requires 0 < d <= 20_000 && p >= TEN7
    requires 2 * (n * p) - 100 * d <= 2 * (c * (100 * d))
    requires (2 * m - 1) * d < 2 * n
    ensures (2 * m - 1) * p <= 200 * c
  {
    assert ((2 * m - 1) * d + 1) * p <= 2 * n * p by { MulMonotone((2 * m - 1) * d + 1, 2 * n, p); }
    assert ((2 * m - 1) * d + 1) * p == (2 * m - 1) * p * d + p by { Rearrange(2 * m - 1, d, p, -1); }
    assert (2 * m - 1) * p * d < 200 * c * d;
    if 200 * c < (2 * m - 1) * p {
      MulMonotone(200 * c, (2 * m - 1) * p, d);
    }
  }

  lemma Rearrange(a: int, d: int, p: int, e: int)
    ensures (a * d - e) * p == a * p * d - e * p
  {
    assert (a * d - e) * p == (a * d) * p - e * p;
    assert (a * d) * p == a * p * d;
  }

  /** A tie is represented exactly, so the first rounding does not move it. */
  lemma FirstStageTie(n: nat, d: nat, p: nat, c: nat, m: int)
    requires 0 < d && p % 200 == 0 && 0 < p
    requires 2 * n == (2 * m - 1) * d
    requires 2 * (n * p) - 100 * d <= 2 * (c * (100 * d)) <= 2 * (n * p) + 100 * d
    ensures (2 * m - 1) * p <= 200 * c
  {
    var h := p / 200;
    var a := 2 * m - 1;
    TieProducts(n, d, h, c, a);
    MulCancel(a * h, c, d);
    assert a * p == 200 * (a * h) by { assert a * p == a * (200 * h); }
  }

  lemma TieProducts(n: int, d: int, h: int, c: int, a: int)
    requires 2 * n == a * d
    ensures 2 * (n * (200 * h)) == 200 * ((a * h) * d)
    ensures 2 * (c * (100 * d)) == 200 * (c * d)
  {
    assert 2 * (n * (200 * h)) == (2 * n) * (200 * h);
    assert (a * d) * (200 * h) == 200 * ((a * h) * d);
  }
}
