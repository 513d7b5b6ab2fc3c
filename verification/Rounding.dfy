/** Round-to-nearest, ties-to-even, with a p-bit significand (section 4.3.1 of IEEE 754-2008) on non-negative
    reals. The exponent is not bounded: every value the program rounds lies far inside the normal range. */
module Rounding {

  function Pow2(e: int): (r: real)
    ensures r > 0.0
    decreases if e < 0 then -e else e
  {
    if e == 0 then 1.0 else if e > 0 then 2.0 * Pow2(e - 1) else Pow2(e + 1) / 2.0
  }

  function NatPow2(e: nat): (r: nat)
    ensures r > 0
  {
    if e == 0 then 1 else 2 * NatPow2(e - 1)
  }

  /** A product that proofs may hide, so that the solver treats it as an unknown. */
  function Mul(a: real, b: real): real {
    a * b
  }

  function Quotient(a: real, b: real): real
    requires b > 0.0
  {
    a / b
  }

  function Abs(x: real): real {
    if x < 0.0 then -x else x
  }

  /** floor(log2(x)). */
  function Exponent(x: real): (e: int)
    requires x > 0.0
    ensures Pow2(e) <= x < Pow2(e + 1)
    decreases if x < 1.0 then (1.0 / x).Floor + 2 else x.Floor
  {
    if x >= 2.0 then
      var e := Exponent(x / 2.0);
      Pow2Double(e);
      Pow2Double(e + 1);
      e + 1
    else if x < 1.0 then
      DoublingIsSmaller(x);
      var e := Exponent(2.0 * x);
      Pow2Double(e);
      Pow2Double(e - 1);
      e - 1
    else
      0
  }

  lemma DoublingIsSmaller(x: real)
    requires 0.0 < x < 1.0
    ensures 2.0 * x >= 1.0 ==> (2.0 * x).Floor == 1
    ensures 2.0 * x < 1.0 ==> (1.0 / (2.0 * x)).Floor < (1.0 / x).Floor
    ensures (1.0 / x).Floor >= 1
  {
    var r := 1.0 / x;
    assert r * x == 1.0;
    assert r > 1.0;
    var h := 1.0 / (2.0 * x);
    assert h * (2.0 * x) == 1.0;
    assert h == r / 2.0;
    assert 2.0 * x < 1.0 ==> r > 2.0;
  }

  /** The integer nearest to s; the even one when two are equally near. */
  function HalfEven(s: real): (m: int)
    ensures Abs(m as real - s) <= 0.5
  {
    var f := s.Floor;
    var rest := s - f as real;
    if rest < 0.5 || (rest == 0.5 && f % 2 == 0) then f else f + 1
  }

  /** The spacing of p-bit numbers around x. */
  function Ulp(p: nat, x: real): (u: real)
    requires x > 0.0
    ensures u > 0.0
  {
    Pow2(Exponent(x) - p + 1)
  }

  function Round(p: nat, x: real): (y: real)
    requires p >= 1 && x >= 0.0
    ensures y >= 0.0
  {
    if x == 0.0 then 0.0
    else
      var u := Ulp(p, x);
      QuotientMul(x, u);
      var m := HalfEven(Quotient(x, u));
      assert m >= 0;
      MulMono(0.0, m as real, u);
      Mul(m as real, u)
  }

  /** The numbers with a significand of at most p bits. */
  ghost predicate Representable(p: nat, y: real) {
    exists m: nat, q: int :: IsSignificand(p, m) && y == Mul(m as real, Pow2(q))
  }

  predicate IsSignificand(p: nat, m: nat) {
    m < NatPow2(p)
  }

  // ----- products and quotients -----

  lemma MulMono(a: real, b: real, d: real)
    requires a <= b && d > 0.0
    ensures Mul(a, d) <= Mul(b, d)
  {
  }

  lemma MulStrict(a: real, b: real, d: real)
    requires a < b && d > 0.0
    ensures Mul(a, d) < Mul(b, d)
  {
  }

  lemma MulDistribute(a: real, b: real, d: real)
    ensures Mul(a - b, d) == Mul(a, d) - Mul(b, d)
    ensures Mul(a + b, d) == Mul(a, d) + Mul(b, d)
  {
    assert (a - b) * d == a * d - b * d;
    assert (a + b) * d == a * d + b * d;
  }

  lemma MulAssoc(a: real, b: real, c: real)
    ensures Mul(Mul(a, b), c) == Mul(a, Mul(b, c))
  {
  }

  lemma MulCommute(a: real, b: real)
    ensures Mul(a, b) == Mul(b, a)
  {
  }

  lemma MulConstants(a: real)
    ensures Mul(a, 1.0) == a && Mul(a, 0.0) == 0.0 && Mul(a, 2.0) == 2.0 * a && Mul(a, 0.5) == 0.5 * a
    ensures Mul(1.0, a) == a && Mul(0.0, a) == 0.0 && Mul(2.0, a) == 2.0 * a && Mul(0.5, a) == 0.5 * a
  {
  }

  lemma MulInt(a: int, b: int)
    ensures Mul(a as real, b as real) == (a * b) as real
  {
  }

  lemma QuotientMul(x: real, u: real)
    requires u > 0.0
    ensures Mul(Quotient(x, u), u) == x
    ensures x > 0.0 ==> Quotient(x, u) > 0.0
  {
  }

  lemma CancelLess(a: real, b: real, d: real)
    requires Mul(a, d) < Mul(b, d) && d > 0.0
    ensures a < b
  {
    hide Mul;
    if a >= b {
      MulMono(b, a, d);
    }
  }

  lemma CancelEqual(a: real, b: real, d: real)
    requires Mul(a, d) == Mul(b, d) && d > 0.0
    ensures a == b
  {
    hide Mul;
    if a < b {
      MulStrict(a, b, d);
    } else if a > b {
      MulStrict(b, a, d);
    }
  }

  /** Scaling an error by the spacing. */
  lemma ScaledError(m: real, s: real, u: real)
    requires u > 0.0
    ensures Abs(Mul(m, u) - Mul(s, u)) == Mul(Abs(m - s), u)
  {
    hide Mul;
    MulDistribute(m, s, u);
    MulDistribute(s, m, u);
    MulConstants(u);
    if m < s {
      MulStrict(0.0, s - m, u);
    } else {
      MulMono(0.0, m - s, u);
    }
  }

  // ----- powers of two -----

  lemma Pow2Double(e: int)
    ensures Pow2(e + 1) == 2.0 * Pow2(e)
  {
  }

  lemma {:induction false} Pow2Add(e: int, n: nat)
    ensures Pow2(e + n) == Mul(Pow2(e), Pow2(n))
  {
    hide Mul;
    if n == 0 {
      MulConstants(Pow2(e));
    } else {
      Pow2Add(e, n - 1);
      Pow2Double(e + n - 1);
      MulConstants(Pow2(n - 1));
      MulConstants(Pow2(e + n - 1));
      MulAssoc(Pow2(e), Pow2(n - 1), 2.0);
    }
  }

  lemma {:induction false} Pow2Integer(n: nat)
    ensures Pow2(n) == NatPow2(n) as real
  {
    if n > 0 {
      Pow2Integer(n - 1);
    }
  }

  lemma {:induction false} Pow2Monotone(a: int, b: int)
    requires a <= b
    ensures Pow2(a) <= Pow2(b)
    decreases b - a
  {
    if a < b {
      Pow2Double(a);
      Pow2Monotone(a + 1, b);
    }
  }

  lemma ExponentUnique(x: real, e: int)
    requires x > 0.0 && Pow2(e) <= x < Pow2(e + 1)
    ensures Exponent(x) == e
  {
    var f := Exponent(x);
    if f < e {
      Pow2Monotone(f + 1, e);
    } else if e < f {
      Pow2Monotone(e + 1, f);
    }
  }

  /** The exponent of a value of at least 1 and below 2^p is between 0 and p-1. */
  lemma ExponentBelow(p: nat, x: real)
    requires 1.0 <= x && x < NatPow2(p) as real
    ensures 0 <= Exponent(x) < p
  {
    var e := Exponent(x);
    Pow2Integer(p);
    if e >= p {
      Pow2Monotone(p, e);
    } else if e < 0 {
      Pow2Monotone(e + 1, 0);
    }
  }

  lemma InversePowers(j: nat)
    ensures Mul(NatPow2(j) as real, Pow2(-(j as int))) == 1.0
  {
    hide Mul;
    Pow2Add(-(j as int), j);
    Pow2Integer(j);
    MulCommute(Pow2(-(j as int)), Pow2(j));
  }

  // ----- the error of one rounding -----

  /** The spacing, the exact significand and the rounded significand. */
  lemma Parts(p: nat, x: real) returns (u: real, s: real, m: int)
    requires p >= 1 && x > 0.0
    ensures u == Ulp(p, x) && u > 0.0
    ensures s > 0.0 && Mul(s, u) == x
    ensures m == HalfEven(s) && Abs(m as real - s) <= 0.5
    ensures Round(p, x) == Mul(m as real, u)
  {
    hide Mul, Quotient;
    u := Ulp(p, x);
    s := Quotient(x, u);
    m := HalfEven(s);
    QuotientMul(x, u);
  }

  /** The rounded value is within half the spacing. */
  lemma HalfUlp(p: nat, x: real)
    requires p >= 1 && x > 0.0
    ensures Abs(Round(p, x) - x) <= Pow2(Exponent(x) - p)
  {
    hide Mul, Quotient;
    var u, s, m := Parts(p, x);
    Pow2Double(Exponent(x) - p);
    ScaledError(m as real, s, u);
    MulMono(Abs(m as real - s), 0.5, u);
    MulConstants(u);
  }

  /** A value that is a whole number of spacings is not changed. */
  lemma RoundExact(p: nat, x: real, i: int)
    requires p >= 1 && x > 0.0 && x == Mul(i as real, Ulp(p, x))
    ensures Round(p, x) == x
  {
    hide Mul, Quotient;
    var u, s, m := Parts(p, x);
    CancelEqual(s, i as real, u);
  }

  /** Integers below 2^p are not changed. */
  lemma RoundInteger(p: nat, n: nat)
    requires p >= 1 && n < NatPow2(p)
    ensures Round(p, n as real) == n as real
  {
    hide Mul, Quotient;
    if n > 0 {
      ExponentBelow(p, n as real);
      var j := p - 1 - Exponent(n as real);
      InversePowers(j);
      MulInt(n, NatPow2(j));
      MulAssoc(n as real, NatPow2(j) as real, Pow2(-(j as int)));
      MulConstants(n as real);
      RoundExact(p, n as real, n * NatPow2(j));
    }
  }

  /** Rounding x = n/d, with n below 2^p, errs by less than the distance 1/d between multiples of 1/d. */
  lemma QuotientError(p: nat, n: nat, d: nat, x: real)
    requires p >= 1 && 0 < n < NatPow2(p) && d > 0
    requires x > 0.0 && Mul(x, d as real) == n as real
    ensures Mul(Abs(Round(p, x) - x), d as real) < 1.0
  {
    hide Mul, Quotient;
    var e := Exponent(x);
    var h, q, D := Pow2(e - p), NatPow2(p) as real, d as real;
    HalfUlp(p, x);
    Pow2Add(e - p, p);
    Pow2Integer(p);
    MulMono(Mul(h, q), x, D);
    MulAssoc(h, q, D);
    MulCommute(q, D);
    MulAssoc(h, D, q);
    MulConstants(q);
    CancelLess(Mul(h, D), 1.0, q);
    MulMono(Abs(Round(p, x) - x), h, D);
  }

  /** For n below 2^p, the rounded quotient n/d lies on the same side of every integer k as the exact one. */
  lemma SameSide(p: nat, n: nat, d: nat, k: int)
    requires p >= 1 && n < NatPow2(p) && d > 0
    ensures Quotient(n as real, d as real) >= 0.0
    ensures Round(p, Quotient(n as real, d as real)) < k as real <==> n < k * d
    ensures Round(p, Quotient(n as real, d as real)) > k as real <==> n > k * d
  {
    hide Mul, Quotient;
    var x, D := Quotient(n as real, d as real), d as real;
    QuotientMul(n as real, D);
    MulInt(k, d);
    MulConstants(D);
    if n == 0 {
      CancelEqual(x, 0.0, D);
      SignOfProduct(k, d);
    } else if n == k * d {
      CancelEqual(x, k as real, D);
      SignOfProduct(k, d);
      RoundInteger(p, k);
    } else {
      QuotientError(p, n, d, x);
      var y := Round(p, x);
      ScaledError(y, x, D);
      if n < k * d {
        CancelLess(y, k as real, D);
      } else {
        CancelLess(k as real, y, D);
      }
    }
  }

  lemma SignOfProduct(k: int, d: nat)
    requires d > 0
    ensures k * d > 0 <==> k > 0
    ensures k * d < 0 <==> k < 0
    ensures k > 0 ==> k <= k * d
  {
  }

  // ----- Round against the definition of the standard -----

  /** The result is representable and no representable number is nearer. */
  lemma RoundIsNearest(p: nat, x: real, z: real)
    requires p >= 1 && x >= 0.0 && Representable(p, z)
    ensures Representable(p, Round(p, x))
    ensures Abs(Round(p, x) - x) <= Abs(z - x)
  {
    hide Mul, Quotient;
    if x == 0.0 {
      ZeroRepresentable(p);
    } else {
      RoundRepresentable(p, x);
      var e := Exponent(x);
      if z < Pow2(e) {
        var i := MultipleOf(1, e, e - p + 1);
        MulConstants(Pow2(e));
        NearestMultiple(p, x, i);
      } else {
        var m: nat, q: int :| IsSignificand(p, m) && z == Mul(m as real, Pow2(q));
        LargeIsMultiple(p, m, q, e);
        var i := MultipleOf(m, q, e - p + 1);
        NearestMultiple(p, x, i);
      }
    }
  }

  lemma ZeroRepresentable(p: nat)
    ensures Representable(p, 0.0)
  {
    assert IsSignificand(p, 0) && 0.0 == Mul(0 as real, Pow2(0));
  }

  lemma MultipleOf(m: nat, q: int, base: int) returns (i: nat)
    requires q >= base
    ensures Mul(m as real, Pow2(q)) == Mul(i as real, Pow2(base))
  {
    hide Mul;
    var j := q - base;
    i := m * NatPow2(j);
    Pow2Add(base, j);
    Pow2Integer(j);
    MulCommute(Pow2(base), Pow2(j));
    MulAssoc(m as real, Pow2(j), Pow2(base));
    MulInt(m, NatPow2(j));
  }

  lemma NearestMultiple(p: nat, x: real, i: int)
    requires p >= 1 && x > 0.0
    ensures Abs(Round(p, x) - x) <= Abs(Mul(i as real, Ulp(p, x)) - x)
  {
    hide Mul, Quotient;
    var u, s, m := Parts(p, x);
    ScaledError(m as real, s, u);
    ScaledError(i as real, s, u);
    NearestInteger(m, i, s);
    MulMono(Abs(m as real - s), Abs(i as real - s), u);
  }

  lemma NearestInteger(m: int, i: int, s: real)
    requires Abs(m as real - s) <= 0.5
    ensures Abs(m as real - s) <= Abs(i as real - s)
  {
    if i < m {
      assert i as real <= m as real - 1.0;
    } else if i > m {
      assert i as real >= m as real + 1.0;
    }
  }

  lemma LargeIsMultiple(p: nat, m: nat, q: int, e: int)
    requires p >= 1 && m < NatPow2(p) && Mul(m as real, Pow2(q)) >= Pow2(e)
    ensures q >= e - p + 1
  {
    hide Mul;
    if q < e - p + 1 {
      Pow2Integer(p);
      Pow2Add(q, p);
      Pow2Monotone(q + p, e);
      MulCommute(Pow2(q), Pow2(p));
      MulStrict(m as real, Pow2(p), Pow2(q));
    }
  }

  lemma RoundRepresentable(p: nat, x: real)
    requires p >= 1 && x > 0.0
    ensures Representable(p, Round(p, x))
  {
    hide Mul, Quotient;
    var u, s, m := Parts(p, x);
    var e := Exponent(x);
    var top := NatPow2(p);
    Pow2Add(e - p + 1, p);
    Pow2Integer(p);
    MulCommute(u, Pow2(p));
    CancelLess(s, top as real, u);
    if m < top {
      assert IsSignificand(p, m);
    } else {
      var half := NatPow2(p - 1);
      Pow2Double(e - p + 1);
      MulConstants(u);
      MulConstants(half as real);
      MulAssoc(half as real, 2.0, u);
      assert IsSignificand(p, half) && Round(p, x) == Mul(half as real, Pow2(e - p + 2));
    }
  }

  /** Rounding preserves order. */
  lemma RoundMonotone(p: nat, x: real, y: real)
    requires p >= 1 && 0.0 <= x <= y
    ensures Round(p, x) <= Round(p, y)
  {
    hide Mul, Quotient;
    if x < y {
      ZeroRepresentable(p);
      RoundIsNearest(p, x, 0.0);
      RoundIsNearest(p, y, 0.0);
      RoundIsNearest(p, x, Round(p, y));
      RoundIsNearest(p, y, Round(p, x));
    }
  }
}
