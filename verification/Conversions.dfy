/** The two floating-point computations of the program: the shard count of src/otel_exporter.cc, in single
    precision, and the milliseconds of src/provider.cc, in double precision. */
module Conversions {
  import opened Rounding

  const FLOAT_BITS: nat := 24
  const DOUBLE_BITS: nat := 53
  const MAX_UDP_SIZE: nat := 60000
  const NANOS_PER_MILLI: nat := 1_000_000

  function Ceil(x: real): int {
    if x == x.Floor as real then x.Floor else x.Floor + 1
  }

  /** The exact number of blocks of 60000 bytes that n bytes need. */
  function BlocksNeeded(n: nat): nat {
    (n + MAX_UDP_SIZE - 1) / MAX_UDP_SIZE
  }

  /** `ceil((float) n / (float) 60000)`. The divisor is exact as a float. */
  function ShardCount(n: nat): int {
    Ceil(Round(FLOAT_BITS, FloatRatio(n)))
  }

  function FloatRatio(n: nat): (x: real)
    ensures x >= 0.0
  {
    QuotientNonNegative(Round(FLOAT_BITS, n as real), MAX_UDP_SIZE);
    Quotient(Round(FLOAT_BITS, n as real), MAX_UDP_SIZE as real)
  }

  lemma QuotientNonNegative(a: real, d: nat)
    requires a >= 0.0 && d > 0
    ensures Quotient(a, d as real) >= 0.0
  {
    QuotientMul(a, d as real);
    MulConstants(d as real);
    if Quotient(a, d as real) < 0.0 {
      MulStrict(Quotient(a, d as real), 0.0, d as real);
    }
  }

  /** `time_consuming /= 1e6` on an unsigned count of nanoseconds: conversion to double, division, truncation. */
  function Millis(ns: nat): int {
    QuotientNonNegative(Round(DOUBLE_BITS, ns as real), NANOS_PER_MILLI);
    Round(DOUBLE_BITS, Quotient(Round(DOUBLE_BITS, ns as real), NANOS_PER_MILLI as real)).Floor
  }

  lemma DoubleLimit()
    ensures NatPow2(DOUBLE_BITS) == 0x0020_0000_0000_0000
  {
    FloatLimit();
    assert NatPow2(27) == 0x0800_0000 && NatPow2(30) == 0x4000_0000 && NatPow2(33) == 0x0002_0000_0000;
    assert NatPow2(36) == 0x0010_0000_0000 && NatPow2(39) == 0x0080_0000_0000 && NatPow2(42) == 0x0400_0000_0000;
    assert NatPow2(45) == 0x2000_0000_0000 && NatPow2(48) == 0x0001_0000_0000_0000;
    assert NatPow2(51) == 0x0008_0000_0000_0000;
  }

  /** Below 2^53 nanoseconds (104 days) the double arithmetic is exact integer division. */
  lemma MillisExact(ns: nat)
    requires ns < 0x0020_0000_0000_0000
    ensures Millis(ns) == ns / 1_000_000
  {
    DoubleLimit();
    hide Mul, Quotient;
    RoundInteger(DOUBLE_BITS, ns);
    var k := ns / NANOS_PER_MILLI;
    SameSide(DOUBLE_BITS, ns, NANOS_PER_MILLI, k);
    SameSide(DOUBLE_BITS, ns, NANOS_PER_MILLI, k + 1);
  }

  /** For every pair of durations, the longer one never shows fewer milliseconds. */
  lemma MillisMonotone(a: nat, b: nat)
    requires a <= b
    ensures Millis(a) <= Millis(b)
  {
    hide Mul, Quotient;
    RoundMonotone(DOUBLE_BITS, a as real, b as real);
    var x, y := Round(DOUBLE_BITS, a as real), Round(DOUBLE_BITS, b as real);
    var D := NANOS_PER_MILLI as real;
    QuotientNonNegative(x, NANOS_PER_MILLI);
    QuotientNonNegative(y, NANOS_PER_MILLI);
    QuotientMul(x, D);
    QuotientMul(y, D);
    if Quotient(y, D) < Quotient(x, D) {
      MulStrict(Quotient(y, D), Quotient(x, D), D);
    }
    RoundMonotone(DOUBLE_BITS, Quotient(x, D), Quotient(y, D));
  }

  /** The rounded quotient m/d has the same ceiling as the exact one. */
  lemma CeilOfQuotient(m: nat, d: nat)
    requires m < NatPow2(FLOAT_BITS) && d > 0
    ensures Quotient(m as real, d as real) >= 0.0
    ensures Ceil(Round(FLOAT_BITS, Quotient(m as real, d as real))) == (m + d - 1) / d
  {
    CeilBounds(m, d);
    CeilBetween(m, d, (m + d - 1) / d);
  }

  lemma CeilBetween(m: nat, d: nat, k: int)
    requires m < NatPow2(FLOAT_BITS) && d > 0 && (k - 1) * d < m <= k * d
    ensures Quotient(m as real, d as real) >= 0.0
    ensures Ceil(Round(FLOAT_BITS, Quotient(m as real, d as real))) == k
  {
    hide Mul, Quotient;
    SameSide(FLOAT_BITS, m, d, k);
    SameSide(FLOAT_BITS, m, d, k - 1);
  }

  lemma CeilBounds(m: nat, d: nat)
    requires d > 0
    ensures ((m + d - 1) / d - 1) * d < m <= (m + d - 1) / d * d
  {
  }

  /** Below 2^24 bytes the float computation gives exactly the number of blocks. */
  lemma ShardCountExact(n: nat)
    requires n < NatPow2(FLOAT_BITS)
    ensures ShardCount(n) == BlocksNeeded(n)
  {
    hide Mul, Quotient;
    RoundInteger(FLOAT_BITS, n);
    CeilOfQuotient(n, MAX_UDP_SIZE);
  }

  /** Half the spacing of floats around n, for 2^24 <= n < 2^29. */
  function HalfSpacing(n: nat): nat {
    if n < 0x0200_0000 then 1
    else if n < 0x0400_0000 then 2
    else if n < 0x0800_0000 then 4
    else if n < 0x1000_0000 then 8
    else 16
  }

  /** The longest tail that rounding can swallow, for n < 2^29. A tail of half a spacing is a tie, which goes to
      the even significand; below 2^28 that is the one of the block boundary, and from there on only after an even
      number of blocks. */
  function LostTail(n: nat): nat {
    if n < 0x0100_0000 then 0
    else if n < 0x1000_0000 || (n / MAX_UDP_SIZE) % 2 == 0 then HalfSpacing(n)
    else HalfSpacing(n) - 1
  }

  /** From 2^24 up to 2^29 the count is exact unless n exceeds a multiple of 60000 by so little that the
      conversion to float swallows the excess; then one shard is missing. */
  lemma ShardCountLarge(n: nat)
    requires n < 0x2000_0000
    ensures ShardCount(n) == if 0 < n % MAX_UDP_SIZE <= LostTail(n) then n / MAX_UDP_SIZE else BlocksNeeded(n)
  {
    hide Mul, Quotient;
    if n < 0x0100_0000 {
      FloatLimit();
      ShardCountExact(n);
    } else {
      var half := HalfSpacing(n);
      var m := FloatSignificand(n, half);
      ReducedQuotient(m, half);
      SwallowedTail(n, m, half);
    }
  }

  lemma FloatLimit()
    ensures NatPow2(FLOAT_BITS) == 0x0100_0000
  {
    assert NatPow2(3) == 8 && NatPow2(6) == 64 && NatPow2(9) == 512 && NatPow2(12) == 4096;
    assert NatPow2(15) == 0x8000 && NatPow2(18) == 0x4_0000 && NatPow2(21) == 0x20_0000;
  }

  lemma PowerTable(j: nat, half: nat)
    requires j <= 4
    requires half == if j == 0 then 1 else if j == 1 then 2 else if j == 2 then 4 else if j == 3 then 8 else 16
    ensures Pow2(j + 1) == (2 * half) as real
    ensures Pow2(24 + j) == (0x0100_0000 * half) as real
    ensures Pow2(25 + j) == (0x0200_0000 * half) as real
  {
    Pow2Integer(j + 1);
    Pow2Integer(24 + j);
    Pow2Integer(25 + j);
    FloatLimit();
    assert NatPow2(25) == 2 * NatPow2(24) && NatPow2(26) == 2 * NatPow2(25);
    assert NatPow2(27) == 2 * NatPow2(26) && NatPow2(28) == 2 * NatPow2(27) && NatPow2(29) == 2 * NatPow2(28);
    assert NatPow2(1) == 2 && NatPow2(2) == 4 && NatPow2(3) == 8 && NatPow2(4) == 16 && NatPow2(5) == 32;
  }

  /** The float nearest to n is a multiple of twice the half spacing; a tie gives an even significand. */
  lemma FloatSignificand(n: nat, half: nat) returns (m: nat)
    requires 0x0100_0000 <= n < 0x2000_0000 && half == HalfSpacing(n)
    ensures Round(FLOAT_BITS, n as real) == (m * (2 * half)) as real
    ensures m <= NatPow2(FLOAT_BITS)
    ensures n <= m * (2 * half) + half && m * (2 * half) <= n + half
    ensures m * (2 * half) == n + half || m * (2 * half) + half == n ==> m % 2 == 0
  {
    hide Mul, Quotient;
    var j := if half == 1 then 0 else if half == 2 then 1 else if half == 4 then 2 else if half == 8 then 3 else 4;
    PowerTable(j, half);
    ExponentUnique(n as real, 24 + j);
    var u, s, i := Parts(FLOAT_BITS, n as real);
    assert u == (2 * half) as real;
    m := i;
    MulInt(m, 2 * half);
    SignificandBound(s, u, n, half);
    SignificandError(m, s, u, n, half);
  }

  lemma SignificandError(m: int, s: real, u: real, n: nat, half: nat)
    requires u == (2 * half) as real && half > 0 && Mul(s, u) == n as real && m == HalfEven(s)
    ensures n <= m * (2 * half) + half && m * (2 * half) <= n + half
    ensures m * (2 * half) == n + half || m * (2 * half) + half == n ==> m % 2 == 0
  {
    hide Mul;
    MulInt(m, 2 * half);
    ScaledError(m as real, s, u);
    MulConstants(u);
    var err := Abs(m as real - s);
    if err < 0.5 {
      MulStrict(err, 0.5, u);
    } else {
      TieIsEven(s);
    }
  }

  lemma TieIsEven(s: real)
    requires Abs(HalfEven(s) as real - s) >= 0.5
    ensures HalfEven(s) % 2 == 0
  {
    var f := s.Floor;
    assert s == f as real + 0.5;
  }

  lemma SignificandBound(s: real, u: real, n: nat, half: nat)
    requires 0x0100_0000 <= n < 0x2000_0000 && half == HalfSpacing(n)
    requires u == (2 * half) as real && s > 0.0 && Mul(s, u) == n as real
    ensures 0 <= HalfEven(s) <= NatPow2(FLOAT_BITS)
  {
    hide Mul;
    FloatLimit();
    MulInt(0x0100_0000, 2 * half);
    CancelLess(s, 0x0100_0000 as real, u);
  }

  /** Dividing by 60000 after scaling by a power of two up to 32 is dividing the significand. */
  lemma ReducedQuotient(m: nat, half: nat)
    requires m <= NatPow2(FLOAT_BITS) && half in {1, 2, 4, 8, 16}
    ensures Quotient((m * (2 * half)) as real, MAX_UDP_SIZE as real) >= 0.0
    ensures Ceil(Round(FLOAT_BITS, Quotient((m * (2 * half)) as real, MAX_UDP_SIZE as real))) ==
            (m * (2 * half) + MAX_UDP_SIZE - 1) / MAX_UDP_SIZE
  {
    hide Mul, Quotient;
    FloatLimit();
    var top := m == 0x0100_0000;
    if half == 1 {
      ScaledCeil(if top then 0x80_0000 else m, if top then 15000 else 30000, if top then 4 else 2);
    } else if half == 2 {
      ScaledCeil(if top then 0x80_0000 else m, if top then 7500 else 15000, if top then 8 else 4);
    } else if half == 4 {
      ScaledCeil(if top then 0x80_0000 else m, if top then 3750 else 7500, if top then 16 else 8);
    } else if half == 8 {
      ScaledCeil(if top then 0x80_0000 else m, if top then 1875 else 3750, if top then 32 else 16);
    } else if !top {
      ScaledCeil(m, 1875, 32);
    } else {
      TopQuotient();
    }
  }

  /** The size 2^29 itself, to which the sizes just below it are rounded: it needs 8948 blocks, like the float
      before it, and 8948 is a float. */
  lemma TopQuotient()
    ensures Quotient(0x2000_0000 as real, MAX_UDP_SIZE as real) >= 0.0
    ensures Ceil(Round(FLOAT_BITS, Quotient(0x2000_0000 as real, MAX_UDP_SIZE as real))) == 8948
  {
    hide Mul, Quotient;
    FloatLimit();
    ScaledCeil(0xFF_FFFF, 1875, 32);
    RoundInteger(FLOAT_BITS, 8948);
    var D := MAX_UDP_SIZE as real;
    QuotientBelow(0xFF_FFFF * 32, 0x2000_0000, MAX_UDP_SIZE);
    QuotientBelow(0x2000_0000, 8948 * MAX_UDP_SIZE, MAX_UDP_SIZE);
    QuotientOfMultiple(8948, MAX_UDP_SIZE);
    RoundMonotone(FLOAT_BITS, Quotient((0xFF_FFFF * 32) as real, D), Quotient(0x2000_0000 as real, D));
    RoundMonotone(FLOAT_BITS, Quotient(0x2000_0000 as real, D), 8948 as real);
  }

  lemma QuotientBelow(a: nat, b: nat, d: nat)
    requires a <= b && d > 0
    ensures 0.0 <= Quotient(a as real, d as real) <= Quotient(b as real, d as real)
  {
    hide Mul, Quotient;
    QuotientNonNegative(a as real, d);
    QuotientMul(a as real, d as real);
    QuotientMul(b as real, d as real);
    if Quotient(b as real, d as real) < Quotient(a as real, d as real) {
      MulStrict(Quotient(b as real, d as real), Quotient(a as real, d as real), d as real);
    }
  }

  lemma QuotientOfMultiple(k: nat, d: nat)
    requires d > 0
    ensures Quotient((k * d) as real, d as real) == k as real
  {
    hide Mul, Quotient;
    QuotientMul((k * d) as real, d as real);
    MulInt(k, d);
    CancelEqual(Quotient((k * d) as real, d as real), k as real, d as real);
  }

  lemma ScaledCeil(a: nat, d: nat, scale: nat)
    requires a < NatPow2(FLOAT_BITS) && d > 0 && scale > 0 && d * scale == MAX_UDP_SIZE
    ensures Quotient((a * scale) as real, MAX_UDP_SIZE as real) >= 0.0
    ensures Ceil(Round(FLOAT_BITS, Quotient((a * scale) as real, MAX_UDP_SIZE as real))) ==
            (a * scale + MAX_UDP_SIZE - 1) / MAX_UDP_SIZE
  {
    hide Mul, Quotient;
    CeilOfQuotient(a, d);
    SameQuotient(a, d, scale);
    ScaledBlocks(a, d, scale);
  }

  lemma SameQuotient(a: nat, d: nat, scale: nat)
    requires d > 0 && scale > 0
    ensures d * scale > 0
    ensures Quotient((a * scale) as real, (d * scale) as real) == Quotient(a as real, d as real)
  {
    assert d * scale > 0;
    hide Mul, Quotient;
    var x, D, S := Quotient(a as real, d as real), d as real, scale as real;
    QuotientMul(a as real, D);
    QuotientMul((a * scale) as real, (d * scale) as real);
    MulInt(a, scale);
    MulInt(d, scale);
    MulAssoc(x, D, S);
    CancelEqual(x, Quotient((a * scale) as real, (d * scale) as real), (d * scale) as real);
  }

  lemma ScaledBlocks(a: nat, d: nat, scale: nat)
    requires d > 0 && scale > 0
    ensures d * scale > 0
    ensures (a + d - 1) / d == (a * scale + d * scale - 1) / (d * scale)
  {
    var k := (a + d - 1) / d;
    CeilBounds(a, d);
    assert d * scale > 0;
    BlockBounds(k, d, scale, a);
    UniqueBlocks(a * scale, d * scale, k);
  }

  lemma BlockBounds(k: nat, d: nat, scale: nat, a: nat)
    requires d > 0 && scale > 0 && (k - 1) * d < a <= k * d
    ensures (k - 1) * (d * scale) < a * scale <= k * (d * scale)
  {
    assert (k - 1) * (d * scale) == ((k - 1) * d) * scale;
    assert k * (d * scale) == (k * d) * scale;
    MulStrictInt((k - 1) * d, a, scale);
    if a < k * d {
      MulStrictInt(a, k * d, scale);
    }
  }

  lemma MulStrictInt(a: int, b: int, c: nat)
    requires a < b && c > 0
    ensures a * c < b * c
  {
  }

  lemma UniqueBlocks(n: nat, d: nat, k: nat)
    requires d > 0 && (k - 1) * d < n <= k * d
    ensures (n + d - 1) / d == k
  {
    var q := (n + d - 1) / d;
    CeilBounds(n, d);
    if q < k {
      LeMul(q, k - 1, d);
    } else if q > k {
      LeMul(k, q - 1, d);
    }
  }

  lemma LeMul(a: int, b: int, d: nat)
    requires a <= b
    ensures a * d <= b * d
  {
  }

  /** m spacings, where 2 * half is the spacing. */
  function Spaced(m: int, half: nat): int {
    if half == 1 then 2 * m
    else if half == 2 then 4 * m
    else if half == 4 then 8 * m
    else if half == 8 then 16 * m
    else 32 * m
  }

  lemma SpacedIsProduct(m: int, half: nat)
    requires half in {1, 2, 4, 8, 16}
    ensures Spaced(m, half) == m * (2 * half)
  {
  }

  lemma SwallowedTail(n: nat, m: nat, half: nat)
    requires 0x0100_0000 <= n < 0x2000_0000 && half == HalfSpacing(n)
    requires n <= m * (2 * half) + half && m * (2 * half) <= n + half
    requires m * (2 * half) == n + half || m * (2 * half) + half == n ==> m % 2 == 0
    ensures (m * (2 * half) + MAX_UDP_SIZE - 1) / MAX_UDP_SIZE ==
            if 0 < n % MAX_UDP_SIZE <= LostTail(n) then n / MAX_UDP_SIZE else BlocksNeeded(n)
  {
    SpacedIsProduct(m, half);
    var k, r := n / MAX_UDP_SIZE, n % MAX_UDP_SIZE;
    assert n == k * MAX_UDP_SIZE + r && k > 0;
    assert LostTail(n) == if half == 16 && k % 2 == 1 then 15 else half;
    var t := TailSpacings(k, m, half);
    hide HalfSpacing, LostTail, Spaced;
    var w := TailRounded(k, r, t, half);
    BlocksOf(k, w);
    BlocksOf(k, r);
  }

  /** A block is a whole number of spacings, and up to half = 8 an even one. */
  lemma TailSpacings(k: nat, m: int, half: nat) returns (t: int)
    requires half in {1, 2, 4, 8, 16}
    ensures Spaced(m, half) == k * MAX_UDP_SIZE + Spaced(t, half)
    ensures m % 2 == 0 ==> t % 2 == if half == 16 then k % 2 else 0
  {
    if half == 16 {
      t := m - 1875 * k;
      assert t == m - k - 2 * (937 * k);
    } else if half == 8 {
      t := m - 2 * (1875 * k);
    } else if half == 4 {
      t := m - 2 * (3750 * k);
    } else if half == 2 {
      t := m - 2 * (7500 * k);
    } else {
      t := m - 2 * (15000 * k);
    }
  }

  /** A tail is rounded to nothing when it is no longer than the lost one, and else to part of a block. */
  lemma TailRounded(k: nat, r: nat, t: int, half: nat) returns (w: nat)
    requires half in {1, 2, 4, 8, 16} && r < MAX_UDP_SIZE
    requires r <= Spaced(t, half) + half && Spaced(t, half) <= r + half
    requires Spaced(t, half) == r + half || Spaced(t, half) + half == r ==> t % 2 == if half == 16 then k % 2 else 0
    ensures w == Spaced(t, half) <= MAX_UDP_SIZE
    ensures w == 0 <==> r <= if half == 16 && k % 2 == 1 then 15 else half
  {
    if Spaced(t, half) < half {
      assert t <= 0;
    } else {
      assert t > 0;
    }
    w := Spaced(t, half);
  }

  lemma BlocksOf(k: nat, x: nat)
    requires x <= MAX_UDP_SIZE
    ensures (k * MAX_UDP_SIZE + x + MAX_UDP_SIZE - 1) / MAX_UDP_SIZE == if x == 0 then k else k + 1
  {
  }

  /** The smallest payload whose last byte the float computation loses: 280 blocks and one byte. */
  lemma ShardCountFails()
    ensures ShardCount(16_800_001) == 280 && BlocksNeeded(16_800_001) == 281
    ensures forall n: nat :: n < 16_800_001 ==> ShardCount(n) == BlocksNeeded(n)
  {
    ShardCountLarge(16_800_001);
    hide ShardCount;
    forall n: nat | n < 16_800_001 ensures ShardCount(n) == BlocksNeeded(n) {
      ShardCountLarge(n);
      NothingLostBelow(n);
    }
  }

  /** From 2^24 up to 280 blocks, a size is far beyond 279 blocks or exactly 280. */
  lemma NothingLostBelow(n: nat)
    requires n < 16_800_001
    ensures !(0 < n % MAX_UDP_SIZE <= LostTail(n))
  {
    if 0x0100_0000 <= n < 16_800_000 {
      var k, r := n / MAX_UDP_SIZE, n % MAX_UDP_SIZE;
      assert n == MAX_UDP_SIZE * k + r && 0 <= r < MAX_UDP_SIZE;
      assert k == 279;
    }
  }
}
