/** How densely the request counter of src/provider.cc samples, in a process that serves many requests. */
module SampleCounter {

  /** The largest value of the counter: the reset test comes before the increment. */
  const PERIOD: nat := 10_000_001

  /** `increase`. */
  function Next(counter: int): int {
    (if counter > 10_000_000 then 0 else counter) + 1
  }

  /** The counter during request k, counted from 1. */
  function Count(k: nat): int {
    if k == 0 then 0 else Next(Count(k - 1))
  }

  /** Request k is chosen by the ratio rule. */
  predicate Chosen(k: nat, ratio: nat)
    requires ratio > 0
  {
    Count(k) % ratio == 0
  }

  /** The counter runs through 1..10000001 over and over. */
  lemma {:induction false} CountClosed(k: nat)
    requires k > 0
    ensures Count(k) == (k - 1) % 10_000_001 + 1
  {
    if k > 1 {
      CountClosed(k - 1);
    }
  }

  /** The counter some requests later: further on, or past one wrap. */
  lemma CountLater(i: nat, j: nat)
    requires 0 < i <= j
    requires j - i <= PERIOD
    ensures 1 <= Count(i) <= PERIOD && 1 <= Count(j) <= PERIOD
    ensures Count(j) == Count(i) + (j - i) || Count(j) == Count(i) + (j - i) - PERIOD
  {
    CountClosed(i);
    CountClosed(j);
  }

  lemma MultipleGap(a: int, b: int, r: nat)
    requires r > 0 && a % r == 0 && b % r == 0 && a < b
    ensures b - a >= r
  {
    var x, y := a / r, b / r;
    assert a == x * r && b == y * r;
    assert (y - x) * r == b - a;
    assert y - x >= 1 ==> (y - x) * r >= r;
    assert y - x <= 0 ==> (y - x) * r <= 0;
  }

  /** Any `ratio` consecutive requests contain at most one chosen one, also across a wrap. */
  lemma AtMostOne(ratio: nat, i: nat, j: nat)
    requires 0 < ratio <= PERIOD && 0 < i < j < i + ratio
    ensures !(Chosen(i, ratio) && Chosen(j, ratio))
  {
    CountLater(i, j);
    if Chosen(i, ratio) && Chosen(j, ratio) {
      if Count(j) == Count(i) + (j - i) {
        MultipleGap(Count(i), Count(j), ratio);
      } else {
        MultipleGap(0, Count(j), ratio);
      }
    }
  }

  /** The longest stretch from one chosen request to the next, counted with its end. */
  function Window(ratio: nat): (w: nat)
    requires ratio > 0
    ensures ratio <= w <= 2 * ratio - 1
  {
    ratio + PERIOD % ratio
  }

  lemma NextMultiple(c: nat, r: nat) returns (m: nat)
    requires r > 0 && c > 0
    ensures m % r == 0 && c <= m < c + r
  {
    var q := (c + r - 1) / r;
    m := q * r;
    assert c + r - 1 == q * r + (c + r - 1) % r;
    MultipleOfSelf(q, r);
  }

  lemma MultipleOfSelf(q: nat, r: nat)
    requires r > 0
    ensures (q * r) % r == 0
  {
    var x, y := (q * r) / r, (q * r) % r;
    assert (q - x) * r == y;
    assert q - x >= 1 ==> (q - x) * r >= r;
    assert q - x <= -1 ==> (q - x) * r <= -1 * r;
  }

  /** The last multiple of r up to the period is the period less its remainder. */
  lemma LastMultiple(m: nat, r: nat)
    requires 0 < r <= PERIOD && m % r == 0 && m > PERIOD
    ensures m - r >= PERIOD - PERIOD % r
  {
    var last := PERIOD - PERIOD % r;
    assert last == PERIOD / r * r;
    MultipleOfSelf(PERIOD / r, r);
    MultipleGap(last, m, r);
  }

  /** Any `Window(ratio)` consecutive requests, hence any 2 * ratio - 1, contain a chosen one. */
  lemma AtLeastOne(ratio: nat, i: nat) returns (k: nat)
    requires 0 < ratio <= PERIOD && 0 < i
    ensures i <= k < i + Window(ratio) && Chosen(k, ratio)
  {
    hide Count;
    CountLater(i, i);
    var c := Count(i);
    var m := NextMultiple(c, ratio);
    if m <= PERIOD {
      k := i + (m - c);
      CountLater(i, k);
    } else {
      LastMultiple(m, ratio);
      k := i + (PERIOD - c) + ratio;
      CountLater(i, i + (PERIOD - c));
      CountLater(i + (PERIOD - c), k);
      assert Count(k) == ratio;
    }
  }

  /** The window cannot be shortened: after the last multiple below the wrap there are Window(ratio) - 1
      requests without a chosen one. */
  lemma WindowIsTight(ratio: nat, k: nat)
    requires 0 < ratio <= PERIOD
    requires var start := PERIOD - PERIOD % ratio; start < k < start + Window(ratio)
    ensures !Chosen(k, ratio)
  {
    var start := PERIOD - PERIOD % ratio;
    assert start == PERIOD / ratio * ratio;
    MultipleOfSelf(PERIOD / ratio, ratio);
    CountClosed(k);
    if Chosen(k, ratio) {
      if k <= PERIOD {
        MultipleGap(start, Count(k), ratio);
      } else {
        MultipleGap(0, Count(k), ratio);
      }
    }
  }

  /** The rule chooses some request exactly when the ratio does not exceed the period. */
  lemma SomeRequestIsChosen(ratio: nat)
    requires ratio > 0
    ensures (exists k :: k > 0 && Chosen(k, ratio)) <==> ratio <= 10_000_001
  {
    if ratio <= PERIOD {
      var k := AtLeastOne(ratio, 1);
    } else {
      forall k | k > 0 ensures !Chosen(k, ratio) {
        CountClosed(k);
        if Chosen(k, ratio) {
          MultipleGap(0, Count(k), ratio);
        }
      }
    }
  }
}
