/** The local fallback heuristic of `fallbackClassify`
    (src/utils/classifier.ts): half-grid sums and an ordered decision table.
    It is a crude rule of thumb, not a statistical classifier. */
module Heuristic {
  import opened Wrappers

  /** Index of the first pixel of row 14, and the column split of a 28-wide row. */
  const HalfIndex: nat := 392
  const RowWidth: nat := 28
  const HalfRow: nat := 14

  /** `reduce((sum, p) => sum + p, 0)`, taken from the last element. */
  function Sum(p: seq<real>): real
  {
    if |p| == 0 then 0.0 else Sum(p[..|p| - 1]) + p[|p| - 1]
  }

  /** Sum over the pixels whose column `i % 28` is below 14. */
  function LeftSum(p: seq<real>): real
  {
    if |p| == 0 then 0.0
    else LeftSum(p[..|p| - 1]) + (if (|p| - 1) % RowWidth < HalfRow then p[|p| - 1] else 0.0)
  }

  /** Sum over the pixels whose column `i % 28` is 14 or more. */
  function RightSum(p: seq<real>): real
  {
    if |p| == 0 then 0.0
    else RightSum(p[..|p| - 1]) + (if (|p| - 1) % RowWidth >= HalfRow then p[|p| - 1] else 0.0)
  }

  /** `slice(0, 392)` and `slice(392)`: rows 0-13 and rows 14-27. */
  function TopSum(p: seq<real>): real { Sum(p[..Min(HalfIndex, |p|)]) }
  function BottomSum(p: seq<real>): real { Sum(p[Min(HalfIndex, |p|)..]) }

  /** A predicted digit with its confidence. */
  datatype Guess = Guess(digit: int, confidence: real)

  /** The decision table, evaluated in order; the first rule that fires wins. */
  function Decide(top: real, bottom: real, left: real, right: real): Guess
  {
    if top > bottom * 2.0 then Guess(7, 0.6)
    else if left > right * 1.5 then Guess(1, 0.5)
    else if (if top - bottom < 0.0 then bottom - top else top - bottom) < 10.0 then Guess(0, 0.4)
    else Guess(0, 0.3)
  }

  /** The guess `fallbackClassify` makes for an intensity vector. */
  function FallbackGuess(p: seq<real>): Guess
  {
    Decide(TopSum(p), BottomSum(p), LeftSum(p), RightSum(p))
  }

  lemma {:induction false} SumAppend(a: seq<real>, b: seq<real>)
    ensures Sum(a + b) == Sum(a) + Sum(b)
    decreases |b|
  {
    if |b| == 0 {
      assert a + b == a;
    } else {
      assert (a + b)[..|a + b| - 1] == a + b[..|b| - 1];
      SumAppend(a, b[..|b| - 1]);
    }
  }

  lemma {:induction false} LeftRightPartition(p: seq<real>)
    ensures LeftSum(p) + RightSum(p) == Sum(p)
    decreases |p|
  {
    if |p| > 0 {
      LeftRightPartition(p[..|p| - 1]);
    }
  }

  /** The four half sums partition the total: top + bottom = total = left + right. */
  lemma HalvesPartition(p: seq<real>)
    ensures TopSum(p) + BottomSum(p) == Sum(p)
    ensures LeftSum(p) + RightSum(p) == Sum(p)
  {
    var h := Min(HalfIndex, |p|);
    assert p == p[..h] + p[h..];
    SumAppend(p[..h], p[h..]);
    LeftRightPartition(p);
  }

  /** The sum of values in [0, 1] lies in [0, |p|]. */
  lemma {:induction false} SumBounds(p: seq<real>)
    requires forall k :: 0 <= k < |p| ==> 0.0 <= p[k] <= 1.0
    ensures 0.0 <= Sum(p) <= |p| as real
    decreases |p|
  {
    if |p| > 0 {
      SumBounds(p[..|p| - 1]);
    }
  }

  /** The table as four mutually exclusive cases, each with the condition that
      selects it: a rule fires only when every earlier rule did not. */
  lemma DecideTable(top: real, bottom: real, left: real, right: real)
    ensures var g := Decide(top, bottom, left, right);
      && (g == Guess(7, 0.6) <==> top > 2.0 * bottom)
      && (g == Guess(1, 0.5) <==> top <= 2.0 * bottom && left > 1.5 * right)
      && (g == Guess(0, 0.4) <==> top <= 2.0 * bottom && left <= 1.5 * right
                                  && -10.0 < top - bottom < 10.0)
      && (g == Guess(0, 0.3) <==> top <= 2.0 * bottom && left <= 1.5 * right
                                  && (top - bottom <= -10.0 || top - bottom >= 10.0))
  {
  }

  /** Every guess is 7, 1 or 0, with confidence between 0.3 and 0.6. */
  lemma DecideRange(top: real, bottom: real, left: real, right: real)
    ensures var g := Decide(top, bottom, left, right);
      && g.digit in {0, 1, 7}
      && 0.3 <= g.confidence <= 0.6
      && (g.confidence < 0.4 <==> g == Guess(0, 0.3))
  {
  }

  /** The worked examples: (100, 40) is top-heavy; (40, 100, 90, 50) is
      left-heavy; (50, 50.5) is balanced; (50, 80, 50, 55) fires no rule. */
  lemma DecideExamples()
    ensures forall l: real, r: real :: Decide(100.0, 40.0, l, r) == Guess(7, 0.6)
    ensures Decide(40.0, 100.0, 90.0, 50.0) == Guess(1, 0.5)
    ensures forall l: real, r: real :: l <= 1.5 * r ==> Decide(50.0, 50.5, l, r) == Guess(0, 0.4)
    ensures Decide(50.0, 80.0, 50.0, 55.0) == Guess(0, 0.3)
  {
  }

  /** The number of indices below `m` that lie in the left half of their row. */
  function LeftCount(m: nat): nat
  {
    HalfRow * (m / RowWidth) + (if m % RowWidth < HalfRow then m % RowWidth else HalfRow)
  }

  /** One more index adds one to the left count exactly when it lies in the
      left half of its row. */
  lemma LeftCountStep(m: nat)
    requires m > 0
    ensures LeftCount(m) == LeftCount(m - 1) + (if (m - 1) % RowWidth < HalfRow then 1 else 0)
  {
    var q, r := (m - 1) / RowWidth, (m - 1) % RowWidth;
    assert m - 1 == RowWidth * q + r;
    if r == RowWidth - 1 {
      assert m == RowWidth * (q + 1);
      assert m / RowWidth == q + 1 && m % RowWidth == 0;
    } else {
      assert m == RowWidth * q + (r + 1);
      assert m / RowWidth == q && m % RowWidth == r + 1;
    }
  }

  /** Every entry of `p` is `v`. */
  predicate AllEqual(p: seq<real>, v: real)
  {
    forall i :: 0 <= i < |p| ==> p[i] == v
  }

  /** `n` copies of `v` added up. */
  function Times(n: nat, v: real): real
  {
    if n == 0 then 0.0 else Times(n - 1, v) + v
  }

  lemma {:induction false} TimesAdd(a: nat, b: nat, v: real)
    ensures Times(a + b, v) == Times(a, v) + Times(b, v)
    decreases b
  {
    if b > 0 {
      TimesAdd(a, b - 1, v);
    }
  }

  lemma {:induction false} TimesNonNegative(n: nat, v: real)
    requires v >= 0.0
    ensures Times(n, v) >= 0.0
  {
    if n > 0 {
      TimesNonNegative(n - 1, v);
    }
  }

  lemma {:induction false} SumUniform(p: seq<real>, v: real)
    requires AllEqual(p, v)
    ensures Sum(p) == Times(|p|, v)
    decreases |p|
  {
    if |p| > 0 {
      SumUniform(p[..|p| - 1], v);
    }
  }

  /** The left half of a uniform vector holds `LeftCount` copies of its value. */
  lemma {:induction false} LeftSumUniform(p: seq<real>, v: real)
    requires AllEqual(p, v)
    ensures LeftSum(p) == Times(LeftCount(|p|), v)
    decreases |p|
  {
    if |p| > 0 {
      var m := |p|;
      LeftSumUniform(p[..m - 1], v);
      LeftCountStep(m);
      assert p[m - 1] == v;
    }
  }

  /** A uniformly coloured 28 x 28 picture of any intensity in [0, 1] (the
      blank white canvas, or one wiped to transparent, all ink) is guessed as
      0 with confidence 0.4: its halves balance exactly. */
  lemma UniformGuess(v: real)
    requires 0.0 <= v <= 1.0
    ensures FallbackGuess(seq(784, _ => v)) == Guess(0, 0.4)
  {
    var p := seq(784, _ => v);
    assert AllEqual(p, v);
    assert AllEqual(p[..HalfIndex], v);
    assert AllEqual(p[HalfIndex..], v);
    SumUniform(p[..HalfIndex], v);
    SumUniform(p[HalfIndex..], v);
    SumUniform(p, v);
    LeftSumUniform(p, v);
    LeftRightPartition(p);
    TimesAdd(392, 392, v);
    TimesNonNegative(392, v);
  }
}
