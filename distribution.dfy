/** The 10-entry `allPredictions` list that both classification paths build
    (src/utils/classifier.ts): the winner keeps its confidence, every other
    digit gets a random draw scaled by a factor, and the list is sorted by
    descending confidence. The draws of `Math.random` are an oracle input:
    `randoms[i]` is the draw used for slot `i`. */
module Distribution {
  import opened Prediction

  const Digits: nat := 10

  /** The oracle contract of `Math.random`: ten draws in [0, 1). */
  predicate IsOracle(randoms: seq<real>)
  {
    |randoms| == Digits && forall i :: 0 <= i < |randoms| ==> 0.0 <= randoms[i] < 1.0
  }

  /** `Array.from({ length: 10 }, ...)`: slot i holds digit i. */
  function Synthesize(winner: int, c: real, randoms: seq<real>, scale: real): seq<Entry>
    requires |randoms| == Digits
  {
    seq(Digits, i requires 0 <= i < Digits =>
      if i == winner then Entry(i, c) else Entry(i, randoms[i] * scale))
  }

  /** Non-increasing by confidence. */
  predicate Sorted(s: seq<Entry>)
  {
    forall i, j :: 0 <= i < j < |s| ==> s[i].confidence >= s[j].confidence
  }

  /** Place `x` before the first entry that is not more confident than it;
      with `SortDesc` this keeps equal entries in slot order, as the stable
      `Array.prototype.sort` does. */
  function Insert(x: Entry, t: seq<Entry>): seq<Entry>
  {
    if t == [] || t[0].confidence <= x.confidence then [x] + t
    else [t[0]] + Insert(x, t[1..])
  }

  /** `sort((a, b) => b.confidence - a.confidence)`. */
  function SortDesc(s: seq<Entry>): seq<Entry>
  {
    if s == [] then [] else Insert(s[0], SortDesc(s[1..]))
  }

  /** The digits of a list of entries, in order. */
  function DigitsOf(s: seq<Entry>): (d: seq<int>)
    ensures |d| == |s|
  {
    if s == [] then [] else [s[0].digit] + DigitsOf(s[1..])
  }

  /** Every digit 0..9 appears exactly once, and nothing else appears. */
  ghost predicate ExactlyOnce(s: seq<Entry>)
  {
    forall d :: multiset(DigitsOf(s))[d] == (if 0 <= d < Digits then 1 else 0)
  }

  /** The sorted, synthesized list. */
  function Rank(winner: int, c: real, randoms: seq<real>, scale: real): (s: seq<Entry>)
    requires |randoms| == Digits
  {
    SortDesc(Synthesize(winner, c, randoms, scale))
  }

  lemma {:induction false} InsertPermutes(x: Entry, t: seq<Entry>)
    ensures multiset(Insert(x, t)) == multiset{x} + multiset(t)
    decreases |t|
  {
    if t != [] && t[0].confidence > x.confidence {
      InsertPermutes(x, t[1..]);
      assert t == [t[0]] + t[1..];
    }
  }

  lemma {:induction false} InsertDigits(x: Entry, t: seq<Entry>)
    ensures multiset(DigitsOf(Insert(x, t))) == multiset{x.digit} + multiset(DigitsOf(t))
    decreases |t|
  {
    if t == [] || t[0].confidence <= x.confidence {
      assert ([x] + t)[1..] == t;
    } else {
      InsertDigits(x, t[1..]);
      var u := Insert(x, t[1..]);
      assert ([t[0]] + u)[1..] == u;
      assert DigitsOf([t[0]] + u) == [t[0].digit] + DigitsOf(u);
      assert DigitsOf(t) == [t[0].digit] + DigitsOf(t[1..]);
    }
  }

  /** Inserting below a bound keeps every entry below it. */
  lemma {:induction false} InsertBelow(x: Entry, t: seq<Entry>, b: real)
    requires x.confidence <= b
    requires forall j :: 0 <= j < |t| ==> t[j].confidence <= b
    ensures forall j :: 0 <= j < |Insert(x, t)| ==> Insert(x, t)[j].confidence <= b
    decreases |t|
  {
    if t != [] && t[0].confidence > x.confidence {
      InsertBelow(x, t[1..], b);
    }
  }

  lemma {:induction false} InsertSorted(x: Entry, t: seq<Entry>)
    requires Sorted(t)
    ensures Sorted(Insert(x, t))
    decreases |t|
  {
    if t != [] && t[0].confidence > x.confidence {
      var u := Insert(x, t[1..]);
      assert Sorted(t[1..]);
      InsertSorted(x, t[1..]);
      InsertBelow(x, t[1..], t[0].confidence);
      assert Insert(x, t) == [t[0]] + u;
    }
  }

  lemma {:induction false} SortDescSorted(s: seq<Entry>)
    ensures Sorted(SortDesc(s))
    decreases |s|
  {
    if s != [] {
      SortDescSorted(s[1..]);
      InsertSorted(s[0], SortDesc(s[1..]));
    }
  }

  lemma {:induction false} SortDescPermutes(s: seq<Entry>)
    ensures multiset(SortDesc(s)) == multiset(s)
    decreases |s|
  {
    if s != [] {
      SortDescPermutes(s[1..]);
      InsertPermutes(s[0], SortDesc(s[1..]));
      assert s == [s[0]] + s[1..];
    }
  }

  lemma {:induction false} SortDescDigits(s: seq<Entry>)
    ensures multiset(DigitsOf(SortDesc(s))) == multiset(DigitsOf(s))
    decreases |s|
  {
    if s != [] {
      SortDescDigits(s[1..]);
      InsertDigits(s[0], SortDesc(s[1..]));
      assert DigitsOf(s) == [s[0].digit] + DigitsOf(s[1..]);
    }
  }

  /** The sort yields a sorted permutation of its input, entries and digits alike. */
  lemma SortDescCorrect(s: seq<Entry>)
    ensures Sorted(SortDesc(s))
    ensures multiset(SortDesc(s)) == multiset(s)
    ensures multiset(DigitsOf(SortDesc(s))) == multiset(DigitsOf(s))
  {
    SortDescSorted(s);
    SortDescPermutes(s);
    SortDescDigits(s);
  }

  lemma {:induction false} IdentityCount(d: seq<int>, v: int)
    requires forall k :: 0 <= k < |d| ==> d[k] == k
    ensures multiset(d)[v] == (if 0 <= v < |d| then 1 else 0)
    decreases |d|
  {
    if |d| > 0 {
      var n := |d| - 1;
      assert d == d[..n] + [d[n]];
      IdentityCount(d[..n], v);
    }
  }

  lemma {:induction false} DigitsAt(s: seq<Entry>, k: nat)
    requires k < |s|
    ensures DigitsOf(s)[k] == s[k].digit
  {
    if k > 0 {
      DigitsAt(s[1..], k - 1);
    }
  }

  /** Slot i of the synthesized list holds digit i. */
  lemma SynthesizeDigits(winner: int, c: real, randoms: seq<real>, scale: real)
    requires |randoms| == Digits
    ensures var d := DigitsOf(Synthesize(winner, c, randoms, scale));
      |d| == Digits && forall k :: 0 <= k < |d| ==> d[k] == k
  {
    var s := Synthesize(winner, c, randoms, scale);
    forall k | 0 <= k < Digits ensures DigitsOf(s)[k] == k {
      DigitsAt(s, k);
    }
  }

  /** A list whose digits are 0..9 in slot order keeps every digit exactly once when sorted. */
  lemma SortedRangeExactlyOnce(u: seq<Entry>)
    requires |u| == Digits
    requires forall k :: 0 <= k < |u| ==> DigitsOf(u)[k] == k
    ensures |SortDesc(u)| == Digits && ExactlyOnce(SortDesc(u))
  {
    var s := SortDesc(u);
    SortDescDigits(u);
    forall d ensures multiset(DigitsOf(s))[d] == (if 0 <= d < Digits then 1 else 0) {
      IdentityCount(DigitsOf(u), d);
    }
    assert |multiset(s)| == |multiset(u)|;
  }

  /** Each entry of the sorted list is an entry of the input, and conversely. */
  lemma SortDescMembers(u: seq<Entry>)
    ensures forall k :: 0 <= k < |SortDesc(u)| ==> SortDesc(u)[k] in u
    ensures forall i :: 0 <= i < |u| ==> u[i] in SortDesc(u)
  {
    SortDescPermutes(u);
    var s := SortDesc(u);
    forall k | 0 <= k < |s| ensures s[k] in u {
      assert s[k] in multiset(s);
    }
    forall i | 0 <= i < |u| ensures u[i] in s {
      assert u[i] in multiset(u);
    }
  }

  /** The list has ten entries and holds every digit 0..9 exactly once. */
  lemma RankDigits(winner: int, c: real, randoms: seq<real>, scale: real)
    requires |randoms| == Digits
    ensures var s := Rank(winner, c, randoms, scale);
      |s| == Digits && ExactlyOnce(s)
  {
    SynthesizeDigits(winner, c, randoms, scale);
    SortedRangeExactlyOnce(Synthesize(winner, c, randoms, scale));
  }

  /** Every entry of the list is one of the synthesized slots. */
  lemma RankEntries(winner: int, c: real, randoms: seq<real>, scale: real)
    requires |randoms| == Digits
    ensures var s := Rank(winner, c, randoms, scale);
      && (0 <= winner < Digits ==> Entry(winner, c) in s)
      && forall k :: 0 <= k < |s| && s[k].digit != winner ==>
           0 <= s[k].digit < Digits && s[k].confidence == randoms[s[k].digit] * scale
  {
    var u := Synthesize(winner, c, randoms, scale);
    SortDescMembers(u);
    var s := SortDesc(u);
    if 0 <= winner < Digits {
      assert u[winner] == Entry(winner, c);
    }
    forall k | 0 <= k < |s| && s[k].digit != winner
      ensures 0 <= s[k].digit < Digits && s[k].confidence == randoms[s[k].digit] * scale
    {
      var i :| 0 <= i < |u| && u[i] == s[k];
      assert u[i] == (if i == winner then Entry(i, c) else Entry(i, randoms[i] * scale));
      assert s[k].digit == i;
    }
  }

  /** Whatever the winner and the draws, the list has ten entries, is sorted
      non-increasing, holds every digit 0..9 exactly once, contains the
      winner's own entry when the winner is a digit, and every entry of a
      digit other than the winner is that digit's draw times the scale. */
  lemma RankShape(winner: int, c: real, randoms: seq<real>, scale: real)
    requires |randoms| == Digits
    ensures var s := Rank(winner, c, randoms, scale);
      && |s| == Digits
      && Sorted(s)
      && ExactlyOnce(s)
      && (0 <= winner < Digits ==> Entry(winner, c) in s)
      && forall k :: 0 <= k < |s| && s[k].digit != winner ==>
           0 <= s[k].digit < Digits && s[k].confidence == randoms[s[k].digit] * scale
  {
    SortDescSorted(Synthesize(winner, c, randoms, scale));
    RankDigits(winner, c, randoms, scale);
    RankEntries(winner, c, randoms, scale);
  }

  /** With draws in [0, 1) and a non-negative scale, every non-winner lies in
      [0, scale], strictly below the scale when the scale is positive. */
  lemma NonWinnerBound(winner: int, c: real, randoms: seq<real>, scale: real)
    requires IsOracle(randoms) && scale >= 0.0
    ensures var s := Rank(winner, c, randoms, scale);
      forall k :: 0 <= k < |s| && s[k].digit != winner ==>
        0.0 <= s[k].confidence <= scale && (scale > 0.0 ==> s[k].confidence < scale)
  {
    RankShape(winner, c, randoms, scale);
    var s := Rank(winner, c, randoms, scale);
    forall k | 0 <= k < |s| && s[k].digit != winner
      ensures 0.0 <= s[k].confidence <= scale && (scale > 0.0 ==> s[k].confidence < scale)
    {
      var r := randoms[s[k].digit];
      assert 0.0 <= r < 1.0;
      assert scale - r * scale == (1.0 - r) * scale;
      MulNonNegative(1.0 - r, scale);
      MulNonNegative(r, scale);
    }
  }

  lemma MulNonNegative(a: real, b: real)
    requires a >= 0.0 && b >= 0.0
    ensures a * b >= 0.0 && (a > 0.0 && b > 0.0 ==> a * b > 0.0)
  {
  }

  lemma MulNonPositive(a: real, b: real)
    requires a >= 0.0 && b <= 0.0
    ensures a * b <= 0.0
  {
    MulNonNegative(a, -b);
    assert a * b == -(a * -b);
  }

  /** A positive winner confidence at least the scale puts the winner first:
      with a non-negative scale every non-winner is below it, and with a
      negative scale every non-winner is at most 0. */
  lemma WinnerFirst(winner: int, c: real, randoms: seq<real>, scale: real)
    requires IsOracle(randoms) && 0 <= winner < Digits && 0.0 < c && scale <= c
    ensures Rank(winner, c, randoms, scale)[0] == Entry(winner, c)
  {
    RankShape(winner, c, randoms, scale);
    var s := Rank(winner, c, randoms, scale);
    var k :| 0 <= k < |s| && s[k] == Entry(winner, c);
    if s[0].digit != winner {
      var r := randoms[s[0].digit];
      assert 0.0 <= r < 1.0;
      if scale >= 0.0 {
        NonWinnerBound(winner, c, randoms, scale);
      } else {
        MulNonPositive(r, scale);
      }
      assert false;
    }
    ExactlyOnceUnique(s, 0, k);
  }

  lemma CountTwo(d: seq<int>, i: nat, j: nat)
    requires i < j < |d| && d[i] == d[j]
    ensures multiset(d)[d[i]] >= 2
  {
    assert d == d[..j] + d[j..];
    assert d[i] in multiset(d[..j]);
    assert d[j..][0] == d[j];
    assert d[j] in multiset(d[j..]);
  }

  /** Two entries with the same digit in an `ExactlyOnce` list are the same entry. */
  lemma ExactlyOnceUnique(s: seq<Entry>, i: nat, j: nat)
    requires ExactlyOnce(s) && i < |s| && j < |s| && s[i].digit == s[j].digit
    ensures i == j
  {
    DigitsAt(s, i);
    DigitsAt(s, j);
    var d := DigitsOf(s);
    if i < j {
      CountTwo(d, i, j);
      assert false;
    } else if j < i {
      CountTwo(d, j, i);
      assert false;
    }
  }

  /** A winner outside 0..9 has no entry at all: the list holds only 0..9. */
  lemma MissingWinner(winner: int, c: real, randoms: seq<real>, scale: real)
    requires |randoms| == Digits && !(0 <= winner < Digits)
    ensures var s := Rank(winner, c, randoms, scale);
      forall k :: 0 <= k < |s| ==> s[k].digit != winner
  {
    RankShape(winner, c, randoms, scale);
    var s := Rank(winner, c, randoms, scale);
    forall k | 0 <= k < |s| ensures s[k].digit != winner {
      DigitsAt(s, k);
      assert DigitsOf(s)[k] in multiset(DigitsOf(s));
    }
  }
}
