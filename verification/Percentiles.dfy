/**
 The linearly interpolated percentile (`percentile` in dlp_harness/metrics.py), over exact reals.
 */
module Percentiles {
  import opened Arithmetic
  import opened StableSort

  datatype Percentile = NoValues | BadPercent | Value(v: real)

  predicate Ascending(s: seq<real>) {
    forall i, j | 0 <= i <= j < |s| :: s[i] <= s[j]
  }

  predicate NotAbove(a: real, b: real) {
    a <= b
  }

  function Sorted(s: seq<real>): seq<real> {
    Sort(s, NotAbove)
  }

  function Ceil(x: real): int {
    -((-x).Floor)
  }

  function Rank(n: nat, p: real): real {
    (n as real - 1.0) * (p / 100.0)
  }

  function Blend(a: real, b: real, w: real): real {
    a + w * (b - a)
  }

  lemma BlendBetween(a: real, b: real, w: real)
    requires a <= b && 0.0 <= w <= 1.0
    ensures a <= Blend(a, b, w) <= b
  {
    var d := b - a;
    Part(w, d);
    var m := w * d;
    assert Blend(a, b, w) == a + m;
  }

  lemma BlendGrows(a: real, b: real, w: real, w1: real)
    requires a <= b && w <= w1
    ensures Blend(a, b, w) <= Blend(a, b, w1)
  {
    Times(w, w1, b - a);
  }

  /** The value at a fractional rank, for an ascending `s`. */
  function At(s: seq<real>, rank: real): real
    requires 0.0 <= rank <= |s| as real - 1.0
  {
    var low, high := rank.Floor, Ceil(rank);
    if low == high then s[low] else Blend(s[low], s[high], rank - low as real)
  }

  function PercentileOf(values: seq<real>, p: real): Percentile {
    if values == [] then NoValues
    else if !(0.0 <= p <= 100.0) then BadPercent
    else
      SortLaws(values);
      RankInRange(|values|, p);
      Value(At(Sorted(values), Rank(|values|, p)))
  }

  lemma SortLaws(s: seq<real>)
    ensures Ascending(Sorted(s)) && multiset(Sorted(s)) == multiset(s) && |Sorted(s)| == |s|
  {
    SortContents(s, NotAbove);
    SortOrders(s, NotAbove);
    forall i, j | 0 <= i <= j < |s| ensures Sorted(s)[i] <= Sorted(s)[j] {
      assert i < j ==> NotAbove(Sorted(s)[i], Sorted(s)[j]);
    }
  }

  lemma RankInRange(n: nat, p: real)
    requires n > 0 && 0.0 <= p <= 100.0
    ensures 0.0 <= Rank(n, p) <= n as real - 1.0
  {
    var k, q := n as real - 1.0, p / 100.0;
    Part(q, k);
    assert Rank(n, p) == q * k;
  }

  lemma RankGrows(n: nat, p: real, p1: real)
    requires n > 0 && p <= p1
    ensures Rank(n, p) <= Rank(n, p1)
  {
    Times(p / 100.0, p1 / 100.0, n as real - 1.0);
  }

  /** The value at a rank lies between the two ranks around it. */
  lemma AtBetween(s: seq<real>, rank: real)
    requires Ascending(s) && 0.0 <= rank <= |s| as real - 1.0
    ensures s[rank.Floor] <= At(s, rank) <= s[Ceil(rank)]
  {
    var low, high := rank.Floor, Ceil(rank);
    if low != high {
      BlendBetween(s[low], s[high], rank - low as real);
    }
  }

  lemma AtGrows(s: seq<real>, rank: real, rank1: real)
    requires Ascending(s) && 0.0 <= rank <= rank1 <= |s| as real - 1.0
    ensures At(s, rank) <= At(s, rank1)
  {
    AtBetween(s, rank);
    AtBetween(s, rank1);
    var low, low1 := rank.Floor, rank1.Floor;
    if low == low1 && low != Ceil(rank) {
      SameGap(s, rank, rank1);
    } else {
      assert Ceil(rank) <= low1;
    }
  }

  lemma SameGap(s: seq<real>, rank: real, rank1: real)
    requires Ascending(s) && 0.0 <= rank <= rank1 <= |s| as real - 1.0
    requires rank.Floor == rank1.Floor != Ceil(rank)
    ensures At(s, rank) <= At(s, rank1)
  {
    var low := rank.Floor;
    assert Ceil(rank) == low + 1 && Ceil(rank1) == low + 1;
    BlendGrows(s[low], s[low + 1], rank - low as real, rank1 - low as real);
  }

  /** A defined percentile lies between the smallest and the largest value; 0 and 100 give exactly those. */
  lemma PercentileBounds(values: seq<real>, p: real, low: real, high: real)
    requires values != [] && low in values && high in values && forall v | v in values :: low <= v <= high
    requires 0.0 <= p <= 100.0
    ensures PercentileOf(values, p).Value? && low <= PercentileOf(values, p).v <= high
    ensures PercentileOf(values, 0.0) == Value(low) && PercentileOf(values, 100.0) == Value(high)
  {
    var s := Sorted(values);
    SortLaws(values);
    RankInRange(|values|, p);
    AtBetween(s, Rank(|values|, p));
    forall i | 0 <= i < |s| ensures low <= s[i] <= high {
      assert s[i] in multiset(s);
      assert s[i] in values;
    }
    assert low in multiset(s) && high in multiset(s);
    assert s[0] == low && s[|s| - 1] == high;
    assert Rank(|values|, 0.0) == 0.0 && Rank(|values|, 100.0) == |values| as real - 1.0;
  }

  /** The percentile never decreases in `p`. */
  lemma PercentileGrows(values: seq<real>, p: real, p1: real)
    requires values != [] && 0.0 <= p <= p1 <= 100.0
    ensures PercentileOf(values, p).Value? && PercentileOf(values, p1).Value?
    ensures PercentileOf(values, p).v <= PercentileOf(values, p1).v
  {
    SortLaws(values);
    RankInRange(|values|, p);
    RankInRange(|values|, p1);
    RankGrows(|values|, p, p1);
    AtGrows(Sorted(values), Rank(|values|, p), Rank(|values|, p1));
  }

  lemma {:induction false} SortedUnique(a: seq<real>, b: seq<real>)
    requires Ascending(a) && Ascending(b) && multiset(a) == multiset(b)
    ensures a == b
  {
    assert |multiset(a)| == |a| && |multiset(b)| == |b|;
    if a != [] {
      FirstIsLeast(a, b);
      FirstIsLeast(b, a);
      assert a == [a[0]] + a[1..] && b == [b[0]] + b[1..];
      Rests(a[0], a[1..], b[1..]);
      SortedUnique(a[1..], b[1..]);
    }
  }

  lemma Rests(x: real, a: seq<real>, b: seq<real>)
    requires multiset([x] + a) == multiset([x] + b)
    ensures multiset(a) == multiset(b)
  {
    assert multiset([x] + a) == multiset{x} + multiset(a);
    assert multiset([x] + b) == multiset{x} + multiset(b);
    forall y ensures multiset(a)[y] == multiset(b)[y] {
      assert multiset([x] + a)[y] == multiset([x] + b)[y];
    }
  }

  lemma FirstIsLeast(a: seq<real>, b: seq<real>)
    requires Ascending(a) && a != [] && b != [] && multiset(a) == multiset(b)
    ensures a[0] <= b[0]
  {
    assert b[0] in multiset(b);
    assert b[0] in a;
  }

  /** The percentile does not depend on the order of the sample. */
  lemma PercentileIgnoresOrder(a: seq<real>, b: seq<real>, p: real)
    requires multiset(a) == multiset(b)
    ensures PercentileOf(a, p) == PercentileOf(b, p)
  {
    assert |multiset(a)| == |a| && |multiset(b)| == |b|;
    SortLaws(a);
    SortLaws(b);
    SortedUnique(Sorted(a), Sorted(b));
  }

  /** At a whole rank the percentile is the value of that rank. */
  lemma PercentileAtRank(values: seq<real>, k: nat)
    requires |values| >= 2 && k < |values|
    ensures
      var p := 100.0 * (k as real / (|values| as real - 1.0));
      |Sorted(values)| == |values| && 0.0 <= p <= 100.0 && PercentileOf(values, p) == Value(Sorted(values)[k])
  {
    SortLaws(values);
    var n, p := |values| as real - 1.0, 100.0 * (k as real / (|values| as real - 1.0));
    Between(k as real, 0.0, 1.0, n);
    Restore(k as real, n);
    assert p / 100.0 == k as real / n;
    assert n * (p / 100.0) == k as real / n * n;
    assert Rank(|values|, p) == k as real;
  }

  lemma BlendMiddle(a: real, b: real, w: real, w1: real)
    ensures Blend(a, b, (w + w1) / 2.0) == (Blend(a, b, w) + Blend(a, b, w1)) / 2.0
  {
    var d := b - a;
    assert (w + w1) / 2.0 * d == (w * d + w1 * d) / 2.0;
  }

  lemma AtIsBlend(s: seq<real>, k: nat, rank: real)
    requires k + 1 < |s| && k as real <= rank <= k as real + 1.0
    ensures At(s, rank) == Blend(s[k], s[k + 1], rank - k as real)
  {
    if rank == k as real + 1.0 {
      assert rank.Floor == k + 1 && Ceil(rank) == k + 1;
      assert 1.0 * (s[k + 1] - s[k]) == s[k + 1] - s[k];
    } else if rank == k as real {
      assert rank.Floor == k && Ceil(rank) == k;
    } else {
      assert rank.Floor == k && Ceil(rank) == k + 1;
    }
  }

  /** Between two neighbouring ranks the value is linear: half way between ranks it is half way between their values. */
  lemma LinearBetweenRanks(s: seq<real>, k: nat, rank: real, rank1: real)
    requires k + 1 < |s| && k as real <= rank <= rank1 <= k as real + 1.0
    ensures At(s, (rank + rank1) / 2.0) == (At(s, rank) + At(s, rank1)) / 2.0
  {
    AtIsBlend(s, k, rank);
    AtIsBlend(s, k, rank1);
    AtIsBlend(s, k, (rank + rank1) / 2.0);
    BlendMiddle(s[k], s[k + 1], rank - k as real, rank1 - k as real);
    assert (rank + rank1) / 2.0 - k as real == ((rank - k as real) + (rank1 - k as real)) / 2.0;
  }
}
