/**
 * The arithmetic of the reports: Python's `round(x, 1)`, sums, means and
 * percentages over real numbers, counts over lists, and `sorted` on ratios.
 */
module Numeric {
  import opened Seqs


  /** `round(x, 1)`: the nearest multiple of 0.1, halves rounded up. */
  function Round1(x: real): (r: real)
    ensures x - 0.05 < r <= x + 0.05
    ensures (10.0 * r).Floor as real == 10.0 * r
  {
    var f := (10.0 * x + 0.5).Floor;
    assert 10.0 * (f as real / 10.0) == f as real;
    f as real / 10.0
  }

  /** Rounding keeps a percentage a percentage. */
  lemma Round1Percent(x: real)
    requires 0.0 <= x <= 100.0
    ensures 0.0 <= Round1(x) <= 100.0
  {
    var f := (10.0 * x + 0.5).Floor;
    assert f as real <= 10.0 * x + 0.5 < f as real + 1.0;
    assert 0 <= f <= 1000;
    assert 0.0 <= f as real <= 1000.0;
    assert Round1(x) == f as real / 10.0;
  }

  function Sum(xs: seq<real>): real {
    if xs == [] then 0.0 else xs[0] + Sum(xs[1..])
  }

  lemma {:induction false} SumAppend(xs: seq<real>, ys: seq<real>)
    ensures Sum(xs + ys) == Sum(xs) + Sum(ys)
  {
    if xs == [] {
      assert xs + ys == ys;
    } else {
      assert (xs + ys)[1..] == xs[1..] + ys;
      SumAppend(xs[1..], ys);
    }
  }

  predicate Within(xs: seq<real>, lo: real, hi: real) {
    forall i :: 0 <= i < |xs| ==> lo <= xs[i] <= hi
  }

  lemma {:induction false} SumWithin(xs: seq<real>, lo: real, hi: real)
    requires Within(xs, lo, hi)
    ensures lo * |xs| as real <= Sum(xs) <= hi * |xs| as real
  {
    if xs != [] {
      SumWithin(xs[1..], lo, hi);
    }
  }

  /** `sum(xs) / len(xs)`. */
  function Mean(xs: seq<real>): real
    requires xs != []
  {
    Sum(xs) / |xs| as real
  }

  /** The mean lies between the smallest and the largest possible element. */
  lemma MeanWithin(xs: seq<real>, lo: real, hi: real)
    requires xs != [] && Within(xs, lo, hi)
    ensures lo <= Mean(xs) <= hi
  {
    SumWithin(xs, lo, hi);
    var n := |xs| as real;
    assert Mean(xs) * n == Sum(xs);
  }

  /** `round(sum(xs) / len(xs), 1) if xs else 0`. */
  function Avg(xs: seq<real>): (r: real) {
    if xs == [] then 0.0 else Round1(Mean(xs))
  }

  lemma AvgPercent(xs: seq<real>)
    requires Within(xs, 0.0, 100.0)
    ensures 0.0 <= Avg(xs) <= 100.0
  {
    if xs != [] {
      MeanWithin(xs, 0.0, 100.0);
      Round1Percent(Mean(xs));
    }
  }

  /** `round(k / n * 100, 1)`. */
  function Percent(k: nat, n: nat): (r: real)
    requires n > 0
  {
    Round1(k as real / n as real * 100.0)
  }

  /** A part of a whole, as a percentage, lies in [0, 100]. */
  lemma PercentBounds(k: nat, n: nat)
    requires 0 < n && k <= n
    ensures 0.0 <= Percent(k, n) <= 100.0
  {
    var q := k as real / n as real;
    FractionBounds(k as real, n as real);
    Round1Percent(q * 100.0);
  }

  /** A part of a positive whole, divided by it, lies in [0, 1]. */
  lemma FractionBounds(k: real, n: real)
    requires 0.0 <= k <= n && 0.0 < n
    ensures 0.0 <= k / n <= 1.0
  {
    var q := k / n;
    assert q * n == k;
    assert (1.0 - q) * n == n - k;
  }

  /** `sum(bs)` on a list of booleans. */
  function CountTrue(bs: seq<bool>): (r: nat)
    ensures r <= |bs|
  {
    if bs == [] then 0 else (if bs[0] then 1 else 0) + CountTrue(bs[1..])
  }

  /** `round(sum(bs) / len(bs) * 100, 1) if bs else 0`. */
  function Rate(bs: seq<bool>): (r: real)
    ensures 0.0 <= r <= 100.0
  {
    if bs == [] then 0.0 else PercentBounds(CountTrue(bs), |bs|); Percent(CountTrue(bs), |bs|)
  }

  /** `sum(1 for x in xs if x > t)`. */
  function CountAbove(xs: seq<real>, t: real): nat {
    if xs == [] then 0 else (if xs[0] > t then 1 else 0) + CountAbove(xs[1..], t)
  }

  /** `sum(1 for x in xs if x < t)`. */
  function CountBelow(xs: seq<real>, t: real): nat {
    if xs == [] then 0 else (if xs[0] < t then 1 else 0) + CountBelow(xs[1..], t)
  }

  /** No element is both above `hi` and below `lo <= hi`, so the two counts add up
      to at most the length. */
  lemma {:induction false} AboveBelowDisjoint(xs: seq<real>, lo: real, hi: real)
    requires lo <= hi
    ensures CountAbove(xs, hi) + CountBelow(xs, lo) <= |xs|
  {
    if xs != [] {
      AboveBelowDisjoint(xs[1..], lo, hi);
    }
  }

  predicate SortedAsc(s: seq<real>) {
    forall i, j :: 0 <= i < j < |s| ==> s[i] <= s[j]
  }

  /** Putting a value in front of a sorted list whose head is no smaller keeps
      it sorted. */
  lemma ConsAsc(h: real, t: seq<real>)
    requires SortedAsc(t) && (t != [] ==> h <= t[0])
    ensures SortedAsc([h] + t)
  {
    var r := [h] + t;
    forall i, j | 0 <= i < j < |r| ensures r[i] <= r[j] {
      assert r[j] == t[j - 1];
      if i == 0 {
        assert t[0] <= t[j - 1];
      } else {
        assert r[i] == t[i - 1];
      }
    }
  }

  function InsertAsc(x: real, s: seq<real>): (r: seq<real>)
    requires SortedAsc(s)
    ensures SortedAsc(r)
    ensures multiset(r) == multiset(s) + multiset{x}
    ensures |r| == |s| + 1
    ensures r[0] == if s == [] || x <= s[0] then x else s[0]
  {
    if s == [] || x <= s[0] then
      ConsAsc(x, s);
      [x] + s
    else
      var t := InsertAsc(x, s[1..]);
      ConsAsc(s[0], t);
      HeadTail(s);
      [s[0]] + t
  }

  /** `sorted(xs)`: the same elements in ascending order. */
  function SortAsc(xs: seq<real>): (r: seq<real>)
    ensures SortedAsc(r)
    ensures multiset(r) == multiset(xs)
    ensures |r| == |xs|
  {
    if xs == [] then []
    else
      assert xs == [xs[0]] + xs[1..];
      InsertAsc(xs[0], SortAsc(xs[1..]))
  }

  /** `sorted(xs)[len(xs) // 2] if xs else 0`: the upper median. */
  function Median(xs: seq<real>): (r: real)
    ensures xs != [] ==> r in multiset(xs)
    ensures xs != [] ==> |SortAsc(xs)| == |xs| && r == SortAsc(xs)[|xs| / 2]
  {
    if xs == [] then 0.0
    else
      var s := SortAsc(xs);
      assert s[|xs| / 2] in multiset(s);
      s[|xs| / 2]
  }

  /** More than half the elements are at most the median, and at least half
      are at least the median. */
  lemma MedianSplits(xs: seq<real>)
    requires xs != []
    ensures CountAtMost(SortAsc(xs), Median(xs)) >= |xs| / 2 + 1
    ensures CountAtLeast(SortAsc(xs), Median(xs)) >= |xs| - |xs| / 2
  {
    SortedSplits(SortAsc(xs));
  }

  /** In a sorted list, the middle element has at least half the list at or
      below it and at least half at or above it. */
  lemma SortedSplits(s: seq<real>)
    requires s != [] && SortedAsc(s)
    ensures CountAtMost(s, s[|s| / 2]) >= |s| / 2 + 1
    ensures CountAtLeast(s, s[|s| / 2]) >= |s| - |s| / 2
  {
    var h := |s| / 2;
    AtMostPrefix(s, h + 1, s[h]);
    AtLeastSuffix(s, h, s[h]);
  }

  function CountAtMost(xs: seq<real>, t: real): nat {
    if xs == [] then 0 else (if xs[0] <= t then 1 else 0) + CountAtMost(xs[1..], t)
  }

  function CountAtLeast(xs: seq<real>, t: real): nat {
    if xs == [] then 0 else (if xs[0] >= t then 1 else 0) + CountAtLeast(xs[1..], t)
  }

  lemma {:induction false} AtMostPrefix(s: seq<real>, n: nat, t: real)
    requires n <= |s| && forall i :: 0 <= i < n ==> s[i] <= t
    ensures CountAtMost(s, t) >= n
  {
    if n > 0 {
      AtMostPrefix(s[1..], n - 1, t);
    }
  }

  lemma {:induction false} AtLeastSuffix(s: seq<real>, k: nat, t: real)
    requires k <= |s| && forall i :: k <= i < |s| ==> s[i] >= t
    ensures CountAtLeast(s, t) >= |s| - k
  {
    if s != [] {
      if k == 0 {
        AtLeastSuffix(s[1..], 0, t);
      } else {
        AtLeastSuffix(s[1..], k - 1, t);
      }
    }
  }
}
