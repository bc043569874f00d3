/**
 * `Counter.most_common()` and `sorted(..., key=lambda x: -score(x))`: a stable
 * sort by a score, largest first, where equal scores keep their input order.
 */
module Ranking {
  import opened Seqs


  predicate SortedDesc<T>(s: seq<T>, score: T -> int) {
    forall i, j :: 0 <= i < j < |s| ==> score(s[i]) >= score(s[j])
  }

  /** The elements of `s` whose score is `c`, in order. */
  function WithScore<T>(s: seq<T>, score: T -> int, c: int): seq<T> {
    if s == [] then []
    else (if score(s[0]) == c then [s[0]] else []) + WithScore(s[1..], score, c)
  }

  function SumScore<T>(s: seq<T>, score: T -> int): int {
    if s == [] then 0 else score(s[0]) + SumScore(s[1..], score)
  }

  /** Putting an element in front of a sorted list whose head scores no more
      keeps it sorted. */
  lemma ConsDesc<T>(h: T, t: seq<T>, score: T -> int)
    requires SortedDesc(t, score) && (t != [] ==> score(h) >= score(t[0]))
    ensures SortedDesc([h] + t, score)
  {
    var r := [h] + t;
    forall i, j | 0 <= i < j < |r| ensures score(r[i]) >= score(r[j]) {
      assert r[j] == t[j - 1];
      if i == 0 {
        assert score(t[0]) >= score(t[j - 1]);
      } else {
        assert r[i] == t[i - 1];
      }
    }
  }

  /** Insert `x` in front of every element scoring no more than it. */
  function InsertDesc<T(==)>(x: T, s: seq<T>, score: T -> int): (r: seq<T>)
    requires SortedDesc(s, score)
    ensures SortedDesc(r, score)
    ensures multiset(r) == multiset(s) + multiset{x}
    ensures |r| == |s| + 1
    ensures r[0] == if s == [] || score(x) >= score(s[0]) then x else s[0]
  {
    if s == [] || score(x) >= score(s[0]) then
      ConsDesc(x, s, score);
      [x] + s
    else
      var t := InsertDesc(x, s[1..], score);
      ConsDesc(s[0], t, score);
      HeadTail(s);
      [s[0]] + t
  }

  /** Stable sort by descending score. */
  function SortDesc<T(==)>(s: seq<T>, score: T -> int): (r: seq<T>)
    ensures SortedDesc(r, score)
    ensures multiset(r) == multiset(s)
    ensures |r| == |s|
  {
    if s == [] then []
    else
      assert s == [s[0]] + s[1..];
      InsertDesc(s[0], SortDesc(s[1..], score), score)
  }

  lemma WithScoreCons<T>(h: T, t: seq<T>, score: T -> int, c: int)
    ensures WithScore([h] + t, score, c) == (if score(h) == c then [h] else []) + WithScore(t, score, c)
  {
    assert ([h] + t)[1..] == t;
  }

  lemma {:induction false} InsertDescWithScore<T>(x: T, s: seq<T>, score: T -> int, c: int)
    requires SortedDesc(s, score)
    ensures WithScore(InsertDesc(x, s, score), score, c)
         == (if score(x) == c then [x] else []) + WithScore(s, score, c)
  {
    if s == [] || score(x) >= score(s[0]) {
      WithScoreCons(x, s, score, c);
    } else {
      var t := InsertDesc(x, s[1..], score);
      InsertDescWithScore(x, s[1..], score, c);
      WithScoreCons(s[0], t, score, c);
      assert s == [s[0]] + s[1..];
      WithScoreCons(s[0], s[1..], score, c);
      if score(x) == c {
        assert score(s[0]) != c;
      }
    }
  }

  /** Stability: among elements of equal score the sorted order is the input order.
      Together with `SortedDesc` this pins the result down completely. */
  lemma {:induction false} SortDescStable<T>(s: seq<T>, score: T -> int, c: int)
    ensures WithScore(SortDesc(s, score), score, c) == WithScore(s, score, c)
  {
    if s != [] {
      SortDescStable(s[1..], score, c);
      InsertDescWithScore(s[0], SortDesc(s[1..], score), score, c);
    }
  }

  lemma SumScoreCons<T>(h: T, t: seq<T>, score: T -> int)
    ensures SumScore([h] + t, score) == score(h) + SumScore(t, score)
  {
    assert ([h] + t)[1..] == t;
  }

  lemma {:induction false} InsertDescSum<T>(x: T, s: seq<T>, score: T -> int)
    requires SortedDesc(s, score)
    ensures SumScore(InsertDesc(x, s, score), score) == score(x) + SumScore(s, score)
  {
    if s == [] || score(x) >= score(s[0]) {
      SumScoreCons(x, s, score);
    } else {
      InsertDescSum(x, s[1..], score);
      SumScoreCons(s[0], InsertDesc(x, s[1..], score), score);
    }
  }

  /** Sorting keeps the total of the scores. */
  lemma {:induction false} SortDescSum<T>(s: seq<T>, score: T -> int)
    ensures SumScore(SortDesc(s, score), score) == SumScore(s, score)
  {
    if s != [] {
      SortDescSum(s[1..], score);
      InsertDescSum(s[0], SortDesc(s[1..], score), score);
    }
  }
}
