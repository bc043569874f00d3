/** Slicing helpers shared by the analysis. */
module Seqs {
  /** `s[:n]`: at most the first `n` elements of `s`. */
  function Take<T>(s: seq<T>, n: nat): (r: seq<T>)
    ensures |r| <= n && |r| <= |s|
    ensures r == s[..|r|]
    ensures |s| <= n ==> r == s
    ensures n <= |s| ==> |r| == n
  {
    if |s| <= n then s else s[..n]
  }

  /** `[f(x) for x in xs]`, built one element at a time. */
  function MapSeq<A, B>(f: A -> B, xs: seq<A>): seq<B> {
    if xs == [] then [] else MapSeq(f, xs[..|xs| - 1]) + [f(xs[|xs| - 1])]
  }

  /** The mapped list has one element per input element, its image. */
  lemma {:induction false} MapSeqAt<A, B>(f: A -> B, xs: seq<A>)
    ensures |MapSeq(f, xs)| == |xs|
    ensures forall i :: 0 <= i < |xs| ==> MapSeq(f, xs)[i] == f(xs[i])
  {
    if xs != [] {
      var init := xs[..|xs| - 1];
      MapSeqAt(f, init);
      forall i | 0 <= i < |init| ensures MapSeq(f, xs)[i] == f(xs[i]) {
        assert xs[i] == init[i];
      }
    }
  }

  /** A non-empty sequence holds its head and the elements of its tail. */
  lemma HeadTail<T>(s: seq<T>)
    requires s != []
    ensures multiset(s) == multiset{s[0]} + multiset(s[1..])
  {
    assert s == [s[0]] + s[1..];
  }
}
