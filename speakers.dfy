/**
 * The speaker resolver: which participant of a call is the sales rep.
 */
module Speakers {
  import opened Options
  import opened Transcript

  /** How many times `x` occurs in `xs`: a `Counter` entry. */
  function Occ(xs: seq<string>, x: string): nat {
    if xs == [] then 0 else (if xs[0] == x then 1 else 0) + Occ(xs[1..], x)
  }

  /** `x` beats position `j` in `Counter(xs).most_common(1)`: `xs[j]` is not more
      frequent than `x`, and when it is as frequent, `x` has already appeared. */
  ghost predicate Beats(xs: seq<string>, x: string, j: nat)
    requires j < |xs|
  {
    Occ(xs, xs[j]) <= Occ(xs, x) && (Occ(xs, xs[j]) == Occ(xs, x) ==> x in xs[..j + 1])
  }

  /** `x` is what `Counter(xs).most_common(1)[0][0]` yields: a most frequent element,
      and the first to appear among the equally frequent ones (the counter keeps
      first-appearance order and the first maximum wins). */
  ghost predicate IsFirstMostCommon(xs: seq<string>, x: string) {
    x in xs && forall j :: 0 <= j < |xs| ==> Beats(xs, x, j)
  }

  /** The prefix `xs[..i]` has been scanned and `best` is its first most frequent element. */
  ghost predicate ScannedUpTo(xs: seq<string>, i: nat, best: string) {
    i <= |xs| && best in xs[..i] && forall j :: 0 <= j < i ==> Beats(xs, best, j)
  }

  function ScanBest(xs: seq<string>, i: nat, best: string): (r: string)
    requires 0 < i && ScannedUpTo(xs, i, best)
    ensures IsFirstMostCommon(xs, r)
    decreases |xs| - i
  {
    if i == |xs| then
      assert xs[..i] == xs;
      best
    else if Occ(xs, xs[i]) > Occ(xs, best) then
      assert xs[i] in xs[..i + 1];
      assert forall j :: 0 <= j < i ==> Beats(xs, best, j) && Beats(xs, xs[i], j);
      ScanBest(xs, i + 1, xs[i])
    else
      assert xs[..i] <= xs[..i + 1];
      ScanBest(xs, i + 1, best)
  }

  function MostCommonFirst(xs: seq<string>): (r: string)
    requires xs != []
    ensures IsFirstMostCommon(xs, r)
  {
    assert xs[..1] == [xs[0]];
    ScanBest(xs, 1, xs[0])
  }

  function IndexOf(xs: seq<string>, x: string): (i: nat)
    requires x in xs
    ensures i < |xs| && xs[i] == x && x !in xs[..i]
  {
    if xs[0] == x then 0
    else
      var i := IndexOf(xs[1..], x);
      assert xs[..i + 1] == [xs[0]] + xs[1..][..i];
      i + 1
  }

  /** An element found in `xs[..j + 1]` first occurs at or before `j`. */
  lemma IndexAtMost(xs: seq<string>, x: string, j: nat)
    requires j < |xs| && x in xs[..j + 1]
    ensures IndexOf(xs, x) <= j
  {
    var i := IndexOf(xs, x);
    assert forall k :: 0 <= k < i ==> xs[..i][k] == xs[k];
    var k :| 0 <= k < j + 1 && xs[..j + 1][k] == x;
    assert xs[k] == x;
  }

  lemma FirstMostCommonAt(xs: seq<string>, x: string, j: nat)
    requires IsFirstMostCommon(xs, x) && j < |xs|
    ensures Occ(xs, xs[j]) <= Occ(xs, x)
    ensures Occ(xs, xs[j]) == Occ(xs, x) ==> IndexOf(xs, x) <= j
  {
    assert Beats(xs, x, j);
    if Occ(xs, xs[j]) == Occ(xs, x) {
      IndexAtMost(xs, x, j);
    }
  }

  /** The first most frequent element is unique. */
  lemma FirstMostCommonUnique(xs: seq<string>, x: string, y: string)
    requires IsFirstMostCommon(xs, x) && IsFirstMostCommon(xs, y)
    ensures x == y
  {
    var i, j := IndexOf(xs, x), IndexOf(xs, y);
    FirstMostCommonAt(xs, x, j);
    FirstMostCommonAt(xs, y, i);
    assert xs[i] == x && xs[j] == y;
    assert Occ(xs, x) == Occ(xs, y);
    assert i <= j && j <= i;
  }

  function Speakers(turns: seq<Turn>): (r: seq<string>)
    ensures |r| == |turns| && forall i :: 0 <= i < |turns| ==> r[i] == turns[i].speaker
  {
    seq(|turns|, i requires 0 <= i < |turns| => turns[i].speaker)
  }

  /** How many of the first `i` turns have a speaker on the roster. */
  function RosterBefore(turns: seq<Turn>, roster: set<string>, i: nat): nat
    requires i <= |turns|
  {
    if i == 0 then 0
    else (if turns[0].speaker in roster then 1 else 0) + RosterBefore(turns[1..], roster, i - 1)
  }

  /** The speakers of the turns whose speaker is on the roster, in order: the
      kept turn `i` lands at position `RosterBefore(turns, roster, i)`, and each
      roster member is counted as often as among all speakers. */
  function RosterSpeakers(turns: seq<Turn>, roster: set<string>): (r: seq<string>)
    ensures forall s <- r :: s in roster
    ensures r == [] <==> forall i :: 0 <= i < |turns| ==> turns[i].speaker !in roster
    ensures forall x :: Occ(r, x) == if x in roster then Occ(Speakers(turns), x) else 0
    ensures |r| == RosterBefore(turns, roster, |turns|)
    ensures forall i :: 0 <= i < |turns| && turns[i].speaker in roster ==>
              RosterBefore(turns, roster, i) < |r| && r[RosterBefore(turns, roster, i)] == turns[i].speaker
  {
    if turns == [] then []
    else
      var rest := RosterSpeakers(turns[1..], roster);
      assert forall i :: 1 <= i < |turns| ==> turns[i] == turns[1..][i - 1];
      var r := (if turns[0].speaker in roster then [turns[0].speaker] else []) + rest;
      RosterOccStep(turns, roster, rest, r);
      RosterOrderStep(turns, roster, rest, r);
      r
  }

  lemma RosterOccStep(turns: seq<Turn>, roster: set<string>, rest: seq<string>, r: seq<string>)
    requires turns != []
    requires forall x :: Occ(rest, x) == if x in roster then Occ(Speakers(turns[1..]), x) else 0
    requires r == (if turns[0].speaker in roster then [turns[0].speaker] else []) + rest
    ensures forall x :: Occ(r, x) == if x in roster then Occ(Speakers(turns), x) else 0
  {
    var sp := Speakers(turns);
    assert sp[1..] == Speakers(turns[1..]);
    forall x ensures Occ(r, x) == if x in roster then Occ(sp, x) else 0 {
      assert Occ(sp, x) == (if turns[0].speaker == x then 1 else 0) + Occ(Speakers(turns[1..]), x);
      if turns[0].speaker in roster {
        assert r[1..] == rest;
        assert Occ(r, x) == (if turns[0].speaker == x then 1 else 0) + Occ(rest, x);
      } else {
        assert r == rest;
      }
    }
  }

  lemma RosterOrderStep(turns: seq<Turn>, roster: set<string>, rest: seq<string>, r: seq<string>)
    requires turns != []
    requires |rest| == RosterBefore(turns[1..], roster, |turns| - 1)
    requires forall i :: 0 <= i < |turns| - 1 && turns[1..][i].speaker in roster ==>
               RosterBefore(turns[1..], roster, i) < |rest| && rest[RosterBefore(turns[1..], roster, i)] == turns[1..][i].speaker
    requires r == (if turns[0].speaker in roster then [turns[0].speaker] else []) + rest
    ensures |r| == RosterBefore(turns, roster, |turns|)
    ensures forall i :: 0 <= i < |turns| && turns[i].speaker in roster ==>
              RosterBefore(turns, roster, i) < |r| && r[RosterBefore(turns, roster, i)] == turns[i].speaker
  {
    forall i | 0 < i < |turns| && turns[i].speaker in roster
      ensures RosterBefore(turns, roster, i) < |r| && r[RosterBefore(turns, roster, i)] == turns[i].speaker
    {
      assert turns[i] == turns[1..][i - 1];
      RosterShift(turns, roster, rest, r, i);
    }
  }

  /** A kept turn after the first moves up one place when the first turn is kept. */
  lemma RosterShift(turns: seq<Turn>, roster: set<string>, rest: seq<string>, r: seq<string>, i: nat)
    requires 0 < i < |turns|
    requires RosterBefore(turns[1..], roster, i - 1) < |rest|
    requires rest[RosterBefore(turns[1..], roster, i - 1)] == turns[i].speaker
    requires r == (if turns[0].speaker in roster then [turns[0].speaker] else []) + rest
    ensures RosterBefore(turns, roster, i) < |r| && r[RosterBefore(turns, roster, i)] == turns[i].speaker
  {
    var k := RosterBefore(turns[1..], roster, i - 1);
    if turns[0].speaker in roster {
      assert RosterBefore(turns, roster, i) == k + 1;
      assert r[k + 1] == rest[k];
    } else {
      assert RosterBefore(turns, roster, i) == k;
      assert r == rest;
    }
  }

  /** `identify_rep`: the roster speaker with the most turns, first seen on ties;
      failing that, the most frequent speaker overall, but only when that speaker
      has more than 30% of the turns (`count / len(turns) > 0.3`, here `10 * count > 3 * n`);
      failing that, `None`. */
  function IdentifyRep(turns: seq<Turn>, roster: set<string>): (r: Option<string>)
    ensures RosterSpeakers(turns, roster) != [] ==>
              r.Some? && r.value in roster && IsFirstMostCommon(RosterSpeakers(turns, roster), r.value)
    ensures RosterSpeakers(turns, roster) == [] && r.Some? ==>
              IsFirstMostCommon(Speakers(turns), r.value)
              && 10 * Occ(Speakers(turns), r.value) > 3 * |turns|
    ensures RosterSpeakers(turns, roster) == [] && r.None? ==>
              forall x :: IsFirstMostCommon(Speakers(turns), x) ==> 10 * Occ(Speakers(turns), x) <= 3 * |turns|
  {
    var known := RosterSpeakers(turns, roster);
    if known != [] then Some(MostCommonFirst(known))
    else
      var all := Speakers(turns);
      if all == [] then None
      else
        var top := MostCommonFirst(all);
        if 10 * Occ(all, top) > 3 * |turns| then Some(top)
        else
          assert forall x :: IsFirstMostCommon(all, x) ==> x == top by {
            forall x | IsFirstMostCommon(all, x) ensures x == top {
              FirstMostCommonUnique(all, x, top);
            }
          }
          None
  }

  lemma {:induction false} OccOfThree(xs: seq<string>, a: string, b: string, c: string)
    requires a != b && b != c && a != c
    requires forall i :: 0 <= i < |xs| ==> xs[i] == a || xs[i] == b || xs[i] == c
    ensures |xs| == Occ(xs, a) + Occ(xs, b) + Occ(xs, c)
  {
    if xs != [] {
      OccOfThree(xs[1..], a, b, c);
    }
  }

  /** With no roster speaker and an even three-way split, each speaker holds a third
      of the turns, which is over 30%: the resolver picks the first speaker. */
  lemma EvenThreeWaySplit(turns: seq<Turn>, roster: set<string>, a: string, b: string, c: string)
    requires turns != []
    requires forall i :: 0 <= i < |turns| ==> turns[i].speaker !in roster
    requires a != b && b != c && a != c
    requires forall i :: 0 <= i < |turns| ==> turns[i].speaker in {a, b, c}
    requires Occ(Speakers(turns), a) == Occ(Speakers(turns), b) == Occ(Speakers(turns), c)
    ensures IdentifyRep(turns, roster) == Some(turns[0].speaker)
  {
    var all := Speakers(turns);
    var n := Occ(all, a);
    OccOfThree(all, a, b, c);
    assert |turns| == 3 * n;
    assert forall j :: 0 <= j < |all| ==> Occ(all, all[j]) == n;
    FirstOfEvenIsMostCommon(all, n);
    assert RosterSpeakers(turns, roster) == [];
    var r := IdentifyRep(turns, roster);
    assert r.Some?;
    FirstMostCommonUnique(all, r.value, all[0]);
  }

  /** When every element occurs equally often, the first one is the first most common. */
  lemma FirstOfEvenIsMostCommon(xs: seq<string>, n: nat)
    requires xs != []
    requires forall j :: 0 <= j < |xs| ==> Occ(xs, xs[j]) == n
    ensures IsFirstMostCommon(xs, xs[0])
  {
    var first := xs[0];
    forall j | 0 <= j < |xs| ensures Beats(xs, first, j) {
      assert xs[..j + 1][0] == first;
    }
  }
}
