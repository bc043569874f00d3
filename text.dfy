/**
 * Strings as the analysis treats them: Python's whitespace set, `str.lower()`
 * restricted to ASCII, `str.strip()`, `str.split()` with no separator and
 * `" ".join(...)`.
 */
module Text {

  /** The characters for which Python's `str.isspace()` holds; `split()`, `strip()`
      and the regular-expression class `\s` all use this set. */
  predicate IsSpace(c: char) {
    var n := c as int;
    (9 <= n <= 13) || (28 <= n <= 32) || n == 0x85 || n == 0xA0 || n == 0x1680
    || (0x2000 <= n <= 0x200A) || n == 0x2028 || n == 0x2029 || n == 0x202F
    || n == 0x205F || n == 0x3000
  }

  predicate IsUpper(c: char) { 'A' <= c <= 'Z' }

  function LowerChar(c: char): char {
    if IsUpper(c) then (c as int + 32) as char else c
  }

  /** `s.lower()` on the ASCII letters. */
  function Lower(s: string): (r: string)
    ensures |r| == |s|
    ensures NoUpper(r)
  {
    seq(|s|, i requires 0 <= i < |s| => LowerChar(s[i]))
  }

  predicate NoUpper(s: string) {
    forall i :: 0 <= i < |s| ==> !IsUpper(s[i])
  }

  /** A token of `str.split()`: non-empty and free of whitespace. */
  predicate IsWord(w: string) {
    w != [] && forall i :: 0 <= i < |w| ==> !IsSpace(w[i])
  }

  /** `s.lstrip()`: drops the leading whitespace and nothing else. */
  function StripLeft(s: string): (r: string)
    ensures |r| <= |s| && r == s[|s| - |r|..]
    ensures forall i :: 0 <= i < |s| - |r| ==> IsSpace(s[i])
    ensures r == [] || !IsSpace(r[0])
  {
    if s != [] && IsSpace(s[0]) then StripLeft(s[1..]) else s
  }

  /** `s.rstrip()`: drops the trailing whitespace and nothing else. */
  function StripRight(s: string): (r: string)
    ensures |r| <= |s| && r == s[..|r|]
    ensures forall i :: |r| <= i < |s| ==> IsSpace(s[i])
    ensures r == [] || !IsSpace(r[|r| - 1])
  {
    if s != [] && IsSpace(s[|s| - 1]) then StripRight(s[..|s| - 1]) else s
  }

  /** `s.strip()`: what is left of `s` once only whitespace has been removed
      from its two ends, so that neither end of the result is whitespace. */
  function Strip(s: string): (r: string)
    ensures exists i, j :: 0 <= i <= j <= |s| && r == s[i..j]
              && (forall k :: 0 <= k < i ==> IsSpace(s[k]))
              && (forall k :: j <= k < |s| ==> IsSpace(s[k]))
    ensures r == [] || (!IsSpace(r[0]) && !IsSpace(r[|r| - 1]))
  {
    var l := StripLeft(s);
    var r := StripRight(l);
    TrimmedSlice(s, l, r, IsSpace);
    r
  }

  /** Cutting a suffix `l` of `s` and then a prefix `r` of `l` leaves a slice of `s`
      that is followed only by characters satisfying `p` when `l` is. */
  lemma TrimmedSlice(s: string, l: string, r: string, p: char -> bool)
    requires |l| <= |s| && l == s[|s| - |l|..] && |r| <= |l| && r == l[..|r|]
    requires forall k :: |r| <= k < |l| ==> p(l[k])
    ensures r == s[|s| - |l|..|s| - |l| + |r|]
    ensures forall k :: |s| - |l| + |r| <= k < |s| ==> p(s[k])
  {
    var i := |s| - |l|;
    forall k | i + |r| <= k < |s| ensures p(s[k]) {
      assert s[k] == l[k - i];
    }
  }

  /** Length of the run of non-whitespace characters that starts `s`. */
  function TokenLength(s: string): (k: nat)
    ensures k <= |s|
    ensures forall i :: 0 <= i < k ==> !IsSpace(s[i])
    ensures k < |s| ==> IsSpace(s[k])
  {
    if s == [] || IsSpace(s[0]) then 0 else 1 + TokenLength(s[1..])
  }

  /** `s.split()`: the maximal runs of non-whitespace characters, in order. */
  function Words(s: string): (ws: seq<string>)
    ensures forall w <- ws :: IsWord(w)
    ensures NoUpper(s) ==> forall w <- ws :: NoUpper(w)
    decreases |s|
  {
    if s == [] then []
    else if IsSpace(s[0]) then Words(s[1..])
    else
      var k := TokenLength(s);
      [s[..k]] + Words(s[k..])
  }

  /** Position `i` of `s` ends a run of non-whitespace characters. */
  predicate IsRunEnd(s: string, i: nat)
    requires i < |s|
  {
    !IsSpace(s[i]) && (i + 1 == |s| || IsSpace(s[i + 1]))
  }

  /** The number of positions from `i` on that end a run of non-whitespace. */
  function RunEndsFrom(s: string, i: nat): nat
    requires i <= |s|
    decreases |s| - i
  {
    if i == |s| then 0 else (if IsRunEnd(s, i) then 1 else 0) + RunEndsFrom(s, i + 1)
  }

  /** `split()` yields one word per maximal run of non-whitespace characters. */
  lemma WordsCount(s: string)
    ensures |Words(s)| == RunEndsFrom(s, 0)
  {
    WordsCountFrom(s, 0);
    assert s[0..] == s;
  }

  /** The words of a suffix are the runs that end in it. */
  lemma {:induction false} WordsCountFrom(s: string, i: nat)
    requires i <= |s|
    ensures |Words(s[i..])| == RunEndsFrom(s, i)
    decreases |s| - i
  {
    if i == |s| {
      assert s[i..] == [];
    } else if IsSpace(s[i]) {
      SpaceStep(s, i);
      WordsCountFrom(s, i + 1);
    } else {
      var j := RunStep(s, i);
      WordsCountFrom(s, j);
    }
  }

  /** A whitespace character adds no word and ends no run. */
  lemma SpaceStep(s: string, i: nat)
    requires i < |s| && IsSpace(s[i])
    ensures |Words(s[i..])| == |Words(s[i + 1..])|
    ensures RunEndsFrom(s, i) == RunEndsFrom(s, i + 1)
  {
    assert s[i..][1..] == s[i + 1..];
  }

  /** The run that starts `s[i..]` ends before `j`, at whitespace or at the end
      of `s`, and counts as one word and one run end. */
  lemma RunStep(s: string, i: nat) returns (j: nat)
    requires i < |s| && !IsSpace(s[i])
    ensures i < j <= |s|
    ensures |Words(s[i..])| == 1 + |Words(s[j..])|
    ensures RunEndsFrom(s, i) == 1 + RunEndsFrom(s, j)
  {
    j := i + TokenLength(s[i..]);
    WordsOfRun(s, i);
    RunEndsOfRun(s, i);
  }

  /** Splitting at the start of a run yields the run's word, then the words after it. */
  lemma WordsOfRun(s: string, i: nat)
    requires i < |s| && !IsSpace(s[i])
    ensures i + TokenLength(s[i..]) <= |s|
    ensures |Words(s[i..])| == 1 + |Words(s[i + TokenLength(s[i..])..])|
  {
    var t := s[i..];
    var k := TokenLength(t);
    assert Words(t) == [t[..k]] + Words(t[k..]);
    assert t[k..] == s[i + k..];
  }

  /** The run starting at `i` contributes one run end. */
  lemma RunEndsOfRun(s: string, i: nat)
    requires i < |s| && !IsSpace(s[i])
    ensures 0 < TokenLength(s[i..]) && i + TokenLength(s[i..]) <= |s|
    ensures RunEndsFrom(s, i) == 1 + RunEndsFrom(s, i + TokenLength(s[i..]))
  {
    var k := TokenLength(s[i..]);
    ShiftedRun(s, i, k, IsSpace);
    InsideRun(s, i, i + k);
  }

  /** A run of `s[i..]` that starts at 0 and stops at `k` is a run of `s` from `i` to `i + k`. */
  lemma ShiftedRun(s: string, i: nat, k: nat, p: char -> bool)
    requires i + k <= |s|
    requires forall c :: 0 <= c < k ==> !p(s[i..][c])
    requires k < |s| - i ==> p(s[i..][k])
    ensures forall c :: i <= c < i + k ==> !p(s[c])
    ensures i + k < |s| ==> p(s[i + k])
  {
    forall c | i <= c < i + k ensures !p(s[c]) {
      assert s[i..][c - i] == s[c];
    }
  }

  /** Inside a run only its last position ends it. */
  lemma {:induction false} InsideRun(s: string, i: nat, j: nat)
    requires i < j <= |s|
    requires forall c :: i <= c < j ==> !IsSpace(s[c])
    requires j < |s| ==> IsSpace(s[j])
    ensures RunEndsFrom(s, i) == 1 + RunEndsFrom(s, j)
    decreases j - i
  {
    if i + 1 < j {
      InsideRun(s, i + 1, j);
    }
  }

  /** `" ".join(ws)`. */
  function JoinSpace(ws: seq<string>): string {
    if |ws| == 0 then ""
    else if |ws| == 1 then ws[0]
    else ws[0] + " " + JoinSpace(ws[1..])
  }

  /** The leading run ends exactly at the first whitespace character. */
  lemma {:induction false} TokenLengthAt(s: string, j: nat)
    requires j <= |s|
    requires forall i :: 0 <= i < j ==> !IsSpace(s[i])
    requires j < |s| ==> IsSpace(s[j])
    ensures TokenLength(s) == j
  {
    if j > 0 {
      TokenLengthAt(s[1..], j - 1);
    }
  }

  lemma WordsOfWord(w: string)
    requires IsWord(w)
    ensures Words(w) == [w]
  {
    TokenLengthAt(w, |w|);
    assert !IsSpace(w[0]);
    assert w[..|w|] == w && w[|w|..] == [];
    assert Words(w) == [w[..|w|]] + Words(w[|w|..]);
  }

  /** Splitting a space-joined list of words gives the words back. */
  lemma {:induction false} WordsOfJoin(ws: seq<string>)
    requires forall w <- ws :: IsWord(w)
    ensures Words(JoinSpace(ws)) == ws
  {
    if |ws| == 0 {
    } else if |ws| == 1 {
      WordsOfWord(ws[0]);
    } else {
      var w, rest := ws[0], JoinSpace(ws[1..]);
      var s := w + " " + rest;
      assert JoinSpace(ws) == s;
      assert s[|w|] == ' ';
      TokenLengthAt(s, |w|);
      var k := TokenLength(s);
      assert s[..k] == w;
      assert s[k..] == [' '] + rest;
      assert ([' '] + rest)[1..] == rest;
      WordsOfJoin(ws[1..]);
      assert Words(s) == [w] + Words(s[k..]);
    }
  }

  /** Joining lower-case words with spaces gives a lower-case string. */
  lemma {:induction false} JoinSpaceNoUpper(ws: seq<string>)
    requires forall w <- ws :: NoUpper(w)
    ensures NoUpper(JoinSpace(ws))
  {
    if |ws| > 1 {
      JoinSpaceNoUpper(ws[1..]);
      var s := ws[0] + " " + JoinSpace(ws[1..]);
      assert JoinSpace(ws) == s;
      forall i | 0 <= i < |s| ensures !IsUpper(s[i]) {
        if i < |ws[0]| {
          assert ws[0] in ws;
          assert s[i] == ws[0][i];
        } else if i == |ws[0]| {
        } else {
          assert s[i] == JoinSpace(ws[1..])[i - |ws[0]| - 1];
        }
      }
    }
  }

  /** `" ".join` distributes over concatenation with one space between the parts. */
  lemma {:induction false} JoinSpaceAppend(xs: seq<string>, ys: seq<string>)
    requires xs != [] && ys != []
    ensures JoinSpace(xs + ys) == JoinSpace(xs) + " " + JoinSpace(ys)
  {
    if |xs| == 1 {
      assert (xs + ys)[1..] == ys;
    } else {
      assert (xs + ys)[1..] == xs[1..] + ys;
      JoinSpaceAppend(xs[1..], ys);
    }
  }

  /** Lower-casing distributes over concatenation. */
  lemma LowerAppend(a: string, b: string)
    ensures Lower(a + b) == Lower(a) + Lower(b)
  {
  }

  /** Splitting two texts joined by a space gives the words of the first followed
      by the words of the second. */
  lemma {:induction false} WordsAppend(a: string, b: string)
    ensures Words(a + " " + b) == Words(a) + Words(b)
    decreases |a|
  {
    var s := a + " " + b;
    if a == [] {
      assert s == [' '] + b && s[1..] == b;
    } else if IsSpace(a[0]) {
      assert s[1..] == a[1..] + " " + b;
      WordsAppend(a[1..], b);
    } else {
      var k := TokenLength(a);
      FirstTokenOfAppend(a, b);
      WordsAppend(a[k..], b);
      assert Words(s) == [a[..k]] + Words(a[k..] + " " + b);
    }
  }

  /** Appending a space and more text leaves the first word of `a` as it is. */
  lemma FirstTokenOfAppend(a: string, b: string)
    requires a != [] && !IsSpace(a[0])
    ensures TokenLength(a + " " + b) == TokenLength(a)
    ensures (a + " " + b)[..TokenLength(a)] == a[..TokenLength(a)]
    ensures (a + " " + b)[TokenLength(a)..] == a[TokenLength(a)..] + " " + b
  {
    var s, k := a + " " + b, TokenLength(a);
    assert forall i :: 0 <= i < k ==> s[i] == a[i];
    assert k == |a| ==> s[k] == ' ';
    assert k < |a| ==> s[k] == a[k];
    TokenLengthAt(s, k);
    assert s[..k] == a[..k];
    assert s[k..] == a[k..] + " " + b;
  }
}
