/**
 * Opening selection and normalisation: which rep turn counts as the opening
 * line, and the form it is reduced to before it is classified.
 */
module Openers {
  import opened Options
  import opened Seqs
  import opened Text
  import opened Transcript

  /** A rep turn of more than ten words. */
  predicate Substantive(t: Turn, rep: string) {
    t.speaker == rep && t.WordCount() > 10
  }

  /** The first index at or after `i` whose turn satisfies `p`. */
  function FindFrom(turns: seq<Turn>, p: Turn -> bool, i: nat): (r: Option<nat>)
    requires i <= |turns|
    ensures r.Some? ==> i <= r.value < |turns| && p(turns[r.value])
    ensures r.Some? ==> forall j :: i <= j < r.value ==> !p(turns[j])
    ensures r.None? ==> forall j :: i <= j < |turns| ==> !p(turns[j])
    decreases |turns| - i
  {
    if i == |turns| then None
    else if p(turns[i]) then Some(i)
    else FindFrom(turns, p, i + 1)
  }

  /** `get_first_rep_turn`, as the index of the turn it returns: the rep's first
      turn of more than ten words, else the rep's first turn, else `None`. */
  function FirstRepTurn(turns: seq<Turn>, rep: string): (r: Option<nat>)
    ensures r.None? <==> forall i :: 0 <= i < |turns| ==> turns[i].speaker != rep
    ensures r.Some? ==> r.value < |turns| && turns[r.value].speaker == rep
    ensures (exists i :: 0 <= i < |turns| && Substantive(turns[i], rep)) ==>
              r.Some? && Substantive(turns[r.value], rep)
              && forall i :: 0 <= i < r.value ==> !Substantive(turns[i], rep)
    ensures (forall i :: 0 <= i < |turns| ==> !Substantive(turns[i], rep)) && r.Some? ==>
              forall i :: 0 <= i < r.value ==> turns[i].speaker != rep
  {
    match FindFrom(turns, (t: Turn) => Substantive(t, rep), 0)
    case Some(i) => Some(i)
    case None => FindFrom(turns, (t: Turn) => t.speaker == rep, 0)
  }

  /** `get_first_rep_turn`, with its two scans. */
  method GetFirstRepTurn(turns: seq<Turn>, rep: string) returns (r: Option<nat>)
    ensures r == FirstRepTurn(turns, rep)
  {
    for i := 0 to |turns|
      invariant forall j :: 0 <= j < i ==> !Substantive(turns[j], rep)
    {
      if turns[i].speaker == rep && turns[i].WordCount() > 10 {
        FirstSubstantiveTurn(turns, rep, i);
        return Some(i);
      }
    }
    for i := 0 to |turns|
      invariant forall j :: 0 <= j < i ==> turns[j].speaker != rep
    {
      if turns[i].speaker == rep {
        FirstPlainTurn(turns, rep, i);
        return Some(i);
      }
    }
    return None;
  }

  /** The first scan's answer: the first substantive rep turn. */
  lemma FirstSubstantiveTurn(turns: seq<Turn>, rep: string, i: nat)
    requires i < |turns| && Substantive(turns[i], rep)
    requires forall j :: 0 <= j < i ==> !Substantive(turns[j], rep)
    ensures FirstRepTurn(turns, rep) == Some(i)
  {
    var r := FirstRepTurn(turns, rep);
    assert r.Some? && Substantive(turns[r.value], rep);
    assert !(r.value < i) && !(i < r.value);
  }

  /** The second scan's answer: with no substantive rep turn, the rep's first turn. */
  lemma FirstPlainTurn(turns: seq<Turn>, rep: string, i: nat)
    requires i < |turns| && turns[i].speaker == rep
    requires forall j :: 0 <= j < |turns| ==> !Substantive(turns[j], rep)
    requires forall j :: 0 <= j < i ==> turns[j].speaker != rep
    ensures FirstRepTurn(turns, rep) == Some(i)
  {
    var r := FirstRepTurn(turns, rep);
    assert r.Some? && turns[r.value].speaker == rep;
    assert !(r.value < i) && !(i < r.value);
  }

  /** The leading words stripped from an opening line, in the order the
      alternation of the filler pattern tries them. */
  const Fillers: seq<string> := [
    "hey", "hi", "hello", "yeah", "oh", "okay", "um", "uh", "so", "well", "yes", "no",
    "mhmm", "right", "alright", "sure", "great", "good", "perfect", "awesome",
    "absolutely", "definitely", "of course", "sounds good"]

  /** The separator class `[,!.\s]` that must follow a filler word. */
  predicate IsFillerSep(c: char) {
    c == ',' || c == '!' || c == '.' || IsSpace(c)
  }

  /** `t` starts with the word `w` followed by at least one separator. */
  predicate StartsWithFiller(t: string, w: string) {
    |w| < |t| && t[..|w|] == w && IsFillerSep(t[|w|])
  }

  function FillerFrom(t: string, i: nat): (r: Option<nat>)
    requires i <= |Fillers|
    ensures r.Some? ==> i <= r.value < |Fillers| && StartsWithFiller(t, Fillers[r.value])
    ensures r.Some? ==> forall j :: i <= j < r.value ==> !StartsWithFiller(t, Fillers[j])
    ensures r.None? ==> forall j :: i <= j < |Fillers| ==> !StartsWithFiller(t, Fillers[j])
    decreases |Fillers| - i
  {
    if i == |Fillers| then None
    else if StartsWithFiller(t, Fillers[i]) then Some(i)
    else FillerFrom(t, i + 1)
  }

  /** The alternative of `^(hey|hi|...)[,!.\s]+` that matches at the start of `t`:
      the first filler, in list order, that `t` starts with followed by a separator. */
  function LeadingFiller(t: string): (r: Option<nat>)
    ensures r.Some? ==> r.value < |Fillers| && StartsWithFiller(t, Fillers[r.value])
    ensures r.Some? ==> forall j :: 0 <= j < r.value ==> !StartsWithFiller(t, Fillers[j])
    ensures r.None? <==> forall j :: 0 <= j < |Fillers| ==> !StartsWithFiller(t, Fillers[j])
  {
    FillerFrom(t, 0)
  }

  /** An alternative that is a prefix but has no separator after it is passed
      over: "so" starts "sounds good, hi", yet the regex backtracks past it to
      a later alternative ("sounds good"). */
  lemma LeadingFillerBacktracks()
    ensures Fillers[8] == "so" && "sounds good, hi"[..2] == "so"
    ensures LeadingFiller("sounds good, hi").Some? && LeadingFiller("sounds good, hi") != Some(8)
  {
    var t := "sounds good, hi";
    assert t[2] == 'u' && !IsFillerSep(t[2]);
    assert !StartsWithFiller(t, Fillers[8]);
    assert t[..11] == Fillers[23] && t[11] == ',';
    assert StartsWithFiller(t, Fillers[23]);
  }

  /** Length of the run of separators that starts `s` (the greedy `[,!.\s]+`). */
  function SepRun(s: string): (k: nat)
    ensures k <= |s|
    ensures forall i :: 0 <= i < k ==> IsFillerSep(s[i])
    ensures k < |s| ==> !IsFillerSep(s[k])
  {
    if s == [] || !IsFillerSep(s[0]) then 0 else 1 + SepRun(s[1..])
  }

  /** Where the match of a filler word `w` and its separator run ends. */
  function FillerEnd(t: string, w: string): (k: nat)
    requires StartsWithFiller(t, w)
    ensures |w| < k <= |t|
    ensures forall i :: |w| <= i < k ==> IsFillerSep(t[i])
    ensures k < |t| ==> !IsFillerSep(t[k])
  {
    var run := SepRun(t[|w|..]);
    assert t[|w|..][0] == t[|w|];
    assert forall i :: |w| <= i < |w| + run ==> t[i] == t[|w|..][i - |w|];
    |w| + run
  }

  /** One pass of `re.sub(filler, "", text).strip()`: when `t` opens with a filler
      word, that word and every separator after it are removed; then surrounding
      whitespace is stripped. */
  function StripFillerOnce(t: string): (r: string)
    ensures LeadingFiller(t).None? ==> r == Strip(t)
    ensures LeadingFiller(t).Some? ==>
              var w := Fillers[LeadingFiller(t).value];
              exists k :: |w| < k <= |t|
                && (forall i :: |w| <= i < k ==> IsFillerSep(t[i]))
                && (k < |t| ==> !IsFillerSep(t[k]))
                && r == Strip(t[k..])
  {
    match LeadingFiller(t)
    case None => Strip(t)
    case Some(j) => Strip(t[FillerEnd(t, Fillers[j])..])
  }

  /** `n` passes of the filler removal. */
  function StripFillers(t: string, n: nat): (r: string)
    ensures NoUpper(t) ==> NoUpper(r)
  {
    if n == 0 then t
    else
      var u := StripFillers(t, n - 1);
      if NoUpper(u) then StripFillerOnceNoUpper(u); StripFillerOnce(u)
      else StripFillerOnce(u)
  }

  /** The normalised opening: lower-cased and stripped, six filler passes, then at
      most the first thirty words joined by single spaces. */
  function NormalizedOpening(text: string): string {
    JoinSpace(Take(Words(StripFillers(Strip(Lower(text)), 6)), 30))
  }

  lemma SliceNoUpper(s: string, i: nat, j: nat)
    requires NoUpper(s) && i <= j <= |s|
    ensures NoUpper(s[i..j])
  {
    assert forall k :: 0 <= k < j - i ==> s[i..j][k] == s[i + k];
  }

  lemma StripNoUpper(s: string)
    requires NoUpper(s)
    ensures NoUpper(Strip(s))
  {
    var i, j :| 0 <= i <= j <= |s| && Strip(s) == s[i..j];
    SliceNoUpper(s, i, j);
  }

  lemma StripFillerOnceNoUpper(u: string)
    requires NoUpper(u)
    ensures NoUpper(StripFillerOnce(u))
  {
    match LeadingFiller(u)
    case None => StripNoUpper(u);
    case Some(j) =>
      var k := FillerEnd(u, Fillers[j]);
      SliceNoUpper(u, k, |u|);
      assert u[k..] == u[k..|u|];
      StripNoUpper(u[k..]);
  }

  /** The normalised opening is lower-case, and its words are the first (at most
      thirty) words left after filler removal. */
  lemma NormalizedOpeningShape(text: string)
    ensures Words(NormalizedOpening(text)) == Take(Words(StripFillers(Strip(Lower(text)), 6)), 30)
    ensures |Words(NormalizedOpening(text))| <= 30
    ensures NoUpper(NormalizedOpening(text))
  {
    var t := StripFillers(Strip(Lower(text)), 6);
    StripNoUpper(Lower(text));
    var ws := Take(Words(t), 30);
    assert forall w <- ws :: w in Words(t);
    WordsOfJoin(ws);
    JoinSpaceNoUpper(ws);
  }

  /** `normalize_opening`, with its six-pass loop. */
  method NormalizeOpening(text: string) returns (r: string)
    ensures r == NormalizedOpening(text)
    ensures |Words(r)| <= 30 && NoUpper(r)
  {
    var t := Strip(Lower(text));
    for pass := 0 to 6
      invariant t == StripFillers(Strip(Lower(text)), pass)
    {
      t := StripFillerOnce(t);
    }
    var words := Take(Words(t), 30);
    r := JoinSpace(words);
    NormalizedOpeningShape(text);
  }
}
