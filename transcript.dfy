/**
 * The turn and call records built once per transcript and read by every
 * aggregation, with the word split between the rep and everyone else.
 */
module Transcript {
  import opened Options
  import opened Text
  import opened Numeric

  /** One utterance. Its word count is derived from its text alone. */
  datatype Turn = Turn(speaker: string, timestamp: string, text: string) {
    /** `len(text.split())`. */
    function WordCount(): nat { |Words(text)| }
  }

  /** One detected objection: the category, where it was raised, and the first
      200 characters of what was said. */
  datatype ObjectionRecord = ObjectionRecord(category: string, turnIndex: nat, positionPct: real, text: string)

  datatype Call = Call(
    id: string,
    index: int,
    rep: Option<string>,
    turns: seq<Turn>,
    converted: bool,
    objectionsFound: seq<ObjectionRecord>,
    repWordCount: nat,
    prospectWordCount: nat)
  {
    function TotalTurns(): nat { |turns| }

    /** The rep's share of the words, 0 when nobody's words were counted. */
    function RepTalkRatio(): (r: real)
      ensures 0.0 <= r <= 1.0
    {
      var total := repWordCount + prospectWordCount;
      if total > 0 then
        FractionBounds(repWordCount as real, total as real);
        repWordCount as real / total as real
      else 0.0
    }

    /** Everyone else's share of the words, 0 when nobody's words were counted. */
    function ProspectTalkRatio(): (r: real)
      ensures 0.0 <= r <= 1.0
    {
      var total := repWordCount + prospectWordCount;
      if total > 0 then
        FractionBounds(prospectWordCount as real, total as real);
        prospectWordCount as real / total as real
      else 0.0
    }
  }

  /** The two talk ratios are complementary, or both 0 when no words were counted. */
  lemma RatiosComplement(c: Call)
    ensures c.repWordCount + c.prospectWordCount > 0 ==> c.RepTalkRatio() + c.ProspectTalkRatio() == 1.0
    ensures c.repWordCount + c.prospectWordCount == 0 ==> c.RepTalkRatio() == 0.0 && c.ProspectTalkRatio() == 0.0
  {
    var a, b := c.repWordCount as real, c.prospectWordCount as real;
    var total := (c.repWordCount + c.prospectWordCount) as real;
    if total > 0.0 {
      assert total == a + b;
      assert c.RepTalkRatio() == a / total;
      assert c.ProspectTalkRatio() == b / total;
      SharesAddUp(a, b, total);
    }
  }

  /** Two shares of a positive total that add up to it add up to one. */
  lemma SharesAddUp(a: real, b: real, total: real)
    requires total > 0.0 && a + b == total
    ensures a / total + b / total == 1.0
  {
    assert a / total + b / total == (a + b) / total;
  }

  /** Python truthiness of the rep: `None` and the empty name both count as no rep. */
  predicate Truthy(rep: Option<string>) {
    rep.Some? && rep.value != ""
  }

  /** The calls whose outcome is `outcome`, in order. */
  function WithOutcome(calls: seq<Call>, outcome: bool): (r: seq<Call>)
    ensures |r| <= |calls|
    ensures forall c <- r :: c.converted == outcome && c in calls
    ensures forall c <- calls :: c.converted == outcome ==> c in r
  {
    if calls == [] then []
    else
      var last := calls[|calls| - 1];
      WithOutcome(calls[..|calls| - 1], outcome) + if last.converted == outcome then [last] else []
  }

  /** The two groups split the calls. */
  lemma {:induction false} OutcomePartition(calls: seq<Call>)
    ensures |WithOutcome(calls, true)| + |WithOutcome(calls, false)| == |calls|
    ensures multiset(WithOutcome(calls, true)) + multiset(WithOutcome(calls, false)) == multiset(calls)
  {
    OutcomeMultiset(calls);
    assert |multiset(calls)| == |calls|;
  }

  lemma {:induction false} OutcomeMultiset(calls: seq<Call>)
    ensures multiset(WithOutcome(calls, true)) + multiset(WithOutcome(calls, false)) == multiset(calls)
  {
    if calls != [] {
      var init, c := calls[..|calls| - 1], calls[|calls| - 1];
      assert calls == init + [c];
      OutcomeMultiset(init);
      WithOutcomeSnoc(init, c, true);
      WithOutcomeSnoc(init, c, false);
      SplitSnoc(WithOutcome(init, true), WithOutcome(init, false), init, c,
                WithOutcome(calls, true), WithOutcome(calls, false));
    }
  }

  /** Adding one element to one of two groups that split `xs` splits `xs + [c]`. */
  lemma SplitSnoc<T>(t: seq<T>, f: seq<T>, xs: seq<T>, c: T, t': seq<T>, f': seq<T>)
    requires multiset(t) + multiset(f) == multiset(xs)
    requires (t' == t + [c] && f' == f) || (t' == t && f' == f + [c])
    ensures multiset(t') + multiset(f') == multiset(xs + [c])
  {
  }

  /** Filtering one more call keeps it exactly when its outcome matches. */
  lemma WithOutcomeSnoc(calls: seq<Call>, c: Call, outcome: bool)
    ensures WithOutcome(calls + [c], outcome)
         == WithOutcome(calls, outcome) + if c.converted == outcome then [c] else []
  {
    assert (calls + [c])[..|calls|] == calls;
  }

  function TotalWords(turns: seq<Turn>): nat {
    if turns == [] then 0 else turns[0].WordCount() + TotalWords(turns[1..])
  }

  /** `sum(t.word_count for t in turns if t.speaker == rep)`. */
  function RepWords(turns: seq<Turn>, rep: string): nat {
    if turns == [] then 0
    else (if turns[0].speaker == rep then turns[0].WordCount() else 0) + RepWords(turns[1..], rep)
  }

  /** `sum(t.word_count for t in turns if t.speaker != rep)`. */
  function ProspectWords(turns: seq<Turn>, rep: string): nat {
    if turns == [] then 0
    else (if turns[0].speaker != rep then turns[0].WordCount() else 0) + ProspectWords(turns[1..], rep)
  }

  /** Every turn's words go to exactly one side. */
  lemma {:induction false} WordsSplit(turns: seq<Turn>, rep: string)
    ensures RepWords(turns, rep) + ProspectWords(turns, rep) == TotalWords(turns)
  {
    if turns != [] {
      WordsSplit(turns[1..], rep);
    }
  }

  /** `talk_time`: (rep words, everyone else's words). */
  function TalkTime(turns: seq<Turn>, rep: string): (r: (nat, nat))
    ensures r.0 + r.1 == TotalWords(turns)
  {
    WordsSplit(turns, rep);
    (RepWords(turns, rep), ProspectWords(turns, rep))
  }

  function Texts(turns: seq<Turn>): seq<string> {
    seq(|turns|, i requires 0 <= i < |turns| => turns[i].text)
  }

  /** `" ".join(t.text for t in turns)`. */
  function JoinedText(turns: seq<Turn>): string {
    JoinSpace(Texts(turns))
  }

  /** The words of the whole call are the words of its turns, in order; so the
      counts split by `TalkTime` are the word count of the joined call text. */
  lemma {:induction false} TotalWordsOfJoinedText(turns: seq<Turn>)
    ensures TotalWords(turns) == |Words(JoinedText(turns))|
  {
    if |turns| == 1 {
      assert Texts(turns) == [turns[0].text];
    } else if |turns| > 1 {
      TotalWordsOfJoinedText(turns[1..]);
      assert Texts(turns)[1..] == Texts(turns[1..]);
      assert JoinedText(turns) == turns[0].text + " " + JoinedText(turns[1..]);
      WordsAppend(turns[0].text, JoinedText(turns[1..]));
    }
  }
}
