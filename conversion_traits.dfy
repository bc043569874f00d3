/**
 * Section 4 of the report: how converted and not-converted calls differ, which
 * keywords they mention, and each rep's conversion rate.
 */
module ConversionTraits {
  import opened Options
  import opened Text
  import opened Numeric
  import opened Matching
  import opened Transcript
  import opened Ranking
  import opened Dicts
  import opened TalkTimeAnalysis

  /** A statistic for the converted and for the not-converted calls. */
  datatype Split = Split(converted: real, notConverted: real)

  datatype ObjectionHandling = ObjectionHandling(
    convertedCallsWithObjections: nat,
    notConvertedCallsWithObjections: nat,
    convertedObjectionRatePct: real,
    notConvertedObjectionRatePct: real)

  /** How often a keyword category occurs in each group, in percent. */
  datatype KeywordRow = KeywordRow(convertedPct: real, notConvertedPct: real)

  /** The accumulator `rep_conversion[rep]`. */
  datatype Tally = Tally(converted: nat, total: nat)

  datatype RepRate = RepRate(calls: nat, converted: nat, conversionRatePct: real)

  datatype TraitsReport = TraitsReport(
    totalCalls: nat,
    converted: nat,
    notConverted: nat,
    conversionRatePct: real,
    avgCallLengthTurns: Split,
    avgRepTalkPct: Split,
    avgProspectTurnPct: Split,
    objectionHandling: ObjectionHandling,
    keywordPresence: seq<(string, KeywordRow)>,
    byRep: seq<(string, RepRate)>)

  /** `[c.total_turns for c in cs]`. */
  function Lengths(cs: seq<Call>): (r: seq<real>)
    ensures |r| == |cs| && forall i :: 0 <= i < |cs| ==> r[i] == |cs[i].turns| as real
  {
    seq(|cs|, i requires 0 <= i < |cs| => |cs[i].turns| as real)
  }

  /** `sum(1 for t in turns if t.speaker != rep)`. */
  function ProspectTurns(turns: seq<Turn>, rep: Option<string>): (r: nat)
    ensures r <= |turns|
  {
    if turns == [] then 0
    else (if Some(turns[0].speaker) != rep then 1 else 0) + ProspectTurns(turns[1..], rep)
  }

  /** The prospect's share of the turns of every call with a rep and at least
      one turn, and of no other call. */
  function ProspectTurnPcts(cs: seq<Call>): (r: seq<real>)
    ensures |r| <= |cs| && Within(r, 0.0, 100.0)
    ensures forall x <- r :: exists c <- cs ::
              Truthy(c.rep) && |c.turns| > 0 && x == Percent(ProspectTurns(c.turns, c.rep), |c.turns|)
    ensures forall c <- cs ::
              Truthy(c.rep) && |c.turns| > 0 ==> Percent(ProspectTurns(c.turns, c.rep), |c.turns|) in r
  {
    if cs == [] then []
    else
      var rest := ProspectTurnPcts(cs[1..]);
      var c := cs[0];
      if Truthy(c.rep) && |c.turns| > 0 then
        PercentBounds(ProspectTurns(c.turns, c.rep), |c.turns|);
        [Percent(ProspectTurns(c.turns, c.rep), |c.turns|)] + rest
      else rest
  }

  /** `len([c for c in cs if c.objections_found])`. */
  function WithObjections(cs: seq<Call>): (r: nat)
    ensures r <= |cs|
  {
    if cs == [] then 0 else (if cs[0].objectionsFound != [] then 1 else 0) + WithObjections(cs[1..])
  }

  /** `round(k / n * 100, 1) if n else 0`. */
  function RateOf(k: nat, n: nat): (r: real)
    requires k <= n
    ensures 0.0 <= r <= 100.0
  {
    if n == 0 then 0.0 else PercentBounds(k, n); Percent(k, n)
  }

  /** Does any keyword pattern occur in the lower-cased text of the whole call? */
  predicate Mentions(m: Matcher, c: Call, pats: seq<Regex>) {
    AnyMatch(m, pats, Lower(JoinedText(c.turns)))
  }

  /** The number of calls among `cs` that mention a keyword pattern. */
  function Hits(m: Matcher, cs: seq<Call>, pats: seq<Regex>): (r: nat)
    ensures r <= |cs|
  {
    if cs == [] then 0 else Hits(m, cs[..|cs| - 1], pats) + if Mentions(m, cs[|cs| - 1], pats) then 1 else 0
  }

  /** `kw_rate`, with its counting loop. */
  method KeywordRate(m: Matcher, cs: seq<Call>, pats: seq<Regex>) returns (r: real)
    ensures r == RateOf(Hits(m, cs, pats), |cs|)
  {
    var hits := 0;
    for i := 0 to |cs|
      invariant hits == Hits(m, cs[..i], pats)
    {
      assert cs[..i + 1][..i] == cs[..i];
      var text := Lower(JoinedText(cs[i].turns));
      if AnyMatch(m, pats, text) {
        hits := hits + 1;
      }
    }
    assert cs[..|cs|] == cs;
    r := if |cs| > 0 then Percent(hits, |cs|) else 0.0;
  }

  /** A keyword category is counted in a group exactly when one of the group's
      calls mentions it. */
  lemma {:induction false} HitsSpec(m: Matcher, cs: seq<Call>, pats: seq<Regex>)
    ensures Hits(m, cs, pats) == 0 <==> forall c <- cs :: !Mentions(m, c, pats)
    ensures Hits(m, cs, pats) == |cs| <==> forall c <- cs :: Mentions(m, c, pats)
    decreases |cs|
  {
    if cs != [] {
      var init, last := cs[..|cs| - 1], cs[|cs| - 1];
      HitsSpec(m, init, pats);
      assert Hits(m, cs, pats) == Hits(m, init, pats) + if Mentions(m, last, pats) then 1 else 0;
      assert cs == init + [last];
      assert forall c <- cs :: c in init || c == last;
      assert forall c <- init :: c in cs;
    }
  }

  /** `kw_comparison`, in the order of the keyword table. */
  function KeywordRows(m: Matcher, table: seq<Category>, calls: seq<Call>): (r: seq<(string, KeywordRow)>)
    ensures |r| == |table|
    ensures forall i :: 0 <= i < |r| ==>
              (r[i].0 == table[i].name
               && 0.0 <= r[i].1.convertedPct <= 100.0 && 0.0 <= r[i].1.notConvertedPct <= 100.0)
  {
    var conv, notConv := WithOutcome(calls, true), WithOutcome(calls, false);
    seq(|table|, i requires 0 <= i < |table| =>
      (table[i].name, KeywordRow(RateOf(Hits(m, conv, table[i].patterns), |conv|),
                                 RateOf(Hits(m, notConv, table[i].patterns), |notConv|))))
  }

  /** One iteration of the `rep_conversion` loop. */
  function TallyStep(t: Tally, c: Call): Tally {
    Tally(if c.converted then t.converted + 1 else t.converted, t.total + 1)
  }

  function TallyTotal(p: (string, Tally)): int { p.1.total }

  /** `rep_conversion` after its loop. */
  function RepConversion(calls: seq<Call>): (d: Dict<Tally>)
    ensures forall k <- d.keys :: k in d.at
  {
    CollectSpec(calls, RepEntry, Tally(0, 0), TallyStep);
    Collect(calls, RepEntry, Tally(0, 0), TallyStep)
  }

  function RepRow(p: (string, Tally)): (string, RepRate) {
    (p.0, RepRate(p.1.total, p.1.converted,
                  if p.1.total > 0 then Percent(p.1.converted, p.1.total) else 0.0))
  }

  /** `sorted(rep_conversion.items(), key=lambda x: -x[1]["total"])`. */
  function RankedReps(calls: seq<Call>): seq<(string, Tally)> {
    SortDesc(Items(RepConversion(calls)), TallyTotal)
  }

  /** `by_rep`: reps by descending number of calls, ties in first-seen order. */
  function ByRep(calls: seq<Call>): (r: seq<(string, RepRate)>)
    ensures |r| == |RankedReps(calls)|
    ensures forall i :: 0 <= i < |r| ==> r[i] == RepRow(RankedReps(calls)[i])
  {
    var ranked := RankedReps(calls);
    seq(|ranked|, i requires 0 <= i < |ranked| => RepRow(ranked[i]))
  }

  /** The result of `analyze_conversion_traits`; the source divides by the number
      of calls unguarded, so there must be at least one. */
  function TraitsOf(m: Matcher, keywords: seq<Category>, calls: seq<Call>): TraitsReport
    requires |calls| > 0
  {
    var conv, notConv := WithOutcome(calls, true), WithOutcome(calls, false);
    OutcomePartition(calls);
    var convObj, notConvObj := WithObjections(conv), WithObjections(notConv);
    TraitsReport(
      |calls|, |conv|, |notConv|,
      RateOf(|conv|, |calls|),
      Split(Avg(Lengths(conv)), Avg(Lengths(notConv))),
      Split(Avg(TalkPcts(conv)), Avg(TalkPcts(notConv))),
      Split(Avg(ProspectTurnPcts(conv)), Avg(ProspectTurnPcts(notConv))),
      ObjectionHandling(convObj, notConvObj, RateOf(convObj, |conv|), RateOf(notConvObj, |notConv|)),
      KeywordRows(m, keywords, calls),
      ByRep(calls))
  }

  /** The groups partition the calls, and every rate is a percentage. */
  lemma TraitsTotals(m: Matcher, keywords: seq<Category>, calls: seq<Call>)
    requires |calls| > 0
    ensures var r := TraitsOf(m, keywords, calls);
            r.converted + r.notConverted == r.totalCalls == |calls|
            && 0.0 <= r.conversionRatePct <= 100.0
            && r.objectionHandling.convertedCallsWithObjections <= r.converted
            && r.objectionHandling.notConvertedCallsWithObjections <= r.notConverted
            && 0.0 <= r.objectionHandling.convertedObjectionRatePct <= 100.0
            && 0.0 <= r.objectionHandling.notConvertedObjectionRatePct <= 100.0
            && 0.0 <= r.avgRepTalkPct.converted <= 100.0 && 0.0 <= r.avgRepTalkPct.notConverted <= 100.0
            && 0.0 <= r.avgProspectTurnPct.converted <= 100.0 && 0.0 <= r.avgProspectTurnPct.notConverted <= 100.0
  {
    OutcomePartition(calls);
    var conv, notConv := WithOutcome(calls, true), WithOutcome(calls, false);
    AvgPercent(TalkPcts(conv));
    AvgPercent(TalkPcts(notConv));
    AvgPercent(ProspectTurnPcts(conv));
    AvgPercent(ProspectTurnPcts(notConv));
  }

  /** What the accumulator holds after a rep's calls `cs`. */
  lemma {:induction false} TallyFold(cs: seq<Call>)
    ensures FoldL(TallyStep, Tally(0, 0), cs) == Tally(ConvertedCount(cs), |cs|)
    decreases |cs|
  {
    if cs != [] {
      TallyFold(Init(cs));
    }
  }

  lemma {:induction false} ConvertedCountBound(cs: seq<Call>)
    ensures ConvertedCount(cs) <= |cs|
    decreases |cs|
  {
    if cs != [] {
      ConvertedCountBound(Init(cs));
    }
  }

  /** Every `by_rep` row is the tally of one rep's calls: as many calls as the rep
      has, the converted ones among them, and a rate in [0, 100]. */
  lemma ByRepRows(calls: seq<Call>)
    ensures forall i :: 0 <= i < |ByRep(calls)| ==>
              var (k, row) := ByRep(calls)[i];
              row.calls == |Select(calls, RepEntry, k)| && row.calls >= 1
              && row.converted == ConvertedCount(Select(calls, RepEntry, k))
              && row.converted <= row.calls
              && 0.0 <= row.conversionRatePct <= 100.0
    ensures forall i, j :: 0 <= i < j < |ByRep(calls)| ==> ByRep(calls)[i].0 != ByRep(calls)[j].0
  {
    var d := RepConversion(calls);
    CollectValid(calls, RepEntry, Tally(0, 0), TallyStep);
    var ranked := RankedReps(calls);
    PermutedItems(d, ranked);
    forall i | 0 <= i < |ranked|
      ensures var (k, row) := RepRow(ranked[i]);
              row.calls == |Select(calls, RepEntry, k)| && row.calls >= 1
              && row.converted == ConvertedCount(Select(calls, RepEntry, k))
              && row.converted <= row.calls
              && 0.0 <= row.conversionRatePct <= 100.0
    {
      var k := ranked[i].0;
      CollectAt(calls, RepEntry, Tally(0, 0), TallyStep, k);
      TallyFold(Select(calls, RepEntry, k));
      ConvertedCountBound(Select(calls, RepEntry, k));
      PercentBounds(ranked[i].1.converted, ranked[i].1.total);
    }
  }

  /** Reps are ranked by descending number of calls; reps with the same number
      keep the order in which they were first seen. */
  lemma ByRepRanked(calls: seq<Call>)
    ensures SortedDesc(RankedReps(calls), TallyTotal)
    ensures multiset(RankedReps(calls)) == multiset(Items(RepConversion(calls)))
    ensures forall n :: WithScore(RankedReps(calls), TallyTotal, n) == WithScore(Items(RepConversion(calls)), TallyTotal, n)
    ensures forall i, j :: 0 <= i < j < |ByRep(calls)| ==> ByRep(calls)[i].1.calls >= ByRep(calls)[j].1.calls
  {
    CollectSpec(calls, RepEntry, Tally(0, 0), TallyStep);
    forall n ensures WithScore(RankedReps(calls), TallyTotal, n) == WithScore(Items(RepConversion(calls)), TallyTotal, n) {
      SortDescStable(Items(RepConversion(calls)), TallyTotal, n);
    }
  }

  function TallyCalls(t: Tally): int { t.total }

  lemma {:induction false} ItemsTallySum(ks: seq<string>, at: map<string, Tally>)
    requires forall k <- ks :: k in at
    ensures SumScore(Items(Dict(ks, at)), TallyTotal) == SumMeasure(ks, at, TallyCalls)
    decreases |ks|
  {
    if ks != [] {
      var d, d' := Dict(ks, at), Dict(Init(ks), at);
      ItemsTallySum(Init(ks), at);
      var p := (Last(ks), at[Last(ks)]);
      assert Items(d) == Items(d') + [p];
      SnocTallySum(Items(d'), p);
    }
  }

  lemma {:induction false} SnocTallySum(s: seq<(string, Tally)>, p: (string, Tally))
    ensures SumScore(s + [p], TallyTotal) == SumScore(s, TallyTotal) + p.1.total
  {
    if s != [] {
      assert (s + [p])[1..] == s[1..] + [p];
      SnocTallySum(s[1..], p);
    }
  }

  /** The ranking lists every call that has a rep exactly once. */
  lemma ByRepCoversCalls(calls: seq<Call>)
    ensures SumScore(RankedReps(calls), TallyTotal) == Keyed(calls, RepEntry)
  {
    var d := RepConversion(calls);
    CollectSpec(calls, RepEntry, Tally(0, 0), TallyStep);
    SortDescSum(Items(d), TallyTotal);
    ItemsTallySum(d.keys, d.at);
    forall es: seq<Call> ensures TallyCalls(FoldL(TallyStep, Tally(0, 0), es)) == |es| {
      TallyFold(es);
    }
    CollectMeasure(calls, RepEntry, Tally(0, 0), TallyStep, TallyCalls);
  }

  /** The `kw_comparison` loop over the keyword table. */
  method CompareKeywords(m: Matcher, table: seq<Category>, calls: seq<Call>) returns (rows: seq<(string, KeywordRow)>)
    ensures rows == KeywordRows(m, table, calls)
  {
    var conv, notConv := WithOutcome(calls, true), WithOutcome(calls, false);
    rows := [];
    for i := 0 to |table|
      invariant rows == KeywordRows(m, table, calls)[..i]
    {
      var convPct := KeywordRate(m, conv, table[i].patterns);
      var notConvPct := 0.0;
      if notConv != [] {
        notConvPct := KeywordRate(m, notConv, table[i].patterns);
      }
      rows := rows + [(table[i].name, KeywordRow(convPct, notConvPct))];
      assert KeywordRows(m, table, calls)[..i + 1] == KeywordRows(m, table, calls)[..i] + [KeywordRows(m, table, calls)[i]];
    }
  }

  /** The `rep_conversion` loop. */
  method TallyReps(calls: seq<Call>) returns (d: Dict<Tally>)
    ensures d == RepConversion(calls)
  {
    d := Empty();
    assert calls[..0] == [];
    for i := 0 to |calls|
      invariant d == Collect(calls[..i], RepEntry, Tally(0, 0), TallyStep)
    {
      var c := calls[i];
      assert calls[..i + 1] == calls[..i] + [c];
      CollectSnoc(calls[..i], c, RepEntry, Tally(0, 0), TallyStep);
      if Truthy(c.rep) {
        var rep := c.rep.value;
        var t := if rep in d.at then d.at[rep] else Tally(0, 0);
        t := Tally(t.converted, t.total + 1);
        if c.converted {
          t := Tally(t.converted + 1, t.total);
        }
        d := Dict(if rep in d.at then d.keys else d.keys + [rep], d.at[rep := t]);
      }
    }
    assert calls[..|calls|] == calls;
  }

  /** `analyze_conversion_traits`, over the keyword categories `keywords`
      (`KeywordTable` in the report). */
  method AnalyzeConversionTraits(m: Matcher, keywords: seq<Category>, calls: seq<Call>) returns (r: TraitsReport)
    requires |calls| > 0
    ensures r == TraitsOf(m, keywords, calls)
  {
    var conv, notConv := WithOutcome(calls, true), WithOutcome(calls, false);
    OutcomePartition(calls);
    var convObj, notConvObj := WithObjections(conv), WithObjections(notConv);
    var kw := CompareKeywords(m, keywords, calls);
    var tallies := TallyReps(calls);
    var ranked := SortDesc(Items(tallies), TallyTotal);
    var byRep := seq(|ranked|, i requires 0 <= i < |ranked| => RepRow(ranked[i]));
    r := TraitsReport(
      |calls|, |conv|, |notConv|,
      Percent(|conv|, |calls|),
      Split(Avg(Lengths(conv)), Avg(Lengths(notConv))),
      Split(Avg(TalkPcts(conv)), Avg(TalkPcts(notConv))),
      Split(Avg(ProspectTurnPcts(conv)), Avg(ProspectTurnPcts(notConv))),
      ObjectionHandling(convObj, notConvObj, RateOf(convObj, |conv|), RateOf(notConvObj, |notConv|)),
      kw, byRep);
  }
}
