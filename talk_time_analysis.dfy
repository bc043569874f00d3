/**
 * Section 3 of the report: per-rep talk-time statistics over the calls that
 * have a rep.
 */
module TalkTimeAnalysis {
  import opened Options
  import opened Numeric
  import opened Transcript
  import opened Dicts

  /** The accumulator `rep_stats[rep]`. */
  datatype RepStats = RepStats(
    calls: nat,
    totalRepWords: nat,
    totalProspectWords: nat,
    ratios: seq<real>,
    convertedRatios: seq<real>,
    notConvertedRatios: seq<real>)

  /** The summary written for one rep. */
  datatype TalkSummary = TalkSummary(
    callsAnalyzed: nat,
    avgRepTalkPct: real,
    medianRepTalkPct: real,
    convertedAvgRepTalkPct: real,
    notConvertedAvgRepTalkPct: real,
    callsOver70PctRepTalk: nat,
    callsUnder50PctRepTalk: nat)

  /** The default accumulator of the `defaultdict`. */
  const NoTalk := RepStats(0, 0, 0, [], [], [])

  /** `round(c.rep_talk_ratio * 100, 1)`. */
  function TalkPct(c: Call): (r: real)
    ensures 0.0 <= r <= 100.0
  {
    Round1Percent(c.RepTalkRatio() * 100.0);
    Round1(c.RepTalkRatio() * 100.0)
  }

  /** `[round(c.rep_talk_ratio * 100, 1) for c in cs]`. */
  function TalkPcts(cs: seq<Call>): (r: seq<real>)
    ensures |r| == |cs| && Within(r, 0.0, 100.0)
  {
    seq(|cs|, i requires 0 <= i < |cs| => TalkPct(cs[i]))
  }

  /** Calls without a rep (`None` or the empty name) are skipped; the others are
      filed under their rep. */
  function RepEntry(c: Call): Option<(string, Call)> {
    if Truthy(c.rep) then Some((c.rep.value, c)) else None
  }

  /** One iteration of the accumulation loop. */
  function TalkStep(s: RepStats, c: Call): RepStats {
    var ratio := TalkPct(c);
    RepStats(
      s.calls + 1,
      s.totalRepWords + c.repWordCount,
      s.totalProspectWords + c.prospectWordCount,
      s.ratios + [ratio],
      if c.converted then s.convertedRatios + [ratio] else s.convertedRatios,
      if c.converted then s.notConvertedRatios else s.notConvertedRatios + [ratio])
  }

  /** The statistics of one rep's accumulator. */
  function Summarize(s: RepStats): TalkSummary {
    TalkSummary(
      s.calls,
      Avg(s.ratios),
      Median(s.ratios),
      Avg(s.convertedRatios),
      Avg(s.notConvertedRatios),
      CountAbove(s.ratios, 70.0),
      CountBelow(s.ratios, 50.0))
  }

  /** `rep_stats` after the first loop. */
  function RepStatsOf(calls: seq<Call>): Dict<RepStats> {
    Collect(calls, RepEntry, NoTalk, TalkStep)
  }

  /** The summary `analyze_talk_time` returns, keyed by rep in first-seen order. */
  function TalkTimeReport(calls: seq<Call>): Dict<TalkSummary> {
    var stats := RepStatsOf(calls);
    Dict(stats.keys, map k | k in stats.at :: Summarize(stats.at[k]))
  }

  /** `sum(1 for c in cs if c.converted)`. */
  function ConvertedCount(cs: seq<Call>): nat {
    if cs == [] then 0 else ConvertedCount(Init(cs)) + if Last(cs).converted then 1 else 0
  }

  /** `sum(c.rep_word_count for c in cs)`. */
  function RepWordSum(cs: seq<Call>): nat {
    if cs == [] then 0 else cs[0].repWordCount + RepWordSum(cs[1..])
  }

  /** `sum(c.prospect_word_count for c in cs)`. */
  function ProspectWordSum(cs: seq<Call>): nat {
    if cs == [] then 0 else cs[0].prospectWordCount + ProspectWordSum(cs[1..])
  }

  /** Both word sums grow by the next call's counts. */
  lemma {:induction false} WordSumsSnoc(cs: seq<Call>, c: Call)
    ensures RepWordSum(cs + [c]) == RepWordSum(cs) + c.repWordCount
    ensures ProspectWordSum(cs + [c]) == ProspectWordSum(cs) + c.prospectWordCount
  {
    if cs != [] {
      assert (cs + [c])[1..] == cs[1..] + [c];
      WordSumsSnoc(cs[1..], c);
    }
  }

  /** One more call appends its percentage. */
  lemma TalkPctsSnoc(cs: seq<Call>, c: Call)
    ensures TalkPcts(cs + [c]) == TalkPcts(cs) + [TalkPct(c)]
  {
    assert forall i :: 0 <= i < |cs| ==> (cs + [c])[i] == cs[i];
  }

  /** What the accumulator holds after a rep's calls `cs`: one ratio per call, in
      order; the converted calls' ratios and the other calls' ratios, each in
      order; and the sums of the rep's and the prospects' word counts. */
  lemma TalkFold(cs: seq<Call>)
    ensures var s := FoldL(TalkStep, NoTalk, cs);
            s.calls == |cs| && s.ratios == TalkPcts(cs)
            && (forall i :: 0 <= i < |cs| ==> s.ratios[i] == TalkPct(cs[i]))
            && |s.convertedRatios| == ConvertedCount(cs)
            && |s.convertedRatios| + |s.notConvertedRatios| == |cs|
            && Within(s.ratios, 0.0, 100.0)
            && Within(s.convertedRatios, 0.0, 100.0)
            && Within(s.notConvertedRatios, 0.0, 100.0)
            && s.convertedRatios == TalkPcts(WithOutcome(cs, true))
            && s.notConvertedRatios == TalkPcts(WithOutcome(cs, false))
            && s.totalRepWords == RepWordSum(cs)
            && s.totalProspectWords == ProspectWordSum(cs)
  {
    FoldCounts(cs);
    FoldLists(cs);
    FoldWords(cs);
  }

  lemma {:induction false} FoldCounts(cs: seq<Call>)
    ensures var s := FoldL(TalkStep, NoTalk, cs);
            s.calls == |cs| && |s.ratios| == |cs|
            && |s.convertedRatios| == ConvertedCount(cs)
            && |s.convertedRatios| + |s.notConvertedRatios| == |cs|
    decreases |cs|
  {
    if cs != [] {
      FoldCounts(Init(cs));
    }
  }

  lemma {:induction false} FoldLists(cs: seq<Call>)
    ensures var s := FoldL(TalkStep, NoTalk, cs);
            s.ratios == TalkPcts(cs)
            && s.convertedRatios == TalkPcts(WithOutcome(cs, true))
            && s.notConvertedRatios == TalkPcts(WithOutcome(cs, false))
    decreases |cs|
  {
    if cs != [] {
      var init, c := Init(cs), Last(cs);
      assert cs == init + [c];
      FoldLists(init);
      TalkPctsSnoc(init, c);
      WithOutcomeSnoc(init, c, true);
      WithOutcomeSnoc(init, c, false);
      TalkPctsSnoc(WithOutcome(init, c.converted), c);
    }
  }

  lemma {:induction false} FoldWords(cs: seq<Call>)
    ensures var s := FoldL(TalkStep, NoTalk, cs);
            s.totalRepWords == RepWordSum(cs) && s.totalProspectWords == ProspectWordSum(cs)
    decreases |cs|
  {
    if cs != [] {
      var init, c := Init(cs), Last(cs);
      assert cs == init + [c];
      FoldWords(init);
      WordSumsSnoc(init, c);
    }
  }

  /** Per rep: the number of calls analysed is that rep's number of calls, the
      over-70% and under-50% counts never overlap, and every percentage is in
      [0, 100]; the median is one of the rep's ratios; and the three averages
      are those of all the rep's calls, of its converted calls and of its other
      calls. */
  lemma RepSummary(calls: seq<Call>, k: string)
    requires k in TalkTimeReport(calls).at
    ensures var t := TalkTimeReport(calls).at[k];
            var cs := Select(calls, RepEntry, k);
            t.callsAnalyzed == |cs| && t.callsAnalyzed > 0
            && t.callsOver70PctRepTalk + t.callsUnder50PctRepTalk <= t.callsAnalyzed
            && 0.0 <= t.avgRepTalkPct <= 100.0
            && 0.0 <= t.medianRepTalkPct <= 100.0
            && 0.0 <= t.convertedAvgRepTalkPct <= 100.0
            && 0.0 <= t.notConvertedAvgRepTalkPct <= 100.0
            && exists i :: 0 <= i < |cs| && t.medianRepTalkPct == TalkPct(cs[i])
    ensures var t := TalkTimeReport(calls).at[k];
            var cs := Select(calls, RepEntry, k);
            t.avgRepTalkPct == Avg(TalkPcts(cs))
            && t.convertedAvgRepTalkPct == Avg(TalkPcts(WithOutcome(cs, true)))
            && t.notConvertedAvgRepTalkPct == Avg(TalkPcts(WithOutcome(cs, false)))
  {
    CollectSpec(calls, RepEntry, NoTalk, TalkStep);
    var cs := Select(calls, RepEntry, k);
    var s := FoldL(TalkStep, NoTalk, cs);
    assert RepStatsOf(calls).at[k] == s;
    TalkFold(cs);
    AboveBelowDisjoint(s.ratios, 50.0, 70.0);
    AvgPercent(s.ratios);
    AvgPercent(s.convertedRatios);
    AvgPercent(s.notConvertedRatios);
    var med := Median(s.ratios);
    assert med in multiset(s.ratios);
    var i :| 0 <= i < |s.ratios| && s.ratios[i] == med;
    assert med == TalkPct(cs[i]);
  }

  /** The calls analysed over all reps are exactly the calls with a rep. */
  lemma CallsAnalyzedTotal(calls: seq<Call>)
    ensures forall k <- TalkTimeReport(calls).keys :: k in TalkTimeReport(calls).at
    ensures SumMeasure(TalkTimeReport(calls).keys, TalkTimeReport(calls).at, (t: TalkSummary) => t.callsAnalyzed as int)
         == Keyed(calls, RepEntry)
  {
    CollectSpec(calls, RepEntry, NoTalk, TalkStep);
    var stats := RepStatsOf(calls);
    forall es: seq<Call> ensures FoldL(TalkStep, NoTalk, es).calls == |es| {
      TalkFold(es);
    }
    CollectMeasure(calls, RepEntry, NoTalk, TalkStep, (s: RepStats) => s.calls as int);
    SumMeasureMap(stats.keys, stats.at, TalkTimeReport(calls).at);
  }

  lemma {:induction false} SumMeasureMap(ks: seq<string>, at: map<string, RepStats>, sum: map<string, TalkSummary>)
    requires forall k <- ks :: k in at && k in sum && sum[k] == Summarize(at[k])
    ensures SumMeasure(ks, sum, (t: TalkSummary) => t.callsAnalyzed as int)
         == SumMeasure(ks, at, (s: RepStats) => s.calls as int)
    decreases |ks|
  {
    if ks != [] {
      SumMeasureMap(Init(ks), at, sum);
    }
  }

  lemma RepStatsKeys(calls: seq<Call>)
    ensures forall k :: k in RepStatsOf(calls).at <==> k in RepStatsOf(calls).keys
  {
    CollectSpec(calls, RepEntry, NoTalk, TalkStep);
  }

  /** The first loop of `analyze_talk_time`: fill `rep_stats` from the calls. */
  method AccumulateTalk(calls: seq<Call>) returns (stats: Dict<RepStats>)
    ensures stats == RepStatsOf(calls)
  {
    stats := Empty();
    for i := 0 to |calls|
      invariant stats == Collect(calls[..i], RepEntry, NoTalk, TalkStep)
    {
      var c := calls[i];
      assert Init(calls[..i + 1]) == calls[..i] && Last(calls[..i + 1]) == c;
      if !Truthy(c.rep) {
        continue;
      }
      var rep := c.rep.value;
      var s := if rep in stats.at then stats.at[rep] else NoTalk;
      var keys := if rep in stats.at then stats.keys else stats.keys + [rep];
      stats := Dict(keys, stats.at[rep := TalkStep(s, c)]);
    }
    assert calls[..|calls|] == calls;
  }

  /** `analyze_talk_time`: the accumulation loop over the calls, then the summary
      loop over the reps. */
  method AnalyzeTalkTime(calls: seq<Call>) returns (summary: Dict<TalkSummary>)
    ensures summary == TalkTimeReport(calls)
  {
    var stats := AccumulateTalk(calls);
    RepStatsKeys(calls);
    ghost var target := map k | k in stats.at :: Summarize(stats.at[k]);
    var at: map<string, TalkSummary> := map[];
    FillStart(stats.keys, target);
    for j := 0 to |stats.keys|
      invariant FilledUpTo(stats.keys, target, at, j)
    {
      var rep := stats.keys[j];
      var row := Summarize(stats.at[rep]);
      FillStep(stats.keys, target, at, j, row);
      at := at[rep := row];
    }
    FillDone(stats.keys, target, at);
    summary := Dict(stats.keys, at);
  }
}
