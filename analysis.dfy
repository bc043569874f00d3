/**
 * The analyses bound to the script's own pattern tables and rep roster, the
 * constants of `Patterns`. The entry point runs `LoadScriptCalls`, then
 * `ScriptOpenings`, `ObjectionAnalysis.AnalyzeObjections`,
 * `TalkTimeAnalysis.AnalyzeTalkTime` and `ScriptTraits` on the loaded calls.
 */
module Analysis {
  import opened Matching
  import opened Transcript
  import Patterns
  import Loading
  import OpeningAnalysis
  import ConversionTraits
  import opened Dicts

  /** `load_calls` with `OBJECTION_PATTERNS`, `NOT_CONVERTED_SIGNALS`,
      `BOOKING_SIGNALS` and `KNOWN_REPS`: one call record per input call. */
  method LoadScriptCalls(m: Matcher, raw: seq<Loading.RawCall>) returns (calls: seq<Call>)
    ensures calls == Loading.BuildCalls(m, Patterns.ObjectionTable, Patterns.NotConvertedSignals,
                                        Patterns.BookingSignals, Patterns.KnownReps, raw)
    ensures |calls| == |raw|
  {
    calls := Loading.LoadCalls(m, Patterns.ObjectionTable, Patterns.NotConvertedSignals,
                               Patterns.BookingSignals, Patterns.KnownReps, raw);
    Loading.BuildCallsAt(m, Patterns.ObjectionTable, Patterns.NotConvertedSignals,
                         Patterns.BookingSignals, Patterns.KnownReps, raw);
  }

  /** `analyze_openings` with its `theme_patterns`. */
  method ScriptOpenings(m: Matcher, calls: seq<Call>) returns (report: Dict<OpeningAnalysis.RepOpenings>)
    ensures report == OpeningAnalysis.OpeningReport(m, Patterns.ThemeTable, calls)
  {
    report := OpeningAnalysis.AnalyzeOpenings(m, Patterns.ThemeTable, calls);
  }

  /** `analyze_conversion_traits` with its `keywords` groups; the source divides by
      the number of calls, so there must be at least one. */
  method ScriptTraits(m: Matcher, calls: seq<Call>) returns (report: ConversionTraits.TraitsReport)
    requires |calls| > 0
    ensures report == ConversionTraits.TraitsOf(m, Patterns.KeywordTable, calls)
    ensures report.converted + report.notConverted == report.totalCalls == |calls|
  {
    report := ConversionTraits.AnalyzeConversionTraits(m, Patterns.KeywordTable, calls);
    ConversionTraits.TraitsTotals(m, Patterns.KeywordTable, calls);
  }
}
