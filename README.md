# Sales-call transcript analysis, modelled in Dafny

This project models the analysis core of `analyze_transcripts.py`. The script
reads sales-call transcripts, one list of speaker turns per call, and builds a
report about the reps who made the calls. For each call it:

- identifies the rep;
- counts the rep's and the prospect's words;
- decides from booking phrases near the end whether the call converted, i.e.
  ended with a demo or meeting booked;
- records the objections the prospect raised.

Over all calls it then aggregates four sections:

- the rep's opening line, grouped into themes;
- objection frequencies and outcomes;
- talk-time statistics per rep;
- the traits that separate converted calls from the rest.

Modules, in dependency order:

| module | models |
|---|---|
| `Options` | Python's `Optional` |
| `Seqs` | slicing `s[:n]` |
| `Text` | `str.lower`, `str.strip`, `str.split`, `" ".join` |
| `Numeric` | `round(x, 1)`, sums, means, percentages, `sorted`, the median |
| `Ranking` | a stable sort by descending score |
| `Dicts` | insertion-ordered dictionaries, `defaultdict(list)`, `Counter`, `most_common` |
| `Matching` | `any(re.search(p, text) for p in pats)` and first-match classification |
| `Patterns` | the fixed pattern tables and the rep roster |
| `Transcript` | `Turn`, `Call`, `talk_time` |
| `Speakers` | `identify_rep` |
| `Conversion` | `is_converted` |
| `Openers` | `get_first_rep_turn`, `normalize_opening` |
| `Detection` | `detect_objections` |
| `Loading` | `load_calls`, one record at a time |
| `OpeningAnalysis` | `analyze_openings` |
| `ObjectionAnalysis` | `analyze_objections` |
| `TalkTimeAnalysis` | `analyze_talk_time` |
| `ConversionTraits` | `analyze_conversion_traits` |
| `Analysis` | the analyses run with the script's own tables and roster |

How the model stands in for Python:

- **Regular expressions.** The regex engine is a parameter
  `m: Matcher = (Regex, string) -> bool`. A `Regex` keeps the pattern text and
  whether it is searched with `re.I`. Every property is proved for every
  matcher.
- **Pattern tables.** The tables are constants in `Patterns`, in the source's
  order. The operations that use them (conversion, detection, loading and the
  aggregations) take the tables as parameters. The module `Analysis` binds
  them: `LoadScriptCalls`, `ScriptOpenings` and `ScriptTraits` call loading,
  the opening analysis and the conversion analysis with the constants.
- **Rep roster.** The roster `KNOWN_REPS` is likewise the parameter `roster`.
- **Dictionaries.** A Python dictionary becomes a `Dict`: its keys in
  insertion order plus a map.
- **Loops.** The loops that fill dictionaries become methods. Each is proved
  equal to a left fold, `Collect`, and the lemmas `Grouped` and `Counted`
  state what such a fold holds for every key.

Where the code and its own descriptions differ, the model follows the code:

- **Conversion window.** The comments at lines 78 and 771 speak of "the last
  40%" of a call. `is_converted` slices from `int(len(turns) * 0.55)`, so it
  searches the last 45% of the turns (`Conversion.TailIsLastFortyFivePercent`).
- **Rep fallback with three speakers.** A call with no roster speaker and
  three speakers with equal turn counts is not left without a rep. Each
  speaker holds a third of the turns, which is above the 30% threshold, so
  the first speaker is returned (`Speakers.EvenThreeWaySplit`).
- **Unguarded division.** `conversion_rate_pct` (line 502) divides by the
  number of calls without a guard. `ConversionTraits.TraitsOf` and
  `AnalyzeConversionTraits` therefore require at least one call.
- **Position can round to 100.** An objection's `position_pct` is strictly
  below 100 before rounding. After `round(…, 1)` it can be 100.0
  (`Detection.PositionCanRoundToHundred`).
- **Sample de-duplication.** The raw opening sample is `items[:5]`, the first
  five openings with no de-duplication; de-duplication by normalised text
  happens only in the report writer.
- **Prospect engagement.** This counts the prospect's *turns*, not words, as a
  share of all turns.

## Model

| member | source | states |
|---|---|---|
| Text.Lower | analyze_transcripts.py:162 | lower-casing keeps the length and leaves no upper-case letter |
| Text.Strip | analyze_transcripts.py:185 | `strip()`: a slice `s[i..j]` with only whitespace outside it that is empty or starts and ends with non-whitespace, so exactly the leading and trailing whitespace is removed |
| Text.StripLeft | analyze_transcripts.py:185 | `lstrip()`: a suffix of the input whose removed prefix is all whitespace, and which is empty or starts with non-whitespace |
| Text.StripRight | analyze_transcripts.py:185 | `rstrip()`: a prefix of the input whose removed suffix is all whitespace, and which is empty or ends with non-whitespace |
| Text.Words | analyze_transcripts.py:112-113 | `split()` yields non-empty words without whitespace, lower-case when the text is |
| Text.WordsCount | analyze_transcripts.py:112-113 | `split()` yields one word per maximal run of non-whitespace: as many words as positions that end such a run |
| Text.WordsOfJoin | analyze_transcripts.py:190-191 | splitting the space-join of words gives the same words back |
| Text.JoinSpaceNoUpper | analyze_transcripts.py:191 | joining lower-case words with spaces gives lower-case text |
| Text.JoinSpaceAppend | analyze_transcripts.py:191 | joining two non-empty word lists is joining each and putting a space between |
| Text.WordsAppend | analyze_transcripts.py:162-163 | the words of `a + " " + b` are the words of `a` followed by those of `b` |
| Text.LowerAppend | analyze_transcripts.py:162-163 | lower-casing distributes over concatenation |
| Transcript.Call.RepTalkRatio | analyze_transcripts.py:131-134 | the rep's share of words lies in [0, 1] |
| Transcript.Call.ProspectTalkRatio | analyze_transcripts.py:136-139 | the prospect's share of words lies in [0, 1] |
| Transcript.RatiosComplement | analyze_transcripts.py:131-139 | the two shares sum to 1 when anyone spoke, and both are 0 otherwise |
| Transcript.WordsSplit | analyze_transcripts.py:214-218 | rep words plus prospect words equal all words of the call |
| Transcript.TalkTime | analyze_transcripts.py:214-218 | the returned pair sums to the call's total word count |
| Transcript.TotalWordsOfJoinedText | analyze_transcripts.py:112-113 | the turns' word counts sum to the word count of their space-joined text |
| Matching.FirstMatchFrom | analyze_transcripts.py:202-210 | the first category from `start` on with a matching pattern, or none matches |
| Matching.Classify | analyze_transcripts.py:202-210 | the index of the first category any of whose patterns matches; none iff no category matches |
| Matching.FirstMatchingCategory | analyze_transcripts.py:202-210 | the loop with `break` returns the first-match classification |
| Speakers.ScanBest | analyze_transcripts.py:148 | the scan returns the speaker of greatest count, earliest on ties |
| Speakers.MostCommonFirst | analyze_transcripts.py:148 | `most_common(1)[0][0]`: greatest count, earliest first occurrence on ties |
| Speakers.IndexOf | analyze_transcripts.py:148 | the first occurrence of a present element |
| Speakers.FirstMostCommonAt | analyze_transcripts.py:148 | no element occurs more often than the chosen one, and ties occur later |
| Speakers.FirstMostCommonUnique | analyze_transcripts.py:148 | the most common element with earliest first occurrence is unique |
| Speakers.Speakers | analyze_transcripts.py:150 | the speakers of the turns, in order |
| Speakers.RosterSpeakers | analyze_transcripts.py:146 | the speakers of the roster members' turns in turn order: the kept turn `i` sits at the number of roster turns before it, there are as many as roster turns, and each roster member occurs as often as among all speakers; empty iff no turn is by a roster member |
| Speakers.IdentifyRep | analyze_transcripts.py:144-156 | the most frequent roster speaker if any; else the most frequent speaker only when above 30% of turns; else none |
| Speakers.OccOfThree | analyze_transcripts.py:150-154 | with three speakers, their turn counts sum to the number of turns |
| Speakers.EvenThreeWaySplit | analyze_transcripts.py:150-155 | three off-roster speakers with equal counts yield the first speaker as rep |
| Speakers.FirstOfEvenIsMostCommon | analyze_transcripts.py:150-152 | when every speaker occurs equally often, `most_common(1)` picks the first speaker |
| Conversion.TailStart | analyze_transcripts.py:161 | the tail starts within the call |
| Conversion.TailIsLastFortyFivePercent | analyze_transcripts.py:161 | the tail holds 45% of the turns, rounded up to a whole turn |
| Conversion.IsConverted | analyze_transcripts.py:159-169 | a hard-no anywhere means not converted; otherwise converted iff a booking signal matches the tail |
| Conversion.TailTextIsSuffix | analyze_transcripts.py:161-163 | the tail text is the end of the full text |
| Openers.FindFrom | analyze_transcripts.py:174-179 | the first turn from `i` on that satisfies the test, or none does |
| Openers.FirstRepTurn | analyze_transcripts.py:172-180 | none iff the rep never speaks; the first rep turn over ten words if one exists, else the rep's first turn |
| Openers.GetFirstRepTurn | analyze_transcripts.py:172-180 | the two loops return `FirstRepTurn` |
| Openers.FirstSubstantiveTurn | analyze_transcripts.py:174-176 | the first rep turn of more than ten words is the answer |
| Openers.FirstPlainTurn | analyze_transcripts.py:177-179 | with no rep turn of more than ten words, the rep's first turn is the answer |
| Openers.FillerFrom | analyze_transcripts.py:187 | the first filler from `i` on, in list order, that the text starts with followed by `,`, `!`, `.` or whitespace; none iff no such filler |
| Openers.LeadingFiller | analyze_transcripts.py:187 | the first filler, in list order, that the text starts with followed by `,`, `!`, `.` or whitespace (the alternative the anchored regex settles on after backtracking); none iff no filler is so followed |
| Openers.LeadingFillerBacktracks | analyze_transcripts.py:187 | in "sounds good, hi" the earlier alternative "so" is a prefix but is not followed by a separator, so a filler is still found and it is not "so" |
| Openers.SepRun | analyze_transcripts.py:187 | the length of the leading run of `[,!.\s]` |
| Openers.FillerEnd | analyze_transcripts.py:187 | the filler and at least one separator are consumed, up to the first non-separator |
| Openers.StripFillerOnce | analyze_transcripts.py:189 | one `re.sub` plus `strip()`: removes the first filler followed by a separator together with the longest run of separators after it, or only strips |
| Openers.StripFillers | analyze_transcripts.py:188-189 | repeated stripping keeps lower-case text lower-case |
| Openers.SliceNoUpper | analyze_transcripts.py:185 | a slice of lower-case text is lower-case |
| Openers.StripNoUpper | analyze_transcripts.py:185 | stripping keeps lower-case text lower-case |
| Openers.StripFillerOnceNoUpper | analyze_transcripts.py:189 | one filler pass keeps lower-case text lower-case |
| Openers.NormalizedOpeningShape | analyze_transcripts.py:183-191 | the opening is the first 30 words of the filler-stripped lower-cased text, so at most 30 words, all lower-case |
| Openers.NormalizeOpening | analyze_transcripts.py:183-191 | the six-pass loop computes the normalised opening, at most 30 lower-case words |
| Detection.TurnCategory | analyze_transcripts.py:199-203 | a turn's category, if any, indexes the objection table |
| Detection.ObjectionsUpTo | analyze_transcripts.py:194-211 | at most one objection per scanned turn |
| Detection.ObjectionsSound | analyze_transcripts.py:198-210 | every record is the objection of a non-rep turn, in increasing turn order |
| Detection.SoundExtend | analyze_transcripts.py:198-210 | scanning one more turn keeps the records sound and in turn order, with or without a new record |
| Detection.ObjectionsComplete | analyze_transcripts.py:198-210 | every non-rep turn that matches a category has a record |
| Detection.RecordOfTurn | analyze_transcripts.py:198-210 | a matching non-rep turn before turn `k` has its record among the records of the first `k` turns |
| Detection.RecordFields | analyze_transcripts.py:204-209 | a record is by a non-rep speaker, names a matching category, has position in [0, 100] and quotes at most the first 200 characters |
| Detection.PositionBelowHundred | analyze_transcripts.py:207 | before rounding, a turn's position is in [0, 100) |
| Detection.PositionCanRoundToHundred | analyze_transcripts.py:207 | turn 2499 of 2500 is recorded at 100.0 |
| Detection.DetectObjections | analyze_transcripts.py:194-211 | the turn loop with first-match categories computes `ObjectionsUpTo` over all turns |
| Loading.ToTurn | analyze_transcripts.py:228-229 | speaker and text are copied; a missing timestamp becomes "" |
| Loading.ToTurns | analyze_transcripts.py:228-229 | one turn per transcript entry, in order |
| Loading.BuildCallFields | analyze_transcripts.py:226-244 | id, index, turns, rep, conversion; word counts and objections when the rep is truthy, zeros and none otherwise |
| Loading.BuiltObjections | analyze_transcripts.py:232 | a loaded call's objections are sound, ordered and complete |
| Loading.BuildCall | analyze_transcripts.py:226-244 | definition, no contract: the call built from one record, whose fields `BuildCallFields` states |
| Loading.LoadCall | analyze_transcripts.py:226-244 | the per-record body builds `BuildCall` |
| Loading.LoadCalls | analyze_transcripts.py:226-246 | the loop over the records builds `BuildCalls`: each record mapped to its call, in order |
| Loading.BuildCallsAt | analyze_transcripts.py:226-246 | one call per record, the call at each position built from the record at that position |
| Numeric.Round1 | analyze_transcripts.py:207 | `round(x, 1)` is a whole number of tenths within 0.05 of `x` |
| Numeric.Round1Percent | analyze_transcripts.py:389 | rounding keeps a value in [0, 100] |
| Numeric.SumAppend | analyze_transcripts.py:402 | the sum of a concatenation is the sum of the sums |
| Numeric.SumWithin | analyze_transcripts.py:402 | bounds on the elements bound the sum |
| Numeric.MeanWithin | analyze_transcripts.py:422-423 | a mean lies within the elements' bounds |
| Numeric.AvgPercent | analyze_transcripts.py:422-423 | the average of percentages is a percentage |
| Numeric.PercentBounds | analyze_transcripts.py:502 | a part over its whole, as a rounded percentage, lies in [0, 100] |
| Numeric.CountTrue | analyze_transcripts.py:317 | `sum` over booleans is at most the length |
| Numeric.Rate | analyze_transcripts.py:316-318 | the share of `True` values as a percentage lies in [0, 100] |
| Numeric.AboveBelowDisjoint | analyze_transcripts.py:410-411 | calls over 70% and calls under 50% together are at most all calls |
| Numeric.InsertAsc | analyze_transcripts.py:399 | inserting into a sorted list keeps it sorted and adds one element |
| Numeric.SortAsc | analyze_transcripts.py:399 | `sorted` gives an ascending permutation |
| Numeric.Median | analyze_transcripts.py:399-403 | `sorted(xs)[len // 2]` is one of the values |
| Numeric.MedianSplits | analyze_transcripts.py:399-403 | more than half the sorted values lie at or below the median, and at least half at or above it |
| Numeric.SortedSplits | analyze_transcripts.py:399-403 | in a sorted list, at least half the values are at or below the middle element and at least half at or above it |
| Numeric.AtMostPrefix | analyze_transcripts.py:399-403 | a prefix bounded by `t` is counted at or below `t` |
| Numeric.AtLeastSuffix | analyze_transcripts.py:399-403 | a suffix bounded by `t` is counted at or above `t` |
| Ranking.InsertDesc | analyze_transcripts.py:528 | inserting before the first smaller score keeps the list descending |
| Ranking.SortDesc | analyze_transcripts.py:528 | `sorted(key=-score)` gives a descending permutation |
| Ranking.InsertDescWithScore | analyze_transcripts.py:528 | insertion keeps equal-score elements in their order |
| Ranking.SortDescStable | analyze_transcripts.py:528 | the sort is stable: equal scores keep their input order |
| Ranking.InsertDescSum | analyze_transcripts.py:528 | insertion adds the new element's score to the total |
| Ranking.SortDescSum | analyze_transcripts.py:528 | sorting keeps the total score |
| Dicts.Upsert | analyze_transcripts.py:339 | updating a key keeps the dictionary's keys distinct and in step with its map |
| Dicts.UpsertSpec | analyze_transcripts.py:339 | `d[k] = f(d[k], e)` stores `f` of the old value, or of the default when `k` is new, leaves every other key's value alone, and appends `k` to the key order only when it is new |
| Dicts.CollectSnoc | analyze_transcripts.py:335-341 | filling from one more element is one more update step |
| Dicts.AppendAt | analyze_transcripts.py:339 | `d[k].append(e)` on a `defaultdict(list)` |
| Dicts.CollectSpec | analyze_transcripts.py:335-341 | a filled dictionary holds exactly the keys seen, each mapped to the fold of its values |
| Dicts.CollectKey | analyze_transcripts.py:335-341 | the filled dictionary is well formed and holds a key iff some element files a value under it |
| Dicts.CollectAt | analyze_transcripts.py:335-341 | a present key has at least one value and holds the fold of its values |
| Dicts.FirstFiled | analyze_transcripts.py:335-341 | the index of the first element that files a value under a key, or the input length when none does |
| Dicts.CollectOrder | analyze_transcripts.py:335-341 | the filled dictionary lists its keys in the order of their first occurrence in the input |
| Dicts.SumSizesSnoc | analyze_transcripts.py:335-341 | one more element adds to exactly one key's group |
| Dicts.SumSizesNoEntries | analyze_transcripts.py:335-341 | keys that were never seen have empty groups |
| Dicts.CollectCovers | analyze_transcripts.py:335-341 | the group sizes over all keys add up to the number of keyed elements |
| Dicts.CoversStep | analyze_transcripts.py:335-341 | one more element keeps every keyed element filed under exactly one key |
| Dicts.CollectMeasure | analyze_transcripts.py:381-390 | a per-key size measure sums to the number of keyed elements |
| Dicts.MeasureIsSize | analyze_transcripts.py:381-390 | a measure equal to each group's size sums like the sizes |
| Dicts.Items | analyze_transcripts.py:295 | `items()` lists the keys in insertion order with their values |
| Dicts.MostCommon | analyze_transcripts.py:361 | `most_common()` is a descending-count permutation of the items, stable on ties |
| Dicts.ItemsSum | analyze_transcripts.py:343 | the items' counts sum to the counts over the keys |
| Dicts.ItemsSnocSum | analyze_transcripts.py:343 | one more item adds its count |
| Dicts.MostCommonSum | analyze_transcripts.py:361 | ranking keeps the total count |
| Dicts.FoldAppend | analyze_transcripts.py:339 | appending each value in turn builds the list of values |
| Dicts.FoldInc | analyze_transcripts.py:303 | incrementing once per value counts the values |
| Dicts.Grouped | analyze_transcripts.py:332-341 | a filled `defaultdict(list)` maps each key seen to exactly its values, in order |
| Dicts.GroupedAt | analyze_transcripts.py:357-359 | reading a `defaultdict(list)` gives the key's values, or the empty list for a key never seen |
| Dicts.Counted | analyze_transcripts.py:296-309 | a filled `Counter` maps each key seen to its number of occurrences |
| Dicts.CountedTotal | analyze_transcripts.py:343 | a counter's counts add up to the number of counted elements |
| Dicts.IncAt | analyze_transcripts.py:303 | `counter[k] += 1` |
| Dicts.SelectFrom | analyze_transcripts.py:335-341 | every grouped value comes from an element with that key |
| Dicts.MostCommonItems | analyze_transcripts.py:361 | each ranked key is in the dictionary with its own count, and appears once |
| Dicts.PermutedItems | analyze_transcripts.py:361 | any reordering of a dictionary's items lists each key once, with its own value |
| Dicts.RepeatedCount | analyze_transcripts.py:320 | a value at two positions occurs at least twice |
| Dicts.DistinctCount | analyze_transcripts.py:320 | in a list without repeats every value occurs at most once |
| OpeningAnalysis.Theme | analyze_transcripts.py:299-309 | the first theme in table order with a matching pattern; "Other / unclear" when no theme matches |
| OpeningAnalysis.ThemeCounter | analyze_transcripts.py:296-309 | every counted theme has a count |
| OpeningAnalysis.SumThemeCounts | analyze_transcripts.py:313-320 | the theme rows carry the counts of the ranked counter |
| OpeningAnalysis.KeyedAll | analyze_transcripts.py:298-309 | every opening is counted under some theme |
| OpeningAnalysis.ThemeCountsTotal | analyze_transcripts.py:296-320 | a rep's theme counts add up to the rep's total openings |
| OpeningAnalysis.ThemeRows | analyze_transcripts.py:311-322 | theme rows are ranked by count, distinct, each a table theme or "Other / unclear", with count ≥ 1 and rate in [0, 100]; the sample is the first five openings |
| OpeningAnalysis.ThemeKey | analyze_transcripts.py:299-309 | a counted theme is a table theme or "Other / unclear", counted once per opening it was given to, at least once |
| OpeningAnalysis.ThemeRowsOf | analyze_transcripts.py:313-320 | one row per ranked theme, in ranked order, with its count and the rate of its conversion list |
| OpeningAnalysis.OpeningShape | analyze_transcripts.py:252-262 | every opening quotes at most 300 characters of a turn by the call's rep and normalises that turn |
| OpeningAnalysis.OpeningEntryShape | analyze_transcripts.py:256-262 | the opening one call contributes quotes at most 300 characters of a turn by the call's rep and normalises that turn |
| OpeningAnalysis.OpeningTotals | analyze_transcripts.py:252-312 | reps are reported iff they have an opening; their totals add up to all calls with an opening |
| OpeningAnalysis.TotalsAreSizes | analyze_transcripts.py:312 | per-rep totals sum like group sizes |
| OpeningAnalysis.CollectOpenings | analyze_transcripts.py:252-262 | the loop groups the openings by rep |
| OpeningAnalysis.CountThemes | analyze_transcripts.py:296-309 | the loop fills the theme counter and the conversion lists |
| OpeningAnalysis.SummarizeOpenings | analyze_transcripts.py:311-323 | one rep's summary |
| OpeningAnalysis.OpeningKeys | analyze_transcripts.py:252-262 | the grouped reps are the keys of the dictionary |
| OpeningAnalysis.OpeningReport | analyze_transcripts.py:251-325 | definition, no contract: the section's result, whose parts `OpeningTotals`, `ThemeRows` and `OpeningShape` state |
| OpeningAnalysis.AnalyzeOpenings | analyze_transcripts.py:251-325 | the whole section is `OpeningReport` |
| OpeningAnalysis.SummarizeReps | analyze_transcripts.py:295-323 | one summary per grouped rep, in first-seen order, each the summary of that rep's openings |
| ObjectionAnalysis.FoundIn | analyze_transcripts.py:336 | one entry per objection of the call |
| ObjectionAnalysis.Objs | analyze_transcripts.py:337 | the objection records, in order |
| ObjectionAnalysis.CategoryCounter | analyze_transcripts.py:343 | every counted category has a count |
| ObjectionAnalysis.TopCategories | analyze_transcripts.py:364 | `most_common(5)`: the first five of `most_common()`, ranked, distinct, each with its count ≥ 1; a category left out is counted no more often than the fifth, and is left out only when five are listed |
| ObjectionAnalysis.TopLeftOut | analyze_transcripts.py:364 | a key missing from the first `n` of `most_common()` means all `n` places went to keys counted at least as often |
| ObjectionAnalysis.CallsWithObjections | analyze_transcripts.py:350 | at most the number of calls |
| ObjectionAnalysis.FlatSize | analyze_transcripts.py:335-350 | all objections together are the sum of the calls' objections, and at least the calls with objections |
| ObjectionAnalysis.TotalsReconcile | analyze_transcripts.py:348-350 | calls with objections are at most the objections and at most the calls |
| ObjectionAnalysis.SameCategoryCounts | analyze_transcripts.py:341-346 | a category's positions, outcomes and count are equally many |
| ObjectionAnalysis.PositionsWithin | analyze_transcripts.py:345-346 | positions in [0, 100] stay in [0, 100] per category |
| ObjectionAnalysis.CategoryRow | analyze_transcripts.py:351-360 | each category row has count ≥ 1, its rate in [0, 100] and its average position in [0, 100] |
| ObjectionAnalysis.ByCategoryRanked | analyze_transcripts.py:361 | category rows are ranked by count and distinct |
| ObjectionAnalysis.SumScoreSame | analyze_transcripts.py:351-361 | the rows carry the counter's counts |
| ObjectionAnalysis.KeyedAll | analyze_transcripts.py:343 | every objection is counted under its category |
| ObjectionAnalysis.CategoryCountsTotal | analyze_transcripts.py:343-361 | the category counts add up to the total objections detected |
| ObjectionAnalysis.ByRepRows | analyze_transcripts.py:363-365 | reps with objections each get their top five categories |
| ObjectionAnalysis.FileObjection | analyze_transcripts.py:338-341 | files one objection under its rep and its category |
| ObjectionAnalysis.GatherCall | analyze_transcripts.py:336-341 | the inner loop over one call's objections |
| ObjectionAnalysis.GatherStep | analyze_transcripts.py:336-341 | filing one more objection appends it to the flat list and to its rep's and category's lists |
| ObjectionAnalysis.GatherObjections | analyze_transcripts.py:335-341 | the nested loop builds the flat list and both groupings |
| ObjectionAnalysis.PositionLists | analyze_transcripts.py:344-346 | the positions grouped by category |
| ObjectionAnalysis.CategoryRows | analyze_transcripts.py:351-362 | the category rows |
| ObjectionAnalysis.RowFromLists | analyze_transcripts.py:351-361 | row `i` of `by_category` has the ranked count, the rounded mean of the category's non-empty position list and the rate of its outcome list |
| ObjectionAnalysis.FillRows | analyze_transcripts.py:351-361 | the comprehension loop builds every row, in ranked order, from the count, the positions and the outcomes |
| ObjectionAnalysis.RankByRep | analyze_transcripts.py:363-365 | each rep's objections ranked |
| ObjectionAnalysis.ObjectionReportOf | analyze_transcripts.py:330-367 | definition, no contract: the section's result, whose parts `TotalsReconcile`, `CategoryCountsTotal`, `ByCategoryRanked` and `ByRepRows` state |
| ObjectionAnalysis.AnalyzeObjections | analyze_transcripts.py:330-367 | the whole section is `ObjectionReportOf` |
| TalkTimeAnalysis.TalkPct | analyze_transcripts.py:389 | a call's rounded rep talk percentage lies in [0, 100] |
| TalkTimeAnalysis.TalkFold | analyze_transcripts.py:385-394 | the accumulator counts the calls and keeps each ratio in order; its converted list is exactly the talk percentages of the rep's converted calls and its other list those of the rep's other calls, each in order; its word totals are the sums of the calls' rep and prospect word counts |
| TalkTimeAnalysis.TalkPctsSnoc | analyze_transcripts.py:389-390 | one more call appends its talk percentage |
| TalkTimeAnalysis.WordSumsSnoc | analyze_transcripts.py:387-388 | one more call adds its rep and prospect word counts |
| TalkTimeAnalysis.RepWordSum | analyze_transcripts.py:387 | definition, no contract: the sum of the calls' rep word counts |
| TalkTimeAnalysis.ProspectWordSum | analyze_transcripts.py:388 | definition, no contract: the sum of the calls' prospect word counts |
| TalkTimeAnalysis.Summarize | analyze_transcripts.py:397-412 | definition, no contract: one rep's summary from its accumulator, whose values `RepSummary` states |
| TalkTimeAnalysis.TalkTimeReport | analyze_transcripts.py:372-413 | definition, no contract: the section's result, whose parts `RepSummary` and `CallsAnalyzedTotal` state |
| TalkTimeAnalysis.RepSummary | analyze_transcripts.py:396-412 | per rep: calls analysed ≥ 1, over-70 and under-50 never overlap, every percentage in [0, 100], the median is one of the rep's ratios; the overall, converted and not-converted averages are `Avg` of the talk percentages of all the rep's calls, of its converted calls and of its other calls |
| TalkTimeAnalysis.CallsAnalyzedTotal | analyze_transcripts.py:382-401 | the calls analysed over all reps are the calls with a rep |
| TalkTimeAnalysis.SumMeasureMap | analyze_transcripts.py:397-401 | summarising keeps each rep's call count |
| TalkTimeAnalysis.RepStatsKeys | analyze_transcripts.py:382-386 | the reps seen are the accumulator's keys |
| TalkTimeAnalysis.AccumulateTalk | analyze_transcripts.py:382-394 | the loop fills the per-rep accumulators |
| TalkTimeAnalysis.AnalyzeTalkTime | analyze_transcripts.py:372-413 | the whole section is `TalkTimeReport` |
| Transcript.WithOutcome | analyze_transcripts.py:419-420 | exactly the calls with the given outcome: each kept call has it and comes from the input, and each input call that has it is kept |
| Transcript.OutcomePartition | analyze_transcripts.py:419-420 | converted and not-converted calls partition the calls |
| Transcript.OutcomeMultiset | analyze_transcripts.py:419-420 | every call lands in exactly one of the two outcome groups |
| Transcript.WithOutcomeSnoc | analyze_transcripts.py:391-394 | one more call joins the group of its outcome and no other |
| ConversionTraits.Lengths | analyze_transcripts.py:426-427 | each call's number of turns, in order |
| TalkTimeAnalysis.TalkPcts | analyze_transcripts.py:430-431 | each call's talk percentage, all in [0, 100] |
| ConversionTraits.ProspectTurns | analyze_transcripts.py:439 | bound only: non-rep turns are at most all turns |
| ConversionTraits.ProspectTurnPcts | analyze_transcripts.py:438-445 | at most one share per call, each in [0, 100]; every share is `Percent(ProspectTurns(c.turns, c.rep), len(c.turns))` of some call `c` with a truthy rep and at least one turn, and every such call's share is in the list |
| ConversionTraits.WithObjections | analyze_transcripts.py:434-435 | bound only: calls with objections are at most the calls |
| ConversionTraits.RateOf | analyze_transcripts.py:481 | a guarded rate lies in [0, 100] |
| ConversionTraits.Hits | analyze_transcripts.py:476-480 | bound only: hits are at most the calls (`HitsSpec` states when there are none or all) |
| ConversionTraits.KeywordRate | analyze_transcripts.py:475-481 | the loop counts the calls that mention a keyword and rates them |
| ConversionTraits.HitsSpec | analyze_transcripts.py:476-480 | no hits iff no call mentions it; all hits iff every call does |
| ConversionTraits.KeywordRows | analyze_transcripts.py:483-488 | one row per keyword topic, in order, with both rates in [0, 100] |
| ConversionTraits.RepConversion | analyze_transcripts.py:491-496 | every tallied rep has a tally |
| ConversionTraits.ByRep | analyze_transcripts.py:522-529 | one row per ranked rep |
| ConversionTraits.TraitsTotals | analyze_transcripts.py:498-520 | the outcome groups add up to all calls, and every rate and average percentage lies in [0, 100] |
| ConversionTraits.TallyFold | analyze_transcripts.py:492-496 | folding a rep's calls gives the tally (number of converted calls, number of calls) |
| ConversionTraits.ConvertedCountBound | analyze_transcripts.py:495-496 | bound only: converted calls are at most the calls |
| ConversionTraits.ByRepRows | analyze_transcripts.py:522-529 | each rep row counts that rep's calls and conversions, with rate in [0, 100]; reps are distinct |
| ConversionTraits.ByRepRanked | analyze_transcripts.py:528 | reps are ranked by calls, a stable permutation of the tallies |
| ConversionTraits.ItemsTallySum | analyze_transcripts.py:528 | the items' call counts sum like the keys' |
| ConversionTraits.SnocTallySum | analyze_transcripts.py:528 | one more row adds its calls |
| ConversionTraits.ByRepCoversCalls | analyze_transcripts.py:491-529 | the rows' call counts add up to the calls with a rep |
| ConversionTraits.CompareKeywords | analyze_transcripts.py:483-488 | the keyword loop builds `KeywordRows` |
| ConversionTraits.TallyReps | analyze_transcripts.py:491-496 | the loop builds the per-rep tallies |
| ConversionTraits.TraitsOf | analyze_transcripts.py:418-530 | definition, no contract: the section's result, whose parts `TraitsTotals`, `ByRepRows` and `ByRepCoversCalls` state |
| ConversionTraits.AnalyzeConversionTraits | analyze_transcripts.py:418-530 | the whole section is `TraitsOf` |
| Analysis.LoadScriptCalls | analyze_transcripts.py:781-782 | loading with the script's objection table, decline and booking signals and roster gives one call record per input call |
| Analysis.ScriptOpenings | analyze_transcripts.py:785-786 | the opening section with the script's theme table |
| Analysis.ScriptTraits | analyze_transcripts.py:794-795 | the conversion section with the script's keyword groups; its converted and other calls add up to all calls |

## Left out

- Reading the JSON file (lines 223-225) and writing the Markdown report with
  its bar charts (lines 535-775) are I/O. So is the entry point
  (lines 780-808). `Analysis` states the calls it makes with the script's
  tables, one operation at a time; no single member chains them. A missing
  `speaker`, `text`, `id` or `index` field raises `KeyError` in the source;
  the model's input records always carry them.
- The regular-expression engine is abstract: the model proves properties for
  every matcher, not for Python's `re` semantics of each pattern. Lower-casing
  is modelled for ASCII letters only; `str.split` and `str.strip` use the full
  set of characters Python treats as whitespace.
- Openers.StripFillerOnce: models the leading-filler substitution directly
  (the first filler, in list order, that the text starts with followed by `,`,
  `!`, `.` or whitespace, then the longest run of those separators), not
  through the regex engine; the two agree because the pattern is anchored,
  its alternation backtracks to the next alternative when no separator
  follows, and the separator class is greedy.
- Numeric.Round1: rounds exact real numbers half up. Python rounds binary
  floating-point values half to even, so results can differ at exact ties
  and through representation error.
- Dictionaries are insertion-ordered key lists with a map. Iteration order,
  which decides ties in `most_common` and `sorted`, is modelled. Hashing and
  object identity are not.
- Numeric.MedianSplits: states the split about the sorted list. The same
  counts hold for the unsorted list because it is a permutation, but the
  model does not prove that step.
- The `Turn.timestamp` field is carried but never read by the analysis.
