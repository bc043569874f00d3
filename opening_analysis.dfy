/**
 * Section 1 of the report: each rep's opening lines, grouped by opener theme,
 * with the conversion rate of each theme.
 */
module OpeningAnalysis {
  import opened Options
  import opened Seqs
  import opened Text
  import opened Numeric
  import opened Matching
  import opened Patterns
  import opened Transcript
  import opened Ranking
  import opened Dicts
  import opened Openers

  /** One rep's opening in one call. */
  datatype Opening = Opening(raw: string, normalized: string, converted: bool)

  /** One theme row. */
  datatype ThemeStat = ThemeStat(count: nat, conversionRate: real)

  /** One rep's entry in the result. */
  datatype RepOpenings = RepOpenings(total: nat, themes: seq<(string, ThemeStat)>, rawSample: seq<Opening>)

  /** The opening recorded for a call: none without a rep (`None` or the empty
      name) or without a rep turn; otherwise the chosen turn's first 300
      characters and its normalised form. */
  function OpeningEntry(c: Call): Option<(string, Opening)> {
    if !Truthy(c.rep) then None
    else
      match FirstRepTurn(c.turns, c.rep.value)
      case None => None
      case Some(i) =>
        var text := c.turns[i].text;
        Some((c.rep.value, Opening(Take(text, 300), NormalizedOpening(text), c.converted)))
  }

  /** `openings_by_rep` after the first loop. */
  function OpeningsByRep(calls: seq<Call>): Dict<seq<Opening>> {
    Collect(calls, OpeningEntry, [], Append)
  }

  /** The theme of a normalised opening: the first matching theme, else "Other / unclear". */
  function Theme(m: Matcher, themes: seq<Category>, text: string): (r: string)
    ensures (exists t :: 0 <= t < |themes| && r == themes[t].name
               && AnyMatch(m, themes[t].patterns, text)) || r == OtherTheme
    ensures r == OtherTheme && OtherTheme !in ThemeNames(themes) ==>
              forall t :: 0 <= t < |themes| ==> !AnyMatch(m, themes[t].patterns, text)
    ensures forall t :: (0 <= t < |themes| && AnyMatch(m, themes[t].patterns, text)
                         && forall u :: 0 <= u < t ==> !AnyMatch(m, themes[u].patterns, text)) ==> r == themes[t].name
    ensures (forall t :: 0 <= t < |themes| ==> !AnyMatch(m, themes[t].patterns, text)) ==> r == OtherTheme
  {
    match Classify(m, themes, text)
    case Some(t) => themes[t].name
    case None => OtherTheme
  }

  function ThemeNames(themes: seq<Category>): set<string> {
    set t | 0 <= t < |themes| :: themes[t].name
  }

  /** The key and value each opening adds to `theme_counts` and `theme_conversion`. */
  function ThemeEntries(m: Matcher, themes: seq<Category>): Opening -> Option<(string, bool)> {
    (o: Opening) => Some((Theme(m, themes, o.normalized), o.converted))
  }

  /** `theme_counts`. */
  function ThemeCounter(m: Matcher, themes: seq<Category>, items: seq<Opening>): (d: Dict<nat>)
    ensures forall k <- d.keys :: k in d.at
  {
    Counted(items, ThemeEntries(m, themes));
    Collect(items, ThemeEntries(m, themes), 0, Inc)
  }

  /** The row of a theme with its count: the conversion rate of the openings
      with that theme. */
  function ThemeRow(m: Matcher, themes: seq<Category>, items: seq<Opening>, p: (string, nat)): (string, ThemeStat) {
    (p.0, ThemeStat(p.1, Rate(Select(items, ThemeEntries(m, themes), p.0))))
  }

  /** The result entry for one rep's openings. */
  function RepSummary(m: Matcher, themes: seq<Category>, items: seq<Opening>): RepOpenings {
    var ranked := MostCommon(ThemeCounter(m, themes, items));
    var rows := seq(|ranked|, i requires 0 <= i < |ranked| => ThemeRow(m, themes, items, ranked[i]));
    RepOpenings(|items|, rows, Take(items, 5))
  }

  /** The result of `analyze_openings`, keyed by rep in first-seen order. */
  function OpeningReport(m: Matcher, themes: seq<Category>, calls: seq<Call>): Dict<RepOpenings> {
    var groups := OpeningsByRep(calls);
    Dict(groups.keys, map k | k in groups.at :: RepSummary(m, themes, groups.at[k]))
  }

  function ThemeCount(p: (string, ThemeStat)): int { p.1.count }

  lemma {:induction false} SumThemeCounts(s: seq<(string, nat)>, t: seq<(string, ThemeStat)>)
    requires |s| == |t| && forall i :: 0 <= i < |s| ==> ThemeCount(t[i]) == CountOf(s[i])
    ensures SumScore(t, ThemeCount) == SumScore(s, CountOf)
  {
    if s != [] {
      SumThemeCounts(s[1..], t[1..]);
    }
  }

  lemma {:induction false} KeyedAll(m: Matcher, themes: seq<Category>, items: seq<Opening>)
    ensures Keyed(items, ThemeEntries(m, themes)) == |items|
    decreases |items|
  {
    if items != [] {
      KeyedAll(m, themes, Init(items));
    }
  }

  /** Every opening falls under exactly one theme: the theme counts add up to the
      rep's total. */
  lemma ThemeCountsTotal(m: Matcher, themes: seq<Category>, items: seq<Opening>)
    ensures SumScore(RepSummary(m, themes, items).themes, ThemeCount) == RepSummary(m, themes, items).total
  {
    var d := ThemeCounter(m, themes, items);
    MostCommonSum(d);
    CountedTotal(items, ThemeEntries(m, themes));
    KeyedAll(m, themes, items);
    SumThemeCounts(MostCommon(d), RepSummary(m, themes, items).themes);
  }

  /** The theme rows: most frequent first, each theme once, each a theme of the
      table or "Other / unclear", seen at least once, with a conversion rate in
      [0, 100] computed from exactly its own openings; and a sample of at most
      five openings from the front of the list. */
  lemma ThemeRows(m: Matcher, themes: seq<Category>, items: seq<Opening>)
    ensures var r := RepSummary(m, themes, items);
            SortedDesc(r.themes, ThemeCount)
            && (forall i, j :: 0 <= i < j < |r.themes| ==> r.themes[i].0 != r.themes[j].0)
            && (forall i :: 0 <= i < |r.themes| ==>
                  (r.themes[i].0 in ThemeNames(themes) || r.themes[i].0 == OtherTheme)
                  && r.themes[i].1.count >= 1
                  && r.themes[i].1.count == |Select(items, ThemeEntries(m, themes), r.themes[i].0)|
                  && 0.0 <= r.themes[i].1.conversionRate <= 100.0)
            && |r.rawSample| <= 5 && r.rawSample == items[..|r.rawSample|]
  {
    var d := ThemeCounter(m, themes, items);
    CollectValid(items, ThemeEntries(m, themes), 0, Inc);
    MostCommonItems(d);
    var ranked := MostCommon(d);
    var r := RepSummary(m, themes, items);
    forall i | 0 <= i < |r.themes|
      ensures (r.themes[i].0 in ThemeNames(themes) || r.themes[i].0 == OtherTheme)
              && r.themes[i].1.count >= 1
              && r.themes[i].1.count == |Select(items, ThemeEntries(m, themes), r.themes[i].0)|
    {
      ThemeKey(m, themes, items, ranked[i].0);
    }
  }

  /** A theme in the counter was given to at least one opening, as many times
      as it was counted. */
  lemma ThemeKey(m: Matcher, themes: seq<Category>, items: seq<Opening>, k: string)
    requires k in ThemeCounter(m, themes, items).at
    ensures ThemeCounter(m, themes, items).at[k] == |Select(items, ThemeEntries(m, themes), k)| >= 1
    ensures k in ThemeNames(themes) || k == OtherTheme
  {
    CollectAt(items, ThemeEntries(m, themes), 0, Inc, k);
    FoldInc(Select(items, ThemeEntries(m, themes), k));
    SelectFrom(items, ThemeEntries(m, themes), k);
    var e := Select(items, ThemeEntries(m, themes), k)[0];
    assert e in Select(items, ThemeEntries(m, themes), k);
    var j :| 0 <= j < |items| && ThemeEntries(m, themes)(items[j]) == Some((k, e));
    assert k == Theme(m, themes, items[j].normalized);
  }

  /** Every recorded opening quotes at most 300 characters of a turn the rep
      spoke in that call, and its normalised form is lower-case and at most
      thirty words long. */
  lemma OpeningShape(calls: seq<Call>, k: string)
    ensures forall o <- Select(calls, OpeningEntry, k) ::
              |o.raw| <= 300 && |Words(o.normalized)| <= 30 && NoUpper(o.normalized)
              && exists c <- calls :: c.rep == Some(k) && exists t <- c.turns ::
                   t.speaker == k && o.raw == Take(t.text, 300) && o.normalized == NormalizedOpening(t.text)
  {
    SelectFrom(calls, OpeningEntry, k);
    forall o <- Select(calls, OpeningEntry, k)
      ensures |o.raw| <= 300 && |Words(o.normalized)| <= 30 && NoUpper(o.normalized)
              && exists c <- calls :: c.rep == Some(k) && exists t <- c.turns ::
                   t.speaker == k && o.raw == Take(t.text, 300) && o.normalized == NormalizedOpening(t.text)
    {
      var j :| 0 <= j < |calls| && OpeningEntry(calls[j]) == Some((k, o));
      OpeningEntryShape(calls[j], k, o);
      assert calls[j] in calls;
    }
  }

  /** The opening one call contributes quotes a turn of the call's rep. */
  lemma OpeningEntryShape(c: Call, k: string, o: Opening)
    requires OpeningEntry(c) == Some((k, o))
    ensures |o.raw| <= 300 && |Words(o.normalized)| <= 30 && NoUpper(o.normalized)
    ensures c.rep == Some(k) && exists t <- c.turns ::
              t.speaker == k && o.raw == Take(t.text, 300) && o.normalized == NormalizedOpening(t.text)
  {
    var i := FirstRepTurn(c.turns, c.rep.value).value;
    NormalizedOpeningShape(c.turns[i].text);
    assert c.turns[i] in c.turns;
  }

  /** The report has a row for exactly the reps with at least one opening, and
      each rep's total is its number of openings; over all reps the totals count
      every call that has a rep who speaks in it. */
  lemma OpeningTotals(m: Matcher, themes: seq<Category>, calls: seq<Call>)
    ensures forall k :: k in OpeningReport(m, themes, calls).at <==> Select(calls, OpeningEntry, k) != []
    ensures forall k :: k in OpeningReport(m, themes, calls).at ==>
              OpeningReport(m, themes, calls).at[k].total == |Select(calls, OpeningEntry, k)|
    ensures forall k <- OpeningReport(m, themes, calls).keys :: k in OpeningReport(m, themes, calls).at
    ensures SumMeasure(OpeningReport(m, themes, calls).keys, OpeningReport(m, themes, calls).at, RepTotal)
         == Keyed(calls, OpeningEntry)
  {
    Grouped(calls, OpeningEntry);
    CollectCovers(calls, OpeningEntry, [], Append);
    var groups := OpeningsByRep(calls);
    TotalsAreSizes(groups.keys, calls, OpeningReport(m, themes, calls).at);
  }

  function RepTotal(r: RepOpenings): int { r.total }

  lemma {:induction false} TotalsAreSizes(ks: seq<string>, calls: seq<Call>, at: map<string, RepOpenings>)
    requires forall k <- ks :: k in at && at[k].total == |Select(calls, OpeningEntry, k)|
    ensures SumMeasure(ks, at, RepTotal) == SumSizes(ks, calls, OpeningEntry)
    decreases |ks|
  {
    if ks != [] {
      TotalsAreSizes(Init(ks), calls, at);
    }
  }

  /** The first loop of `analyze_openings`: each call with a rep contributes the
      rep's first substantive turn, raw and normalised. */
  method CollectOpenings(calls: seq<Call>) returns (groups: Dict<seq<Opening>>)
    ensures groups == OpeningsByRep(calls)
  {
    groups := Empty();
    assert calls[..0] == [];
    for i := 0 to |calls|
      invariant groups == Collect(calls[..i], OpeningEntry, [], Append)
    {
      var c := calls[i];
      assert calls[..i + 1] == calls[..i] + [c];
      CollectSnoc(calls[..i], c, OpeningEntry, [], Append);
      if !Truthy(c.rep) {
        continue;
      }
      var first := GetFirstRepTurn(c.turns, c.rep.value);
      if first.Some? {
        var text := c.turns[first.value].text;
        var norm := NormalizeOpening(text);
        groups := AppendAt(groups, c.rep.value, Opening(Take(text, 300), norm, c.converted));
      }
    }
    assert calls[..|calls|] == calls;
  }

  /** The theme loop over one rep's openings, first matching theme wins. */
  method CountThemes(m: Matcher, themes: seq<Category>, items: seq<Opening>)
    returns (counts: Dict<nat>, conversion: Dict<seq<bool>>)
    ensures counts == Collect(items, ThemeEntries(m, themes), 0, Inc)
    ensures conversion == Collect(items, ThemeEntries(m, themes), [], Append)
  {
    counts, conversion := Empty(), Empty();
    assert items[..0] == [];
    for i := 0 to |items|
      invariant counts == Collect(items[..i], ThemeEntries(m, themes), 0, Inc)
      invariant conversion == Collect(items[..i], ThemeEntries(m, themes), [], Append)
    {
      var item := items[i];
      assert items[..i + 1] == items[..i] + [item];
      CollectSnoc(items[..i], item, ThemeEntries(m, themes), 0, Inc);
      CollectSnoc(items[..i], item, ThemeEntries(m, themes), [], Append);
      var t := FirstMatchingCategory(m, themes, item.normalized);
      var theme := if t.Some? then themes[t.value].name else OtherTheme;
      counts := IncAt(counts, theme, item.converted);
      conversion := AppendAt(conversion, theme, item.converted);
    }
    assert items[..|items|] == items;
  }

  /** The `themes` comprehension: one row per ranked theme, its rate taken
      from the theme's conversion list. */
  method ThemeRowsOf(m: Matcher, themes: seq<Category>, items: seq<Opening>,
                     ranked: seq<(string, nat)>, conversion: Dict<seq<bool>>)
    returns (rows: seq<(string, ThemeStat)>)
    requires conversion == Collect(items, ThemeEntries(m, themes), [], Append)
    ensures rows == seq(|ranked|, i requires 0 <= i < |ranked| => ThemeRow(m, themes, items, ranked[i]))
  {
    rows := [];
    for i := 0 to |ranked|
      invariant |rows| == i
      invariant forall j :: 0 <= j < i ==> rows[j] == ThemeRow(m, themes, items, ranked[j])
    {
      var theme, count := ranked[i].0, ranked[i].1;
      var conv := if theme in conversion.at then conversion.at[theme] else [];
      GroupedAt(items, ThemeEntries(m, themes), theme);
      var rate := if conv != [] then Percent(CountTrue(conv), |conv|) else 0.0;
      rows := rows + [(theme, ThemeStat(count, rate))];
    }
  }

  /** `results[rep]` for one rep's openings. */
  method SummarizeOpenings(m: Matcher, themes: seq<Category>, items: seq<Opening>) returns (r: RepOpenings)
    ensures r == RepSummary(m, themes, items)
  {
    var counts, conversion := CountThemes(m, themes, items);
    assert counts == ThemeCounter(m, themes, items);
    var ranked := MostCommon(counts);
    var rows := ThemeRowsOf(m, themes, items, ranked, conversion);
    r := RepOpenings(|items|, rows, Take(items, 5));
  }

  lemma OpeningKeys(calls: seq<Call>)
    ensures forall k :: k in OpeningsByRep(calls).at <==> k in OpeningsByRep(calls).keys
  {
    Grouped(calls, OpeningEntry);
  }

  /** `analyze_openings`, over the opener themes `themes` (`ThemeTable` in the report). */
  method AnalyzeOpenings(m: Matcher, themes: seq<Category>, calls: seq<Call>) returns (report: Dict<RepOpenings>)
    ensures report == OpeningReport(m, themes, calls)
  {
    var groups := CollectOpenings(calls);
    OpeningKeys(calls);
    report := SummarizeReps(m, themes, groups);
  }

  /** The second loop of `analyze_openings`: one summary per rep, in first-seen order. */
  method SummarizeReps(m: Matcher, themes: seq<Category>, groups: Dict<seq<Opening>>) returns (report: Dict<RepOpenings>)
    requires forall k :: k in groups.at <==> k in groups.keys
    ensures report == Dict(groups.keys, map k | k in groups.at :: RepSummary(m, themes, groups.at[k]))
  {
    ghost var target := map k | k in groups.at :: RepSummary(m, themes, groups.at[k]);
    var at: map<string, RepOpenings> := map[];
    FillStart(groups.keys, target);
    for j := 0 to |groups.keys|
      invariant FilledUpTo(groups.keys, target, at, j)
    {
      var rep := groups.keys[j];
      var summary := SummarizeOpenings(m, themes, groups.at[rep]);
      FillStep(groups.keys, target, at, j, summary);
      at := at[rep := summary];
    }
    FillDone(groups.keys, target, at);
    report := Dict(groups.keys, at);
  }
}
