/**
 * Section 2 of the report: objection frequencies, where in the call they are
 * raised, how often calls convert despite them, and each rep's most common ones.
 */
module ObjectionAnalysis {
  import opened Options
  import opened Seqs
  import opened Numeric
  import opened Transcript
  import opened Ranking
  import opened Dicts

  /** One detected objection together with the rep and outcome of its call. */
  datatype Found = Found(obj: ObjectionRecord, rep: Option<string>, converted: bool)

  /** Statistics of one objection category. */
  datatype CategoryStat = CategoryStat(count: nat, avgPositionInCallPct: real, conversionRateWhenPresent: real)

  /** The result of `analyze_objections`; `byCategory` is in `most_common()` order. */
  datatype ObjectionReport = ObjectionReport(
    totalObjectionsDetected: nat,
    callsWithObjections: nat,
    byCategory: seq<(string, CategoryStat)>,
    byRep: Dict<seq<(string, nat)>>)

  function FoundIn(c: Call): (r: seq<Found>)
    ensures |r| == |c.objectionsFound|
  {
    seq(|c.objectionsFound|, i requires 0 <= i < |c.objectionsFound| => Found(c.objectionsFound[i], c.rep, c.converted))
  }

  /** The objections of all calls, in call order and then detection order. */
  function Flat(calls: seq<Call>): seq<Found>
    decreases |calls|
  {
    if calls == [] then [] else Flat(Init(calls)) + FoundIn(Last(calls))
  }

  /** `all_objections`. */
  function Objs(fs: seq<Found>): (r: seq<ObjectionRecord>)
    ensures |r| == |fs| && forall i :: 0 <= i < |fs| ==> r[i] == fs[i].obj
  {
    seq(|fs|, i requires 0 <= i < |fs| => fs[i].obj)
  }

  /** Keys of the loops: by category, and by rep when the call has one. */
  function CategoryOf(o: ObjectionRecord): Option<(string, ObjectionRecord)> { Some((o.category, o)) }
  function PositionOf(o: ObjectionRecord): Option<(string, real)> { Some((o.category, o.positionPct)) }
  function OutcomeOf(f: Found): Option<(string, bool)> { Some((f.obj.category, f.converted)) }
  function RepOf(f: Found): Option<(string, ObjectionRecord)> {
    if Truthy(f.rep) then Some((f.rep.value, f.obj)) else None
  }

  /** `Counter(o["category"] for o in objs)`. */
  function CategoryCounter(objs: seq<ObjectionRecord>): (d: Dict<nat>)
    ensures forall k <- d.keys :: k in d.at
  {
    Counted(objs, CategoryOf);
    Collect(objs, CategoryOf, 0, Inc)
  }

  /** `Counter(o["category"] for o in objs).most_common(5)`. */
  function TopCategories(objs: seq<ObjectionRecord>): (r: seq<(string, nat)>)
    ensures |r| <= 5
    ensures SortedDesc(r, CountOf)
    ensures forall i :: 0 <= i < |r| ==>
              r[i].1 == |Select(objs, CategoryOf, r[i].0)| && r[i].1 >= 1
    ensures forall i, j :: 0 <= i < j < |r| ==> r[i].0 != r[j].0
    ensures forall c :: Select(objs, CategoryOf, c) != [] && (forall i :: 0 <= i < |r| ==> r[i].0 != c) ==>
              |r| == 5 && |Select(objs, CategoryOf, c)| <= r[4].1
    ensures r == Take(MostCommon(CategoryCounter(objs)), 5)
  {
    TopRanked(objs);
    TopComplete(objs);
    Take(MostCommon(CategoryCounter(objs)), 5)
  }

  /** The first five of `most_common()` are ranked, distinct and counted. */
  lemma TopRanked(objs: seq<ObjectionRecord>)
    ensures var r := Take(MostCommon(CategoryCounter(objs)), 5);
      SortedDesc(r, CountOf)
      && (forall i :: 0 <= i < |r| ==> r[i].1 == |Select(objs, CategoryOf, r[i].0)| && r[i].1 >= 1)
      && (forall i, j :: 0 <= i < j < |r| ==> r[i].0 != r[j].0)
  {
    var d := CategoryCounter(objs);
    Counted(objs, CategoryOf);
    TakeRanked(d, 5);
  }

  /** The first `n` of `most_common()` are ranked and distinct, each with its count. */
  lemma TakeRanked(d: Dict<nat>, n: nat)
    requires Valid(d)
    ensures var r := Take(MostCommon(d), n);
      SortedDesc(r, CountOf)
      && (forall i :: 0 <= i < |r| ==> r[i].0 in d.at && r[i].1 == d.at[r[i].0])
      && (forall i, j :: 0 <= i < j < |r| ==> r[i].0 != r[j].0)
  {
    var all := MostCommon(d);
    MostCommonItems(d);
    var r := Take(all, n);
    assert forall i :: 0 <= i < |r| ==> r[i] == all[i];
  }

  /** Every category left out of the first five is counted no more often than the fifth. */
  lemma TopComplete(objs: seq<ObjectionRecord>)
    ensures var r := Take(MostCommon(CategoryCounter(objs)), 5);
      forall c :: Select(objs, CategoryOf, c) != [] && (forall i :: 0 <= i < |r| ==> r[i].0 != c) ==>
        |r| == 5 && |Select(objs, CategoryOf, c)| <= r[4].1
  {
    var r := Take(MostCommon(CategoryCounter(objs)), 5);
    forall c | Select(objs, CategoryOf, c) != [] && (forall i :: 0 <= i < |r| ==> r[i].0 != c)
      ensures |r| == 5 && |Select(objs, CategoryOf, c)| <= r[4].1
    {
      TopMissing(objs, c);
    }
  }

  lemma TopMissing(objs: seq<ObjectionRecord>, c: string)
    requires Select(objs, CategoryOf, c) != []
    requires forall i :: 0 <= i < |Take(MostCommon(CategoryCounter(objs)), 5)| ==>
               Take(MostCommon(CategoryCounter(objs)), 5)[i].0 != c
    ensures |Take(MostCommon(CategoryCounter(objs)), 5)| == 5
    ensures |Select(objs, CategoryOf, c)| <= Take(MostCommon(CategoryCounter(objs)), 5)[4].1
  {
    Counted(objs, CategoryOf);
    TopLeftOut(CategoryCounter(objs), 5, c);
  }

  /** A key missing from the first `n` of `most_common()` is there because all
      `n` places went to keys counted at least as often. */
  lemma TopLeftOut(d: Dict<nat>, n: nat, k: string)
    requires Valid(d) && k in d.at && 0 < n
    requires forall i :: 0 <= i < |Take(MostCommon(d), n)| ==> Take(MostCommon(d), n)[i].0 != k
    ensures |Take(MostCommon(d), n)| == n && d.at[k] <= Take(MostCommon(d), n)[n - 1].1
  {
    var all := MostCommon(d);
    var r := Take(all, n);
    var j := RankOf(d, k);
    if j < |r| {
      assert false;
    }
    assert r[n - 1] == all[n - 1];
    assert CountOf(all[n - 1]) >= CountOf(all[j]);
  }

  /** Where a key of a valid counter sits in `most_common()`. */
  lemma RankOf(d: Dict<nat>, k: string) returns (j: nat)
    requires Valid(d) && k in d.at
    ensures j < |MostCommon(d)| && MostCommon(d)[j] == (k, d.at[k])
  {
    var i :| 0 <= i < |d.keys| && d.keys[i] == k;
    assert Items(d)[i] == (k, d.at[k]);
    assert (k, d.at[k]) in multiset(MostCommon(d));
    j :| 0 <= j < |MostCommon(d)| && MostCommon(d)[j] == (k, d.at[k]);
  }

  /** The `by_category` entry of category `cat` seen `count` times. */
  function Stat(fs: seq<Found>, cat: string, count: nat): CategoryStat {
    CategoryStat(count, Avg(Select(Objs(fs), PositionOf, cat)), Rate(Select(fs, OutcomeOf, cat)))
  }

  function StatCount(p: (string, CategoryStat)): int { p.1.count }

  function ByCategory(fs: seq<Found>): seq<(string, CategoryStat)> {
    var ranked := MostCommon(CategoryCounter(Objs(fs)));
    seq(|ranked|, i requires 0 <= i < |ranked| => (ranked[i].0, Stat(fs, ranked[i].0, ranked[i].1)))
  }

  /** `objections_by_rep` reduced to each rep's five most common categories. */
  function ByRep(fs: seq<Found>): Dict<seq<(string, nat)>> {
    var groups := Collect(fs, RepOf, [], Append);
    Dict(groups.keys, map k | k in groups.at :: TopCategories(groups.at[k]))
  }

  function CallsWithObjections(calls: seq<Call>): (r: nat)
    ensures r <= |calls|
  {
    if calls == [] then 0
    else CallsWithObjections(Init(calls)) + if Last(calls).objectionsFound != [] then 1 else 0
  }

  /** The report `analyze_objections` returns. */
  function ObjectionReportOf(calls: seq<Call>): ObjectionReport {
    var fs := Flat(calls);
    ObjectionReport(|fs|, CallsWithObjections(calls), ByCategory(fs), ByRep(fs))
  }

  /** `sum(len(c.objections_found) for c in calls)`. */
  function TotalFound(calls: seq<Call>): nat
    decreases |calls|
  {
    if calls == [] then 0 else TotalFound(Init(calls)) + |Last(calls).objectionsFound|
  }

  lemma {:induction false} FlatSize(calls: seq<Call>)
    ensures |Flat(calls)| == TotalFound(calls)
    ensures CallsWithObjections(calls) <= TotalFound(calls)
    decreases |calls|
  {
    if calls != [] {
      FlatSize(Init(calls));
    }
  }

  /** The total counts every objection of every call, and a call with objections
      contributes at least one. */
  lemma TotalsReconcile(calls: seq<Call>)
    ensures ObjectionReportOf(calls).totalObjectionsDetected == TotalFound(calls)
    ensures ObjectionReportOf(calls).callsWithObjections <= ObjectionReportOf(calls).totalObjectionsDetected
    ensures ObjectionReportOf(calls).callsWithObjections <= |calls|
  {
    FlatSize(calls);
  }

  /** The three per-category lists are filled from the same objections, so they
      have the same length for every category. */
  lemma {:induction false} SameCategoryCounts(fs: seq<Found>, cat: string)
    ensures |Select(Objs(fs), PositionOf, cat)| == |Select(Objs(fs), CategoryOf, cat)|
    ensures |Select(fs, OutcomeOf, cat)| == |Select(Objs(fs), CategoryOf, cat)|
    decreases |fs|
  {
    if fs != [] {
      assert Init(Objs(fs)) == Objs(Init(fs));
      SameCategoryCounts(Init(fs), cat);
    }
  }

  /** Positions taken from objections that lie in [0, 100] lie in [0, 100]. */
  lemma {:induction false} PositionsWithin(fs: seq<Found>, cat: string)
    requires forall i :: 0 <= i < |fs| ==> 0.0 <= fs[i].obj.positionPct <= 100.0
    ensures Within(Select(Objs(fs), PositionOf, cat), 0.0, 100.0)
    decreases |fs|
  {
    if fs != [] {
      assert Init(Objs(fs)) == Objs(Init(fs));
      PositionsWithin(Init(fs), cat);
    }
  }

  /** Every category row: the category was seen `count >= 1` times, it has as many
      positions and outcomes as that, its conversion rate is a percentage, and so
      is its average position when every position is. */
  lemma CategoryRow(fs: seq<Found>, i: nat)
    requires i < |ByCategory(fs)|
    ensures var (cat, st) := ByCategory(fs)[i];
            st.count >= 1
            && st.count == |Select(Objs(fs), CategoryOf, cat)|
            && |Select(Objs(fs), PositionOf, cat)| == st.count
            && |Select(fs, OutcomeOf, cat)| == st.count
            && 0.0 <= st.conversionRateWhenPresent <= 100.0
            && ((forall j :: 0 <= j < |fs| ==> 0.0 <= fs[j].obj.positionPct <= 100.0) ==>
                  0.0 <= st.avgPositionInCallPct <= 100.0)
  {
    var d := CategoryCounter(Objs(fs));
    Counted(Objs(fs), CategoryOf);
    MostCommonItems(d);
    var (cat, st) := ByCategory(fs)[i];
    SameCategoryCounts(fs, cat);
    if forall j :: 0 <= j < |fs| ==> 0.0 <= fs[j].obj.positionPct <= 100.0 {
      PositionsWithin(fs, cat);
      AvgPercent(Select(Objs(fs), PositionOf, cat));
    }
  }

  /** Categories appear once each, most frequent first. */
  lemma ByCategoryRanked(fs: seq<Found>)
    ensures SortedDesc(ByCategory(fs), StatCount)
    ensures forall i, j :: 0 <= i < j < |ByCategory(fs)| ==> ByCategory(fs)[i].0 != ByCategory(fs)[j].0
  {
    var d := CategoryCounter(Objs(fs));
    Counted(Objs(fs), CategoryOf);
    MostCommonItems(d);
  }

  lemma {:induction false} SumScoreSame(s: seq<(string, nat)>, t: seq<(string, CategoryStat)>)
    requires |s| == |t| && forall i :: 0 <= i < |s| ==> StatCount(t[i]) == CountOf(s[i])
    ensures SumScore(t, StatCount) == SumScore(s, CountOf)
  {
    if s != [] {
      SumScoreSame(s[1..], t[1..]);
    }
  }

  lemma {:induction false} KeyedAll(os: seq<ObjectionRecord>)
    ensures Keyed(os, CategoryOf) == |os|
    decreases |os|
  {
    if os != [] {
      KeyedAll(Init(os));
    }
  }

  /** The category counts add up to the total number of objections. */
  lemma CategoryCountsTotal(calls: seq<Call>)
    ensures SumScore(ObjectionReportOf(calls).byCategory, StatCount) == ObjectionReportOf(calls).totalObjectionsDetected
  {
    var fs := Flat(calls);
    var d := CategoryCounter(Objs(fs));
    MostCommonSum(d);
    CountedTotal(Objs(fs), CategoryOf);
    KeyedAll(Objs(fs));
    SumScoreSame(MostCommon(d), ByCategory(fs));
  }

  /** `by_rep` has a row for exactly the reps (non-empty names) with objections,
      holding that rep's top categories. */
  lemma ByRepRows(fs: seq<Found>)
    ensures forall k :: k in ByRep(fs).at <==> Select(fs, RepOf, k) != []
    ensures forall k :: k in ByRep(fs).at ==> ByRep(fs).at[k] == TopCategories(Select(fs, RepOf, k))
    ensures Distinct(ByRep(fs).keys) && forall k :: k in ByRep(fs).at <==> k in ByRep(fs).keys
  {
    Grouped(fs, RepOf);
  }

  /** Filing one objection `x`: into its rep's list when the call has a rep, and
      its call's outcome into its category's list. */
  method FileObjection(byRep: Dict<seq<ObjectionRecord>>, handled: Dict<seq<bool>>, x: Found)
    returns (byRep': Dict<seq<ObjectionRecord>>, handled': Dict<seq<bool>>)
    ensures byRep' == Step(byRep, RepOf, [], Append, x)
    ensures handled' == Step(handled, OutcomeOf, [], Append, x)
  {
    byRep' := byRep;
    if Truthy(x.rep) {
      byRep' := AppendAt(byRep, x.rep.value, x.obj);
    }
    handled' := AppendAt(handled, x.obj.category, x.converted);
  }

  /** The inner loop of the first loop of `analyze_objections`, over the
      objections of one call `c`, after the objections `done` have been filed. */
  method GatherCall(all: seq<ObjectionRecord>, byRep: Dict<seq<ObjectionRecord>>, handled: Dict<seq<bool>>,
                    c: Call, ghost done: seq<Found>)
    returns (all': seq<ObjectionRecord>, byRep': Dict<seq<ObjectionRecord>>, handled': Dict<seq<bool>>)
    requires all == Objs(done)
    requires byRep == Collect(done, RepOf, [], Append)
    requires handled == Collect(done, OutcomeOf, [], Append)
    ensures all' == Objs(done + FoundIn(c))
    ensures byRep' == Collect(done + FoundIn(c), RepOf, [], Append)
    ensures handled' == Collect(done + FoundIn(c), OutcomeOf, [], Append)
  {
    ghost var fs := FoundIn(c);
    all', byRep', handled' := all, byRep, handled;
    assert done + fs[..0] == done;
    for j := 0 to |c.objectionsFound|
      invariant all' == Objs(done + fs[..j])
      invariant byRep' == Collect(done + fs[..j], RepOf, [], Append)
      invariant handled' == Collect(done + fs[..j], OutcomeOf, [], Append)
    {
      var x := Found(c.objectionsFound[j], c.rep, c.converted);
      assert x == fs[j];
      GatherStep(done, fs, j);
      all' := all' + [x.obj];
      byRep', handled' := FileObjection(byRep', handled', x);
    }
    assert fs[..|fs|] == fs;
  }

  /** Filing the next objection `fs[j]` extends the three collections by it. */
  lemma GatherStep(done: seq<Found>, fs: seq<Found>, j: nat)
    requires j < |fs|
    ensures Objs(done + fs[..j + 1]) == Objs(done + fs[..j]) + [fs[j].obj]
    ensures Collect(done + fs[..j + 1], RepOf, [], Append) == Step(Collect(done + fs[..j], RepOf, [], Append), RepOf, [], Append, fs[j])
    ensures Collect(done + fs[..j + 1], OutcomeOf, [], Append) == Step(Collect(done + fs[..j], OutcomeOf, [], Append), OutcomeOf, [], Append, fs[j])
  {
    var xs := done + fs[..j];
    assert done + fs[..j + 1] == xs + [fs[j]];
    CollectSnoc(xs, fs[j], RepOf, [], Append);
    CollectSnoc(xs, fs[j], OutcomeOf, [], Append);
    ObjsSnoc(xs, fs[j]);
  }

  lemma ObjsSnoc(fs: seq<Found>, x: Found)
    ensures Objs(fs + [x]) == Objs(fs) + [x.obj]
  {
  }

  /** The first loop of `analyze_objections`: every objection of every call goes
      into `all_objections`, into its rep's list when the call has a rep, and its
      call's outcome into its category's list. */
  method GatherObjections(calls: seq<Call>)
    returns (all: seq<ObjectionRecord>, byRep: Dict<seq<ObjectionRecord>>, handled: Dict<seq<bool>>)
    ensures all == Objs(Flat(calls))
    ensures byRep == Collect(Flat(calls), RepOf, [], Append)
    ensures handled == Collect(Flat(calls), OutcomeOf, [], Append)
  {
    all, byRep, handled := [], Empty(), Empty();
    assert calls[..0] == [];
    for i := 0 to |calls|
      invariant all == Objs(Flat(calls[..i]))
      invariant byRep == Collect(Flat(calls[..i]), RepOf, [], Append)
      invariant handled == Collect(Flat(calls[..i]), OutcomeOf, [], Append)
    {
      assert Init(calls[..i + 1]) == calls[..i] && Last(calls[..i + 1]) == calls[i];
      all, byRep, handled := GatherCall(all, byRep, handled, calls[i], Flat(calls[..i]));
    }
    assert calls[..|calls|] == calls;
  }

  /** The `avg_position` loop: each objection's position under its category. */
  method PositionLists(all: seq<ObjectionRecord>) returns (positions: Dict<seq<real>>)
    ensures positions == Collect(all, PositionOf, [], Append)
  {
    positions := Empty();
    assert all[..0] == [];
    for i := 0 to |all|
      invariant positions == Collect(all[..i], PositionOf, [], Append)
    {
      var o := all[i];
      assert all[..i + 1] == all[..i] + [o];
      CollectSnoc(all[..i], o, PositionOf, [], Append);
      positions := AppendAt(positions, o.category, o.positionPct);
    }
    assert all[..|all|] == all;
  }

  /** The `by_category` comprehension over `overall_freq.most_common()`. */
  method CategoryRows(calls: seq<Call>, all: seq<ObjectionRecord>, positions: Dict<seq<real>>, handled: Dict<seq<bool>>)
    returns (rows: seq<(string, CategoryStat)>)
    requires all == Objs(Flat(calls))
    requires positions == Collect(all, PositionOf, [], Append)
    requires handled == Collect(Flat(calls), OutcomeOf, [], Append)
    ensures rows == ByCategory(Flat(calls))
  {
    ghost var fs := Flat(calls);
    var ranked := MostCommon(CategoryCounter(all));
    forall i | 0 <= i < |ranked|
      ensures RowReads(ranked, positions, handled, ByCategory(fs), i)
    {
      RowFromLists(fs, all, positions, handled, ranked, i);
    }
    assert |ByCategory(fs)| == |ranked|;
    rows := FillRows(ranked, positions, handled, ByCategory(fs));
  }

  /** Row `i` of `target` is the row built from the `i`-th ranked category and
      its lists. */
  ghost predicate RowReads(ranked: seq<(string, nat)>, positions: Dict<seq<real>>, handled: Dict<seq<bool>>,
                           target: seq<(string, CategoryStat)>, i: nat)
    requires i < |ranked|
  {
    var cat := ranked[i].0;
    cat in positions.at && positions.at[cat] != [] && i < |target|
    && target[i] == (cat, CategoryStat(ranked[i].1, Round1(Mean(positions.at[cat])),
                                       Rate(if cat in handled.at then handled.at[cat] else [])))
  }

  /** The loop of the `by_category` comprehension. */
  method FillRows(ranked: seq<(string, nat)>, positions: Dict<seq<real>>, handled: Dict<seq<bool>>,
                  ghost target: seq<(string, CategoryStat)>)
    returns (rows: seq<(string, CategoryStat)>)
    requires |target| == |ranked|
    requires forall i :: 0 <= i < |ranked| ==> RowReads(ranked, positions, handled, target, i)
    ensures rows == target
  {
    rows := [];
    for i := 0 to |ranked|
      invariant |rows| == i
      invariant forall j :: 0 <= j < i ==> rows[j] == target[j]
    {
      assert RowReads(ranked, positions, handled, target, i);
      var cat, count := ranked[i].0, ranked[i].1;
      var ps := positions.at[cat];
      var hs := if cat in handled.at then handled.at[cat] else [];
      rows := rows + [(cat, CategoryStat(count, Round1(Mean(ps)), Rate(hs)))];
    }
  }

  /** Row `i` of `by_category` read off the filled lists: the category's
      positions, never empty, give the average, and its outcomes, empty when it
      has none, give the conversion rate. */
  lemma RowFromLists(fs: seq<Found>, all: seq<ObjectionRecord>, positions: Dict<seq<real>>, handled: Dict<seq<bool>>,
                     ranked: seq<(string, nat)>, i: nat)
    requires all == Objs(fs)
    requires positions == Collect(all, PositionOf, [], Append)
    requires handled == Collect(fs, OutcomeOf, [], Append)
    requires ranked == MostCommon(CategoryCounter(all)) && i < |ranked|
    ensures var cat := ranked[i].0;
            cat in positions.at && positions.at[cat] != []
            && i < |ByCategory(fs)|
            && ByCategory(fs)[i]
               == (cat, CategoryStat(ranked[i].1, Round1(Mean(positions.at[cat])),
                                     Rate(if cat in handled.at then handled.at[cat] else [])))
  {
    var cat := ranked[i].0;
    assert ByCategory(fs)[i] == (cat, Stat(fs, cat, ranked[i].1));
    CategoryRow(fs, i);
    GroupedAt(all, PositionOf, cat);
    GroupedAt(fs, OutcomeOf, cat);
  }

  /** The `by_rep` comprehension: each rep's five most common categories. */
  method RankByRep(groups: Dict<seq<ObjectionRecord>>) returns (d: Dict<seq<(string, nat)>>)
    requires forall k :: k in groups.at <==> k in groups.keys
    ensures d == Dict(groups.keys, map k | k in groups.at :: TopCategories(groups.at[k]))
  {
    ghost var target := map k | k in groups.at :: TopCategories(groups.at[k]);
    var at: map<string, seq<(string, nat)>> := map[];
    FillStart(groups.keys, target);
    for j := 0 to |groups.keys|
      invariant FilledUpTo(groups.keys, target, at, j)
    {
      var rep := groups.keys[j];
      var top := TopCategories(groups.at[rep]);
      FillStep(groups.keys, target, at, j, top);
      at := at[rep := top];
    }
    FillDone(groups.keys, target, at);
    d := Dict(groups.keys, at);
  }

  /** `analyze_objections`. */
  method AnalyzeObjections(calls: seq<Call>) returns (report: ObjectionReport)
    ensures report == ObjectionReportOf(calls)
  {
    var all, byRep, handled := GatherObjections(calls);
    var positions := PositionLists(all);
    var rows := CategoryRows(calls, all, positions, handled);
    Grouped(Flat(calls), RepOf);
    var ranked := RankByRep(byRep);
    report := ObjectionReport(|all|, CallsWithObjections(calls), rows, ranked);
  }
}
