/**
 * Python's insertion-ordered dictionaries as the analysis uses them:
 * `defaultdict` and `Counter` filled by a loop, one entry per input element.
 *
 * `Collect(xs, entry, init, f)` is the dictionary such a loop leaves behind: for
 * each `x` in order, when `entry(x)` is `Some((k, e))`, it performs
 * `d[k] = f(d[k], e)` with `d[k]` defaulting to `init`.
 */
module Dicts {
  import opened Options
  import opened Ranking

  /** `keys` lists the keys in the order they were first inserted. */
  datatype Dict<V> = Dict(keys: seq<string>, at: map<string, V>)

  ghost predicate Distinct(ks: seq<string>) {
    forall i, j :: 0 <= i < j < |ks| ==> ks[i] != ks[j]
  }

  ghost predicate Valid<V>(d: Dict<V>) {
    Distinct(d.keys) && forall k :: k in d.at <==> k in d.keys
  }

  function Empty<V>(): Dict<V> {
    Dict([], map[])
  }

  /** `d[k] = f(d[k], e)` on a `defaultdict` whose default is `init`. */
  function Upsert<V, E>(d: Dict<V>, k: string, init: V, f: (V, E) -> V, e: E): (r: Dict<V>)
    ensures Valid(d) ==> Valid(r)
  {
    if k in d.at then Dict(d.keys, d.at[k := f(d.at[k], e)])
    else Dict(d.keys + [k], d.at[k := f(init, e)])
  }

  /** `d[k] = f(d[k], e)` stores the new value under `k`, leaves every other
      key alone, and appends `k` to the key order only when it is new. */
  lemma UpsertSpec<V, E>(d: Dict<V>, k: string, init: V, f: (V, E) -> V, e: E)
    ensures var r := Upsert(d, k, init, f, e);
      k in r.at && r.at[k] == f(if k in d.at then d.at[k] else init, e)
      && (forall j :: j in r.at ==> j == k || j in d.at)
      && (forall j :: j != k && j in d.at ==> j in r.at && r.at[j] == d.at[j])
      && r.keys == if k in d.at then d.keys else d.keys + [k]
  {
  }

  function Last<T>(xs: seq<T>): T requires xs != [] { xs[|xs| - 1] }
  function Init<T>(xs: seq<T>): seq<T> requires xs != [] { xs[..|xs| - 1] }

  /** The dictionary left by the loop over `xs`. */
  function Collect<T, E, V>(xs: seq<T>, entry: T -> Option<(string, E)>, init: V, f: (V, E) -> V): Dict<V>
    decreases |xs|
  {
    if xs == [] then Empty() else Step(Collect(Init(xs), entry, init, f), entry, init, f, Last(xs))
  }

  /** One iteration of the loop, for element `x`. */
  function Step<T, E, V>(d: Dict<V>, entry: T -> Option<(string, E)>, init: V, f: (V, E) -> V, x: T): Dict<V> {
    match entry(x)
    case None => d
    case Some(p) => Upsert(d, p.0, init, f, p.1)
  }

  lemma CollectSnoc<T, E, V>(xs: seq<T>, x: T, entry: T -> Option<(string, E)>, init: V, f: (V, E) -> V)
    ensures Collect(xs + [x], entry, init, f) == Step(Collect(xs, entry, init, f), entry, init, f, x)
  {
    assert Init(xs + [x]) == xs && Last(xs + [x]) == x;
  }

  /** `d[k].append(e)` on a `defaultdict(list)`, in place. */
  method AppendAt<E>(d: Dict<seq<E>>, k: string, e: E) returns (r: Dict<seq<E>>)
    ensures r == Upsert(d, k, [], Append, e)
  {
    if k in d.at {
      r := Dict(d.keys, d.at[k := d.at[k] + [e]]);
    } else {
      assert Append([], e) == [e];
      r := Dict(d.keys + [k], d.at[k := [e]]);
    }
  }

  /** The values filed under key `k`, in input order. */
  function Select<T, E>(xs: seq<T>, entry: T -> Option<(string, E)>, k: string): seq<E>
    decreases |xs|
  {
    if xs == [] then []
    else
      var rest := Select(Init(xs), entry, k);
      match entry(Last(xs))
      case Some(p) => if p.0 == k then rest + [p.1] else rest
      case None => rest
  }

  /** The number of elements that produce an entry at all. */
  function Keyed<T, E>(xs: seq<T>, entry: T -> Option<(string, E)>): nat
    decreases |xs|
  {
    if xs == [] then 0
    else Keyed(Init(xs), entry) + if entry(Last(xs)).Some? then 1 else 0
  }

  /** `f` applied left to right, starting from `init`. */
  function FoldL<E, V>(f: (V, E) -> V, init: V, es: seq<E>): V
    decreases |es|
  {
    if es == [] then init else f(FoldL(f, init, Init(es)), Last(es))
  }

  /** The loop's dictionary holds exactly the keys that occur, each mapped to the
      fold of its own values: what one `d[k] = f(d[k], e)` per element amounts to. */
  lemma {:induction false} CollectSpec<T, E, V>(xs: seq<T>, entry: T -> Option<(string, E)>, init: V, f: (V, E) -> V)
    ensures Valid(Collect(xs, entry, init, f))
    ensures forall k :: k in Collect(xs, entry, init, f).at <==> Select(xs, entry, k) != []
    ensures forall k :: k in Collect(xs, entry, init, f).at ==>
              Collect(xs, entry, init, f).at[k] == FoldL(f, init, Select(xs, entry, k))
  {
    if xs != [] {
      CollectSpec(Init(xs), entry, init, f);
      SpecStep(xs, entry, init, f, Collect(Init(xs), entry, init, f));
    }
  }

  /** One iteration keeps the dictionary equal to the folds of the selections. */
  lemma SpecStep<T, E, V>(xs: seq<T>, entry: T -> Option<(string, E)>, init: V, f: (V, E) -> V, d: Dict<V>)
    requires xs != [] && Valid(d)
    requires forall k :: k in d.at <==> Select(Init(xs), entry, k) != []
    requires forall k :: k in d.at ==> d.at[k] == FoldL(f, init, Select(Init(xs), entry, k))
    ensures Valid(Step(d, entry, init, f, Last(xs)))
    ensures forall k :: k in Step(d, entry, init, f, Last(xs)).at <==> Select(xs, entry, k) != []
    ensures forall k :: k in Step(d, entry, init, f, Last(xs)).at ==>
              Step(d, entry, init, f, Last(xs)).at[k] == FoldL(f, init, Select(xs, entry, k))
  {
    match entry(Last(xs))
    case None =>
      assert forall k :: Select(xs, entry, k) == Select(Init(xs), entry, k);
    case Some(p) =>
      var k0, e := p.0, p.1;
      var d1 := Upsert(d, k0, init, f, e);
      var s0 := Select(Init(xs), entry, k0);
      assert Select(xs, entry, k0) == s0 + [e];
      assert Init(s0 + [e]) == s0;
      assert FoldL(f, init, s0 + [e]) == f(FoldL(f, init, s0), e);
      forall k | k != k0
        ensures (k in d1.at <==> Select(xs, entry, k) != [])
        ensures k in d1.at ==> d1.at[k] == FoldL(f, init, Select(xs, entry, k))
      {
        assert Select(xs, entry, k) == Select(Init(xs), entry, k);
      }
  }

  /** The loop's dictionary is well formed, and holds a key exactly when some
      element files a value under it. */
  lemma CollectKey<T, E, V>(xs: seq<T>, entry: T -> Option<(string, E)>, init: V, f: (V, E) -> V, k: string)
    ensures Valid(Collect(xs, entry, init, f))
    ensures k in Collect(xs, entry, init, f).at <==> Select(xs, entry, k) != []
  {
    CollectSpec(xs, entry, init, f);
  }

  /** The loop's dictionary lists each key once, and exactly its map's keys. */
  lemma CollectValid<T, E, V>(xs: seq<T>, entry: T -> Option<(string, E)>, init: V, f: (V, E) -> V)
    ensures Valid(Collect(xs, entry, init, f))
  {
    CollectSpec(xs, entry, init, f);
  }

  /** A key of the loop's dictionary has values, and holds their fold. */
  lemma CollectAt<T, E, V>(xs: seq<T>, entry: T -> Option<(string, E)>, init: V, f: (V, E) -> V, k: string)
    requires k in Collect(xs, entry, init, f).at
    ensures Select(xs, entry, k) != []
    ensures Collect(xs, entry, init, f).at[k] == FoldL(f, init, Select(xs, entry, k))
  {
    CollectSpec(xs, entry, init, f);
  }

  /** Total size of the value lists of the keys `ks`. */
  function SumSizes<T, E>(ks: seq<string>, xs: seq<T>, entry: T -> Option<(string, E)>): int
    decreases |ks|
  {
    if ks == [] then 0 else SumSizes(Init(ks), xs, entry) + |Select(xs, entry, Last(ks))|
  }

  lemma {:induction false} SumSizesSnoc<T, E>(ks: seq<string>, xs: seq<T>, x: T, entry: T -> Option<(string, E)>)
    requires Distinct(ks)
    ensures SumSizes(ks, xs + [x], entry)
         == SumSizes(ks, xs, entry) + if entry(x).Some? && entry(x).value.0 in ks then 1 else 0
    decreases |ks|
  {
    assert Init(xs + [x]) == xs && Last(xs + [x]) == x;
    if ks != [] {
      assert Distinct(Init(ks));
      SumSizesSnoc(Init(ks), xs, x, entry);
      assert ks == Init(ks) + [Last(ks)];
    }
  }

  lemma {:induction false} SumSizesNoEntries<T, E>(ks: seq<string>, xs: seq<T>, entry: T -> Option<(string, E)>)
    requires forall k <- ks :: Select(xs, entry, k) == []
    ensures SumSizes(ks, xs, entry) == 0
    decreases |ks|
  {
    if ks != [] {
      SumSizesNoEntries(Init(ks), xs, entry);
    }
  }

  /** Every element that produces an entry is filed under exactly one key. */
  lemma {:induction false} CollectCovers<T, E, V>(xs: seq<T>, entry: T -> Option<(string, E)>, init: V, f: (V, E) -> V)
    ensures SumSizes(Collect(xs, entry, init, f).keys, xs, entry) == Keyed(xs, entry)
    decreases |xs|
  {
    if xs != [] {
      var xs', x := Init(xs), Last(xs);
      assert xs == xs' + [x];
      CollectCovers(xs', entry, init, f);
      CoversStep(xs', x, entry, init, f);
    }
  }

  /** One more element keeps every keyed element filed under exactly one key. */
  lemma CoversStep<T, E, V>(xs: seq<T>, x: T, entry: T -> Option<(string, E)>, init: V, f: (V, E) -> V)
    requires SumSizes(Collect(xs, entry, init, f).keys, xs, entry) == Keyed(xs, entry)
    ensures SumSizes(Collect(xs + [x], entry, init, f).keys, xs + [x], entry) == Keyed(xs + [x], entry)
  {
    var d := Collect(xs, entry, init, f);
    var ys := xs + [x];
    assert Init(ys) == xs && Last(ys) == x;
    assert Keyed(ys, entry) == Keyed(xs, entry) + if entry(x).Some? then 1 else 0;
    match entry(x)
    case None =>
      CollectKey(xs, entry, init, f, "");
      SumSizesSnoc(d.keys, xs, x, entry);
    case Some(p) =>
      CollectKey(xs, entry, init, f, p.0);
      SumSizesSnoc(d.keys, xs, x, entry);
      if p.0 in d.at {
        assert p.0 in d.keys;
        assert Collect(ys, entry, init, f).keys == d.keys;
      } else {
        assert p.0 !in d.keys;
        var ks := d.keys + [p.0];
        assert Collect(ys, entry, init, f).keys == ks;
        assert Init(ks) == d.keys && Last(ks) == p.0;
        assert Select(xs, entry, p.0) == [];
        assert Select(ys, entry, p.0) == [p.1];
      }
  }

  /** Sum of a measure `g` of the values stored under the keys `ks`. */
  function SumMeasure<V>(ks: seq<string>, at: map<string, V>, g: V -> int): int
    requires forall k <- ks :: k in at
    decreases |ks|
  {
    if ks == [] then 0 else SumMeasure(Init(ks), at, g) + g(at[Last(ks)])
  }

  /** When the measure of a fold counts the folded values, the measures of the
      loop's dictionary add up to the number of elements that produced an entry. */
  lemma CollectMeasure<T, E, V>(xs: seq<T>, entry: T -> Option<(string, E)>, init: V, f: (V, E) -> V, g: V -> int)
    requires forall es: seq<E> :: g(FoldL(f, init, es)) == |es|
    ensures forall k <- Collect(xs, entry, init, f).keys :: k in Collect(xs, entry, init, f).at
    ensures SumMeasure(Collect(xs, entry, init, f).keys, Collect(xs, entry, init, f).at, g) == Keyed(xs, entry)
  {
    CollectSpec(xs, entry, init, f);
    CollectCovers(xs, entry, init, f);
    var d := Collect(xs, entry, init, f);
    MeasureIsSize(d.keys, d.at, xs, entry, init, f, g);
  }

  lemma {:induction false} MeasureIsSize<T, E, V>(ks: seq<string>, at: map<string, V>, xs: seq<T>, entry: T -> Option<(string, E)>, init: V, f: (V, E) -> V, g: V -> int)
    requires forall k <- ks :: k in at && at[k] == FoldL(f, init, Select(xs, entry, k))
    requires forall es: seq<E> :: g(FoldL(f, init, es)) == |es|
    ensures SumMeasure(ks, at, g) == SumSizes(ks, xs, entry)
    decreases |ks|
  {
    if ks != [] {
      MeasureIsSize(Init(ks), at, xs, entry, init, f, g);
    }
  }

  /** `d.items()` in insertion order. */
  function Items<V>(d: Dict<V>): (r: seq<(string, V)>)
    requires forall k <- d.keys :: k in d.at
    ensures |r| == |d.keys|
    ensures forall i :: 0 <= i < |r| ==> r[i] == (d.keys[i], d.at[d.keys[i]])
  {
    seq(|d.keys|, i requires 0 <= i < |d.keys| => (d.keys[i], d.at[d.keys[i]]))
  }

  function CountOf(p: (string, nat)): int { p.1 }

  /** `counter.most_common()`: the items by descending count, ties in insertion order. */
  function MostCommon(d: Dict<nat>): (r: seq<(string, nat)>)
    requires forall k <- d.keys :: k in d.at
    ensures SortedDesc(r, CountOf)
    ensures multiset(r) == multiset(Items(d))
    ensures forall c :: WithScore(r, CountOf, c) == WithScore(Items(d), CountOf, c)
  {
    var r := SortDesc(Items(d), CountOf);
    forall c ensures WithScore(r, CountOf, c) == WithScore(Items(d), CountOf, c) {
      SortDescStable(Items(d), CountOf, c);
    }
    r
  }

  lemma {:induction false} ItemsSum(ks: seq<string>, at: map<string, nat>)
    requires forall k <- ks :: k in at
    ensures SumScore(Items(Dict(ks, at)), CountOf) == SumMeasure(ks, at, n => n)
    decreases |ks|
  {
    if ks != [] {
      var d, d' := Dict(ks, at), Dict(Init(ks), at);
      ItemsSum(Init(ks), at);
      ItemsSnocSum(Items(d'), (Last(ks), at[Last(ks)]));
      assert Items(d) == Items(d') + [(Last(ks), at[Last(ks)])];
    }
  }

  lemma {:induction false} ItemsSnocSum(s: seq<(string, nat)>, p: (string, nat))
    ensures SumScore(s + [p], CountOf) == SumScore(s, CountOf) + p.1
  {
    if s != [] {
      assert (s + [p])[1..] == s[1..] + [p];
      ItemsSnocSum(s[1..], p);
    }
  }

  /** The counts listed by `most_common()` add up to the counter's total. */
  lemma MostCommonSum(d: Dict<nat>)
    requires forall k <- d.keys :: k in d.at
    ensures SumScore(MostCommon(d), CountOf) == SumMeasure(d.keys, d.at, n => n)
  {
    SortDescSum(Items(d), CountOf);
    ItemsSum(d.keys, d.at);
  }

  /** `d[k].append(e)` on a `defaultdict(list)`. */
  function Append<E>(s: seq<E>, e: E): seq<E> { s + [e] }

  /** `d[k] += 1` on a `Counter`. */
  function Inc<E>(n: nat, e: E): nat { n + 1 }

  /** Appending one by one rebuilds the list. */
  lemma {:induction false} FoldAppend<E>(es: seq<E>)
    ensures FoldL(Append, [], es) == es
    decreases |es|
  {
    if es != [] {
      FoldAppend(Init(es));
      assert Init(es) + [Last(es)] == es;
    }
  }

  /** Counting one by one gives the number of values. */
  lemma {:induction false} FoldInc<E>(es: seq<E>)
    ensures FoldL(Inc, 0, es) == |es|
    decreases |es|
  {
    if es != [] {
      FoldInc(Init(es));
    }
  }

  /** A `defaultdict(list)` filled by the loop maps every key to its values. */
  lemma Grouped<T, E>(xs: seq<T>, entry: T -> Option<(string, E)>)
    ensures Valid(Collect(xs, entry, [], Append))
    ensures forall k :: k in Collect(xs, entry, [], Append).at <==> Select(xs, entry, k) != []
    ensures forall k :: k in Collect(xs, entry, [], Append).at ==>
              Collect(xs, entry, [], Append).at[k] == Select(xs, entry, k)
  {
    CollectSpec(xs, entry, [], Append);
    forall k | k in Collect(xs, entry, [], Append).at
      ensures Collect(xs, entry, [], Append).at[k] == Select(xs, entry, k)
    {
      FoldAppend(Select(xs, entry, k));
    }
  }

  /** Looking a key up in a filled `defaultdict(list)`, with the empty list for
      a key never seen, gives exactly that key's values. */
  lemma GroupedAt<T, E>(xs: seq<T>, entry: T -> Option<(string, E)>, k: string)
    ensures Select(xs, entry, k)
         == if k in Collect(xs, entry, [], Append).at then Collect(xs, entry, [], Append).at[k] else []
  {
    Grouped(xs, entry);
  }

  /** A `Counter` filled by the loop maps every key to its number of values. */
  lemma Counted<T, E>(xs: seq<T>, entry: T -> Option<(string, E)>)
    ensures Valid(Collect(xs, entry, 0, Inc))
    ensures forall k :: k in Collect(xs, entry, 0, Inc).at <==> Select(xs, entry, k) != []
    ensures forall k :: k in Collect(xs, entry, 0, Inc).at ==>
              Collect(xs, entry, 0, Inc).at[k] == |Select(xs, entry, k)|
  {
    CollectSpec(xs, entry, 0, Inc);
    forall k | k in Collect(xs, entry, 0, Inc).at
      ensures Collect(xs, entry, 0, Inc).at[k] == |Select(xs, entry, k)|
    {
      FoldInc(Select(xs, entry, k));
    }
  }

  /** The counts of a `Counter` filled by the loop add up to the number of
      elements that produced an entry. */
  lemma CountedTotal<T, E>(xs: seq<T>, entry: T -> Option<(string, E)>)
    ensures forall k <- Collect(xs, entry, 0, Inc).keys :: k in Collect(xs, entry, 0, Inc).at
    ensures SumMeasure(Collect(xs, entry, 0, Inc).keys, Collect(xs, entry, 0, Inc).at, n => n) == Keyed(xs, entry)
  {
    forall es: seq<E> ensures FoldL(Inc, 0, es) == |es| {
      FoldInc(es);
    }
    CollectMeasure(xs, entry, 0, Inc, n => n);
  }

  /** `d[k] += 1` on a `Counter`, in place. */
  method IncAt<E>(d: Dict<nat>, k: string, e: E) returns (r: Dict<nat>)
    ensures r == Upsert(d, k, 0, Inc, e)
  {
    if k in d.at {
      r := Dict(d.keys, d.at[k := d.at[k] + 1]);
    } else {
      r := Dict(d.keys + [k], d.at[k := 1]);
    }
  }

  /** Every value filed under `k` came from an element whose entry is `(k, e)`. */
  lemma {:induction false} SelectFrom<T, E>(xs: seq<T>, entry: T -> Option<(string, E)>, k: string)
    ensures forall e <- Select(xs, entry, k) :: exists i :: 0 <= i < |xs| && entry(xs[i]) == Some((k, e))
    decreases |xs|
  {
    if xs != [] {
      SelectFrom(Init(xs), entry, k);
      forall e <- Select(xs, entry, k)
        ensures exists i :: 0 <= i < |xs| && entry(xs[i]) == Some((k, e))
      {
        if e in Select(Init(xs), entry, k) {
          var i :| 0 <= i < |Init(xs)| && entry(Init(xs)[i]) == Some((k, e));
          assert xs[i] == Init(xs)[i];
        } else {
          assert entry(xs[|xs| - 1]) == Some((k, e));
        }
      }
    }
  }

  /** Element `x` files a value under key `k`. */
  predicate Files<T, E>(entry: T -> Option<(string, E)>, x: T, k: string) {
    entry(x).Some? && entry(x).value.0 == k
  }

  /** The index of the first element that files a value under `k`, or `|xs|`
      when none does. */
  function FirstFiled<T, E>(xs: seq<T>, entry: T -> Option<(string, E)>, k: string): (r: nat)
    ensures r <= |xs|
    ensures r < |xs| ==> Files(entry, xs[r], k)
    ensures forall i :: 0 <= i < r && i < |xs| ==> !Files(entry, xs[i], k)
    decreases |xs|
  {
    if xs == [] then 0
    else
      var p := FirstFiled(Init(xs), entry, k);
      assert forall i :: 0 <= i < |xs| - 1 ==> Init(xs)[i] == xs[i];
      if p < |xs| - 1 || Files(entry, Last(xs), k) then p else |xs|
  }

  /** A key some element files a value under has a non-empty selection. */
  lemma {:induction false} SelectHas<T, E>(xs: seq<T>, entry: T -> Option<(string, E)>, k: string, i: nat)
    requires i < |xs| && Files(entry, xs[i], k)
    ensures Select(xs, entry, k) != []
    decreases |xs|
  {
    if i < |xs| - 1 {
      assert Init(xs)[i] == xs[i];
      SelectHas(Init(xs), entry, k, i);
    }
  }

  /** The loop's dictionary lists its keys in the order of their first
      occurrence in the input: the order Python's dictionaries keep, on which
      the ranking ties and the report's key order depend. */
  lemma {:induction false} CollectOrder<T, E, V>(xs: seq<T>, entry: T -> Option<(string, E)>, init: V, f: (V, E) -> V)
    ensures forall i :: 0 <= i < |Collect(xs, entry, init, f).keys| ==>
              FirstFiled(xs, entry, Collect(xs, entry, init, f).keys[i]) < |xs|
    ensures forall i, j :: 0 <= i < j < |Collect(xs, entry, init, f).keys| ==>
              FirstFiled(xs, entry, Collect(xs, entry, init, f).keys[i])
                < FirstFiled(xs, entry, Collect(xs, entry, init, f).keys[j])
    decreases |xs|
  {
    if xs != [] {
      var xs' := Init(xs);
      CollectOrder(xs', entry, init, f);
      var d' := Collect(xs', entry, init, f);
      var ks := Collect(xs, entry, init, f).keys;
      OrderKept(xs, entry, d'.keys);
      match entry(Last(xs))
      case None =>
      case Some(p) =>
        if p.0 !in d'.at {
          CollectKey(xs', entry, init, f, p.0);
          var q := FirstFiled(xs', entry, p.0);
          if q < |xs'| {
            SelectHas(xs', entry, p.0, q);
          }
          assert ks == d'.keys + [p.0];
          AppendRanked(d'.keys, p.0, k => FirstFiled(xs, entry, k), |xs| - 1);
        }
    }
  }

  /** Keys first filed before the last element keep their first index. */
  lemma OrderKept<T, E>(xs: seq<T>, entry: T -> Option<(string, E)>, ks: seq<string>)
    requires xs != []
    requires forall i :: 0 <= i < |ks| ==> FirstFiled(Init(xs), entry, ks[i]) < |xs| - 1
    requires forall i, j :: 0 <= i < j < |ks| ==>
               FirstFiled(Init(xs), entry, ks[i]) < FirstFiled(Init(xs), entry, ks[j])
    ensures forall i :: 0 <= i < |ks| ==> FirstFiled(xs, entry, ks[i]) == FirstFiled(Init(xs), entry, ks[i])
    ensures forall i :: 0 <= i < |ks| ==> FirstFiled(xs, entry, ks[i]) < |xs|
    ensures forall i, j :: 0 <= i < j < |ks| ==> FirstFiled(xs, entry, ks[i]) < FirstFiled(xs, entry, ks[j])
  {
    forall i | 0 <= i < |ks|
      ensures FirstFiled(xs, entry, ks[i]) == FirstFiled(Init(xs), entry, ks[i])
    {
    }
  }

  /** Keys listed in increasing `pos` stay so when a key whose `pos` exceeds
      theirs is appended. */
  lemma AppendRanked(ks: seq<string>, k: string, pos: string -> int, n: int)
    requires pos(k) == n
    requires forall i :: 0 <= i < |ks| ==> pos(ks[i]) < n
    requires forall i, j :: 0 <= i < j < |ks| ==> pos(ks[i]) < pos(ks[j])
    ensures forall i :: 0 <= i < |ks + [k]| ==> pos((ks + [k])[i]) <= n
    ensures forall i, j :: 0 <= i < j < |ks + [k]| ==> pos((ks + [k])[i]) < pos((ks + [k])[j])
  {
    var ks' := ks + [k];
    forall i | 0 <= i < |ks'|
      ensures pos(ks'[i]) <= n
    {
      if i < |ks| {
        assert ks'[i] == ks[i];
      }
    }
    forall i, j | 0 <= i < j < |ks'|
      ensures pos(ks'[i]) < pos(ks'[j])
    {
      assert ks'[i] == ks[i];
      if j < |ks| {
        assert ks'[j] == ks[j];
      }
    }
  }

  /** `most_common()` lists each key of a valid counter once, with its count. */
  lemma MostCommonItems(d: Dict<nat>)
    requires Valid(d)
    ensures forall i :: 0 <= i < |MostCommon(d)| ==>
              MostCommon(d)[i].0 in d.at && MostCommon(d)[i].1 == d.at[MostCommon(d)[i].0]
    ensures forall i, j :: 0 <= i < j < |MostCommon(d)| ==> MostCommon(d)[i].0 != MostCommon(d)[j].0
  {
    PermutedItems(d, MostCommon(d));
  }

  /** A reordering of a well-formed dictionary's items lists every key once,
      with its own value. */
  lemma PermutedItems<V>(d: Dict<V>, r: seq<(string, V)>)
    requires Valid(d) && multiset(r) == multiset(Items(d))
    ensures forall i :: 0 <= i < |r| ==> r[i].0 in d.at && r[i].1 == d.at[r[i].0]
    ensures forall i, j :: 0 <= i < j < |r| ==> r[i].0 != r[j].0
  {
    var items := Items(d);
    forall i | 0 <= i < |r|
      ensures r[i].0 in d.at && r[i].1 == d.at[r[i].0]
    {
      assert r[i] in multiset(items);
    }
    forall i, j | 0 <= i < j < |r|
      ensures r[i].0 != r[j].0
    {
      if r[i].0 == r[j].0 {
        assert r[i] == r[j];
        RepeatedCount(r, i, j);
        assert forall a, b :: 0 <= a < b < |items| ==> items[a] != items[b];
        DistinctCount(items, r[i]);
        assert false;
      }
    }
  }

  /** An element at two positions occurs at least twice. */
  lemma {:induction false} RepeatedCount<T>(s: seq<T>, i: nat, j: nat)
    requires i < j < |s| && s[i] == s[j]
    ensures multiset(s)[s[i]] >= 2
  {
    assert s == s[..i] + [s[i]] + s[i + 1..j] + [s[j]] + s[j + 1..];
  }

  /** An element of a sequence without repetitions occurs at most once. */
  lemma {:induction false} DistinctCount<T>(s: seq<T>, x: T)
    requires forall a, b :: 0 <= a < b < |s| ==> s[a] != s[b]
    ensures multiset(s)[x] <= 1
  {
    if s != [] {
      assert s == [s[0]] + s[1..];
      DistinctCount(s[1..], x);
      if s[0] == x {
        assert x !in s[1..];
      }
    }
  }

  /** After the first `j` keys of a dictionary comprehension over `keys`, `at`
      holds exactly those keys, each with its value in `target`. */
  ghost predicate FilledUpTo<W>(keys: seq<string>, target: map<string, W>, at: map<string, W>, j: nat) {
    j <= |keys|
    && (forall k :: k in at <==> k in keys[..j])
    && (forall k :: k in at ==> k in target && at[k] == target[k])
  }

  lemma FillStart<W>(keys: seq<string>, target: map<string, W>)
    ensures FilledUpTo(keys, target, map[], 0)
  {
  }

  /** Storing the next key's value keeps the comprehension on track. */
  lemma FillStep<W>(keys: seq<string>, target: map<string, W>, at: map<string, W>, j: nat, w: W)
    requires FilledUpTo(keys, target, at, j) && j < |keys|
    requires keys[j] in target && w == target[keys[j]]
    ensures FilledUpTo(keys, target, at[keys[j] := w], j + 1)
  {
    assert keys[..j + 1] == keys[..j] + [keys[j]];
  }

  /** Once every key is stored, the comprehension has built `target`. */
  lemma FillDone<W>(keys: seq<string>, target: map<string, W>, at: map<string, W>)
    requires FilledUpTo(keys, target, at, |keys|)
    requires forall k :: k in target <==> k in keys
    ensures at == target
  {
    assert keys[..|keys|] == keys;
  }
}
