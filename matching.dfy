/**
 * The pattern classifier. Regular-expression search itself is not modelled:
 * every operation takes the matcher `m` as a parameter, and `m(p, text)` stands
 * for `re.search(p.source, text, re.I if p.ignoreCase else 0)` succeeding.
 */
module Matching {
  import opened Options

  /** A regular expression as written in a pattern table, with the `re.I` flag. */
  datatype Regex = Regex(source: string, ignoreCase: bool)

  /** The search primitive: does the pattern occur somewhere in the text? */
  type Matcher = (Regex, string) -> bool

  /** A named category and its patterns, OR'd together. */
  datatype Category = Category(name: string, patterns: seq<Regex>)

  /** `any(re.search(p, text) for p in pats)`. */
  predicate AnyMatch(m: Matcher, pats: seq<Regex>, text: string) {
    exists i :: 0 <= i < |pats| && m(pats[i], text)
  }

  /** The first category at or after `start` with a matching pattern. */
  function FirstMatchFrom(m: Matcher, table: seq<Category>, text: string, start: nat): (r: Option<nat>)
    requires start <= |table|
    ensures r.Some? ==> start <= r.value < |table| && AnyMatch(m, table[r.value].patterns, text)
    ensures r.Some? ==> forall j :: start <= j < r.value ==> !AnyMatch(m, table[j].patterns, text)
    ensures r.None? ==> forall j :: start <= j < |table| ==> !AnyMatch(m, table[j].patterns, text)
    decreases |table| - start
  {
    if start == |table| then None
    else if AnyMatch(m, table[start].patterns, text) then Some(start)
    else FirstMatchFrom(m, table, text, start + 1)
  }

  /** First-match-wins classification: the index of the first category, in declared
      order, one of whose patterns matches, or `None` when no category matches. */
  function Classify(m: Matcher, table: seq<Category>, text: string): (r: Option<nat>)
    ensures r.Some? ==> r.value < |table| && AnyMatch(m, table[r.value].patterns, text)
    ensures r.Some? ==> forall j :: 0 <= j < r.value ==> !AnyMatch(m, table[j].patterns, text)
    ensures r.None? <==> forall j :: 0 <= j < |table| ==> !AnyMatch(m, table[j].patterns, text)
  {
    FirstMatchFrom(m, table, text, 0)
  }

  /** The `for category, patterns in table.items(): if any(...): ...; break` loop. */
  method FirstMatchingCategory(m: Matcher, table: seq<Category>, text: string) returns (r: Option<nat>)
    ensures r == Classify(m, table, text)
  {
    r := None;
    for k := 0 to |table|
      invariant r.None?
      invariant forall j :: 0 <= j < k ==> !AnyMatch(m, table[j].patterns, text)
    {
      if AnyMatch(m, table[k].patterns, text) {
        r := Some(k);
        break;
      }
    }
  }
}
