/**
 * Objection detection: each non-rep turn is classified against the objection
 * table, first category wins, and at most one objection is recorded per turn.
 */
module Detection {
  import opened Options
  import opened Seqs
  import opened Text
  import opened Numeric
  import opened Matching
  import opened Transcript

  /** The objection category of turn `i`, if it was raised by someone other than
      the rep and one of the objection categories matches its lower-cased text. */
  function TurnCategory(m: Matcher, table: seq<Category>, turns: seq<Turn>, rep: string, i: nat): (r: Option<nat>)
    requires i < |turns|
    ensures r.Some? ==> r.value < |table|
  {
    if turns[i].speaker == rep then None else Classify(m, table, Lower(turns[i].text))
  }

  /** The record written for an objection in turn `i` of `n`: position rounded to
      one decimal place and the first 200 characters of the original text. */
  function Record(table: seq<Category>, turns: seq<Turn>, i: nat, c: nat): ObjectionRecord
    requires i < |turns| && c < |table|
  {
    ObjectionRecord(table[c].name, i, Percent(i, |turns|), Take(turns[i].text, 200))
  }

  /** The objections `detect_objections` has found after scanning the first `k` turns. */
  function ObjectionsUpTo(m: Matcher, table: seq<Category>, turns: seq<Turn>, rep: string, k: nat): (r: seq<ObjectionRecord>)
    requires k <= |turns|
    ensures |r| <= k
  {
    if k == 0 then []
    else
      var prev := ObjectionsUpTo(m, table, turns, rep, k - 1);
      match TurnCategory(m, table, turns, rep, k - 1)
      case None => prev
      case Some(c) => prev + [Record(table, turns, k - 1, c)]
  }

  /** `o` is the record of an objection in one of the turns. */
  predicate Recorded(m: Matcher, table: seq<Category>, turns: seq<Turn>, rep: string, o: ObjectionRecord) {
    o.turnIndex < |turns| && TurnCategory(m, table, turns, rep, o.turnIndex).Some?
    && o == Record(table, turns, o.turnIndex, TurnCategory(m, table, turns, rep, o.turnIndex).value)
  }

  /** Every record describes an objection in one of the first `k` turns, and the
      records follow the turn order, one per turn. */
  predicate SoundUpTo(m: Matcher, table: seq<Category>, turns: seq<Turn>, rep: string, r: seq<ObjectionRecord>, k: nat) {
    (forall j :: 0 <= j < |r| ==> r[j].turnIndex < k && Recorded(m, table, turns, rep, r[j]))
    && (forall j, j' :: 0 <= j < j' < |r| ==> r[j].turnIndex < r[j'].turnIndex)
  }

  /** Soundness and order of what the first `k` turns yield. */
  lemma {:induction false} ObjectionsSound(m: Matcher, table: seq<Category>, turns: seq<Turn>, rep: string, k: nat)
    requires k <= |turns|
    ensures SoundUpTo(m, table, turns, rep, ObjectionsUpTo(m, table, turns, rep, k), k)
  {
    if k > 0 {
      ObjectionsSound(m, table, turns, rep, k - 1);
      SoundExtend(m, table, turns, rep, ObjectionsUpTo(m, table, turns, rep, k - 1), k - 1);
    }
  }

  /** Scanning turn `k` keeps the records sound and in order, whether or not it
      adds one. */
  lemma SoundExtend(m: Matcher, table: seq<Category>, turns: seq<Turn>, rep: string, r: seq<ObjectionRecord>, k: nat)
    requires k < |turns| && SoundUpTo(m, table, turns, rep, r, k)
    ensures SoundUpTo(m, table, turns, rep, r, k + 1)
    ensures TurnCategory(m, table, turns, rep, k).Some? ==>
              SoundUpTo(m, table, turns, rep, r + [Record(table, turns, k, TurnCategory(m, table, turns, rep, k).value)], k + 1)
  {
    if TurnCategory(m, table, turns, rep, k).Some? {
      var o := Record(table, turns, k, TurnCategory(m, table, turns, rep, k).value);
      var r' := r + [o];
      assert Recorded(m, table, turns, rep, o);
      forall j | 0 <= j < |r'|
        ensures r'[j].turnIndex < k + 1 && Recorded(m, table, turns, rep, r'[j])
      {
        if j < |r| {
          assert r'[j] == r[j];
        }
      }
      forall j, j' | 0 <= j < j' < |r'|
        ensures r'[j].turnIndex < r'[j'].turnIndex
      {
        assert r'[j] == r[j];
        if j' < |r| {
          assert r'[j'] == r[j'];
        }
      }
    }
  }

  /** Every turn among the first `k` that carries an objection has a record. */
  predicate CompleteUpTo(m: Matcher, table: seq<Category>, turns: seq<Turn>, rep: string, r: seq<ObjectionRecord>, k: nat)
    requires k <= |turns|
  {
    forall i :: 0 <= i < k && TurnCategory(m, table, turns, rep, i).Some? ==>
      exists j :: 0 <= j < |r| && r[j].turnIndex == i
  }

  /** Completeness: no objection in the first `k` turns is missed. */
  lemma ObjectionsComplete(m: Matcher, table: seq<Category>, turns: seq<Turn>, rep: string, k: nat)
    requires k <= |turns|
    ensures CompleteUpTo(m, table, turns, rep, ObjectionsUpTo(m, table, turns, rep, k), k)
  {
    forall i | 0 <= i < k && TurnCategory(m, table, turns, rep, i).Some?
      ensures exists j :: 0 <= j < |ObjectionsUpTo(m, table, turns, rep, k)|
                          && ObjectionsUpTo(m, table, turns, rep, k)[j].turnIndex == i
    {
      var j := RecordOfTurn(m, table, turns, rep, i, k);
    }
  }

  /** The position of the record of turn `i` among what the first `k` turns yield. */
  lemma {:induction false} RecordOfTurn(m: Matcher, table: seq<Category>, turns: seq<Turn>, rep: string, i: nat, k: nat)
    returns (j: nat)
    requires i < k <= |turns| && TurnCategory(m, table, turns, rep, i).Some?
    ensures j < |ObjectionsUpTo(m, table, turns, rep, k)| && ObjectionsUpTo(m, table, turns, rep, k)[j].turnIndex == i
    decreases k
  {
    var prev := ObjectionsUpTo(m, table, turns, rep, k - 1);
    if k - 1 == i {
      j := |prev|;
      assert ObjectionsUpTo(m, table, turns, rep, k) == prev + [Record(table, turns, i, TurnCategory(m, table, turns, rep, i).value)];
    } else {
      j := RecordOfTurn(m, table, turns, rep, i, k - 1);
      match TurnCategory(m, table, turns, rep, k - 1)
      case None =>
        assert ObjectionsUpTo(m, table, turns, rep, k) == prev;
      case Some(c) =>
        assert ObjectionsUpTo(m, table, turns, rep, k) == prev + [Record(table, turns, k - 1, c)];
        assert ObjectionsUpTo(m, table, turns, rep, k)[j] == prev[j];
    }
  }

  /** Every recorded objection comes from a turn not spoken by the rep, names a
      category of the table, sits in [0, 100] percent of the call, and quotes at
      most the first 200 characters of what was said. */
  lemma RecordFields(m: Matcher, table: seq<Category>, turns: seq<Turn>, rep: string, o: ObjectionRecord)
    requires Recorded(m, table, turns, rep, o)
    ensures turns[o.turnIndex].speaker != rep
    ensures exists c :: (0 <= c < |table| && o.category == table[c].name
                         && AnyMatch(m, table[c].patterns, Lower(turns[o.turnIndex].text)))
    ensures 0.0 <= o.positionPct <= 100.0
    ensures |o.text| <= 200 && o.text == turns[o.turnIndex].text[..|o.text|]
  {
    PercentBounds(o.turnIndex, |turns|);
  }

  /** Before rounding, a turn's position is strictly below 100 percent. */
  lemma PositionBelowHundred(i: nat, n: nat)
    requires i < n
    ensures 0.0 <= i as real / n as real * 100.0 < 100.0
  {
    var q := i as real / n as real;
    assert q * n as real == i as real;
  }

  /** After rounding to one decimal place it can reach 100: the turn at index
      2499 of 2500 sits at 99.96 percent, recorded as 100.0. */
  lemma PositionCanRoundToHundred()
    ensures Percent(2499, 2500) == 100.0
  {
    assert 2499 as real / 2500 as real * 100.0 == 99.96;
    assert (10.0 * 99.96 + 0.5).Floor == 1000;
  }

  /** `detect_objections`, with its turn loop and first-match category loop. */
  method DetectObjections(m: Matcher, table: seq<Category>, turns: seq<Turn>, rep: string) returns (found: seq<ObjectionRecord>)
    ensures found == ObjectionsUpTo(m, table, turns, rep, |turns|)
  {
    found := [];
    var n := |turns|;
    for i := 0 to n
      invariant found == ObjectionsUpTo(m, table, turns, rep, i)
    {
      if turns[i].speaker == rep {
        continue;
      }
      var text := Lower(turns[i].text);
      var category := FirstMatchingCategory(m, table, text);
      if category.Some? {
        found := found + [ObjectionRecord(table[category.value].name, i, Percent(i, n), Take(turns[i].text, 200))];
      }
    }
  }
}
