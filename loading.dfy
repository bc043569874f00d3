/**
 * Building the call records from the parsed transcript file: turns get their
 * default timestamp, the rep is identified, and the word split, objections and
 * outcome are computed once per call.
 */
module Loading {
  import opened Options
  import opened Seqs
  import opened Matching
  import opened Transcript
  import opened Speakers
  import opened Detection
  import opened Conversion

  /** A turn as it appears in the input; the timestamp key may be absent. */
  datatype RawTurn = RawTurn(speaker: string, timestamp: Option<string>, text: string)

  /** A call as it appears in the input. */
  datatype RawCall = RawCall(id: string, index: int, transcript: seq<RawTurn>)

  /** `Turn(speaker=..., timestamp=t.get("timestamp", ""), text=...)`. */
  function ToTurn(t: RawTurn): (r: Turn)
    ensures r.speaker == t.speaker && r.text == t.text
    ensures r.timestamp == (if t.timestamp.Some? then t.timestamp.value else "")
  {
    Turn(t.speaker, match t.timestamp case Some(s) => s case None => "", t.text)
  }

  function ToTurns(ts: seq<RawTurn>): (r: seq<Turn>)
    ensures |r| == |ts| && forall i :: 0 <= i < |ts| ==> r[i] == ToTurn(ts[i])
  {
    seq(|ts|, i requires 0 <= i < |ts| => ToTurn(ts[i]))
  }

  /** The call record `load_calls` builds from one input call, given the
      objection categories, the decline and booking signals, and the names of
      the known reps (`Analysis.LoadScriptCalls` passes `Patterns.ObjectionTable`,
      `Patterns.NotConvertedSignals`, `Patterns.BookingSignals` and
      `Patterns.KnownReps`). */
  function BuildCall(m: Matcher, table: seq<Category>, declines: seq<Regex>, booking: seq<Regex>, roster: set<string>, raw: RawCall): Call {
    var turns := ToTurns(raw.transcript);
    var rep := IdentifyRep(turns, roster);
    var words := if Truthy(rep) then TalkTime(turns, rep.value) else (0, 0);
    var objections := if Truthy(rep) then ObjectionsUpTo(m, table, turns, rep.value, |turns|) else [];
    Call(raw.id, raw.index, rep, turns, IsConverted(m, declines, booking, turns), objections, words.0, words.1)
  }

  /** What a built call holds: the input's turns with default timestamps, the
      identified rep, and (only when that rep is a non-empty name) the word split,
      which accounts for every word of the call, and the detected objections;
      without a rep the counts are zero and there are no objections. */
  lemma BuildCallFields(m: Matcher, table: seq<Category>, declines: seq<Regex>, booking: seq<Regex>, roster: set<string>, raw: RawCall)
    ensures var c := BuildCall(m, table, declines, booking, roster, raw);
            c.id == raw.id && c.index == raw.index
            && |c.turns| == |raw.transcript|
            && (forall i :: 0 <= i < |c.turns| ==> c.turns[i] == ToTurn(raw.transcript[i]))
            && c.rep == IdentifyRep(c.turns, roster)
            && c.converted == IsConverted(m, declines, booking, c.turns)
            && (Truthy(c.rep) ==>
                  c.repWordCount == RepWords(c.turns, c.rep.value)
                  && c.prospectWordCount == ProspectWords(c.turns, c.rep.value)
                  && c.repWordCount + c.prospectWordCount == TotalWords(c.turns)
                  && c.objectionsFound == ObjectionsUpTo(m, table, c.turns, c.rep.value, |c.turns|))
            && (!Truthy(c.rep) ==> c.repWordCount == 0 && c.prospectWordCount == 0 && c.objectionsFound == [])
  {
    var c := BuildCall(m, table, declines, booking, roster, raw);
    if Truthy(c.rep) {
      WordsSplit(c.turns, c.rep.value);
    }
  }

  /** A built call's objections all come from non-rep turns, in turn order, and
      cover every non-rep turn that matches an objection category. */
  lemma BuiltObjections(m: Matcher, table: seq<Category>, declines: seq<Regex>, booking: seq<Regex>, roster: set<string>, raw: RawCall)
    requires Truthy(BuildCall(m, table, declines, booking, roster, raw).rep)
    ensures var c := BuildCall(m, table, declines, booking, roster, raw);
            SoundUpTo(m, table, c.turns, c.rep.value, c.objectionsFound, |c.turns|)
            && CompleteUpTo(m, table, c.turns, c.rep.value, c.objectionsFound, |c.turns|)
  {
    var c := BuildCall(m, table, declines, booking, roster, raw);
    ObjectionsSound(m, table, c.turns, c.rep.value, |c.turns|);
    ObjectionsComplete(m, table, c.turns, c.rep.value, |c.turns|);
  }

  /** The body of the `load_calls` loop for one input call. */
  method LoadCall(m: Matcher, table: seq<Category>, declines: seq<Regex>, booking: seq<Regex>, roster: set<string>, r: RawCall) returns (c: Call)
    ensures c == BuildCall(m, table, declines, booking, roster, r)
  {
    var turns := ToTurns(r.transcript);
    var rep := IdentifyRep(turns, roster);
    var repW, prospectW := 0, 0;
    var objections := [];
    if Truthy(rep) {
      repW, prospectW := RepWords(turns, rep.value), ProspectWords(turns, rep.value);
      objections := DetectObjections(m, table, turns, rep.value);
    }
    var converted := IsConverted(m, declines, booking, turns);
    c := Call(r.id, r.index, rep, turns, converted, objections, repW, prospectW);
  }

  /** The call records `load_calls` builds from the input calls, in input order. */
  function BuildCalls(m: Matcher, table: seq<Category>, declines: seq<Regex>, booking: seq<Regex>, roster: set<string>,
                      raw: seq<RawCall>): seq<Call>
  {
    MapSeq(r => BuildCall(m, table, declines, booking, roster, r), raw)
  }

  /** One call record per input call, each built from the call at its position. */
  lemma BuildCallsAt(m: Matcher, table: seq<Category>, declines: seq<Regex>, booking: seq<Regex>,
                     roster: set<string>, raw: seq<RawCall>)
    ensures |BuildCalls(m, table, declines, booking, roster, raw)| == |raw|
    ensures forall i :: 0 <= i < |raw| ==>
              BuildCalls(m, table, declines, booking, roster, raw)[i] == BuildCall(m, table, declines, booking, roster, raw[i])
  {
    MapSeqAt(r => BuildCall(m, table, declines, booking, roster, r), raw);
  }

  /** `load_calls` after the file has been parsed: one call record per input call,
      in input order. */
  method LoadCalls(m: Matcher, table: seq<Category>, declines: seq<Regex>, booking: seq<Regex>, roster: set<string>, raw: seq<RawCall>) returns (calls: seq<Call>)
    ensures calls == BuildCalls(m, table, declines, booking, roster, raw)
  {
    calls := [];
    for i := 0 to |raw|
      invariant calls == BuildCalls(m, table, declines, booking, roster, raw[..i])
    {
      var c := LoadCall(m, table, declines, booking, roster, raw[i]);
      assert raw[..i + 1][..i] == raw[..i];
      calls := calls + [c];
    }
    assert raw[..|raw|] == raw;
  }
}
