/**
 * The conversion detector: did the call end with a demo or meeting booked?
 */
module Conversion {
  import opened Text
  import opened Matching
  import opened Transcript

  /** `int(len(turns) * 0.55)`: where the tail segment starts. */
  function TailStart(n: nat): (k: nat)
    ensures k <= n
  {
    n * 55 / 100
  }

  /** The tail holds the last 45% of the turns, rounded up to a whole turn. */
  lemma TailIsLastFortyFivePercent(n: nat)
    ensures 45 * n <= 100 * (n - TailStart(n)) < 45 * n + 100
  {
  }

  /** The lower-cased text of the whole call. */
  function FullText(turns: seq<Turn>): string {
    Lower(JoinedText(turns))
  }

  /** The lower-cased text of the tail segment. */
  function TailText(turns: seq<Turn>): string {
    Lower(JoinedText(turns[TailStart(|turns|)..]))
  }

  /** `is_converted`: an explicit decline anywhere rules conversion out, whatever
      the tail says; otherwise the call is converted exactly when a booking
      signal occurs in the tail. `Analysis.LoadScriptCalls` passes
      `Patterns.NotConvertedSignals` as `declines` and `Patterns.BookingSignals`
      as `booking`. */
  function IsConverted(m: Matcher, declines: seq<Regex>, booking: seq<Regex>, turns: seq<Turn>): (r: bool)
    ensures AnyMatch(m, declines, FullText(turns)) ==> !r
    ensures !AnyMatch(m, declines, FullText(turns)) ==>
              (r <==> AnyMatch(m, booking, TailText(turns)))
  {
    var hardNo := AnyMatch(m, declines, FullText(turns));
    if hardNo then false else AnyMatch(m, booking, TailText(turns))
  }

  /** The tail text is the end of the full text: when the tail starts after the
      first turn, the full text is the head's text, a space, and the tail's text. */
  lemma TailTextIsSuffix(turns: seq<Turn>)
    ensures TailStart(|turns|) == 0 ==> TailText(turns) == FullText(turns)
    ensures 0 < TailStart(|turns|) < |turns| ==>
              FullText(turns) == Lower(JoinedText(turns[..TailStart(|turns|)])) + " " + TailText(turns)
  {
    var k := TailStart(|turns|);
    assert turns[0..] == turns;
    if 0 < k < |turns| {
      assert turns == turns[..k] + turns[k..];
      assert Texts(turns) == Texts(turns[..k]) + Texts(turns[k..]);
      JoinSpaceAppend(Texts(turns[..k]), Texts(turns[k..]));
      LowerAppend(JoinedText(turns[..k]) + " ", JoinedText(turns[k..]));
      LowerAppend(JoinedText(turns[..k]), " ");
    }
  }
}
