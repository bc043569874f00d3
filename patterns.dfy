/**
 * The fixed pattern tables of the transcript analysis, in their declared order.
 * Order matters: classification is first-match-wins over these sequences.
 */
module Patterns {
  import opened Matching

  /** A case-sensitive pattern, searched in text that was lower-cased first. */
  function Plain(source: string): Regex { Regex(source, false) }

  /** A pattern searched with `re.I`. */
  function NoCase(source: string): Regex { Regex(source, true) }

  /** The roster of known reps; the operations take the roster as a parameter
      and `Analysis.LoadScriptCalls` passes this one. */
  const KnownReps: set<string> := {"Cylee Smart", "Alex Manso", "Sanaz Jahanmir", "Jo Galan"}

  /** Objection categories, tried on each lower-cased non-rep turn. */
  const ObjectionTable: seq<Category> := [
    Category("Already has software / happy with current", [
      Plain(@"\b(happy with|love|like).{0,25}(vagaro|mindbody|boulevard|square|booker|fresha|zenoti|gloss|phorest|salon iris)\b"),
      Plain(@"\b(already (use|using|have|on)|currently (use|using|on|with))\b"),
      Plain(@"\bnot looking to (change|switch|move)\b"),
      Plain(@"\bjust switched\b"),
      Plain(@"\brecently (switched|moved|upgraded)\b")]),
    Category("Too busy / bad timing", [
      Plain(@"\b(too busy|really busy|swamped|not a good time|bad time|crazy (busy|time)|hectic)\b"),
      Plain(@"\b(in the middle of|right in the)\b"),
      Plain(@"\bcan('t| not) (talk|chat|do this) right now\b"),
      Plain(@"\bgrand opening\b"),
      Plain(@"\bjust opened\b"),
      Plain(@"\bnew (location|salon|spa)\b")]),
    Category("Not interested", [
      Plain(@"\bnot (interested|looking)\b"),
      Plain(@"\bno thank(s| you)\b"),
      Plain(@"\bdon't (need|want|have time)\b"),
      Plain(@"\btake (me off|us off).{0,15}(list|calling)\b"),
      Plain(@"\bdo not (call|contact)\b"),
      Plain(@"\bremove (me|us)\b")]),
    Category("Price / cost concern", [
      Plain(@"\b(too expensive|can't afford|out of (my |our )budget|cost(s)? (too much|a lot)|pricing concern)\b"),
      Plain(@"\bwhat.{0,20}(cost|price|charge|fee)\b"),
      Plain(@"\bhow much.{0,20}(is it|does it cost|per month)\b"),
      Plain(@"\b(cheap|cheaper|less expensive|more affordable)\b"),
      Plain(@"\b(budget|afford)\b")]),
    Category("Need to involve partner / decision maker", [
      Plain(@"\b(partner|husband|wife|spouse|co-owner|business partner).{0,30}(talk|discuss|decide|check|loop in)\b"),
      Plain(@"\bnot (my|the sole) decision\b"),
      Plain(@"\b(need to|have to|want to) (talk|discuss|check) with\b"),
      Plain(@"\bother (partner|owner)\b")]),
    Category("Call me back later / follow up", [
      Plain(@"\b(call (me )?back|reach (me )?back|try (me )?(again|later))\b"),
      Plain(@"\b(better time|good time).{0,20}(later|another day|next week|in a few)\b"),
      Plain(@"\bin (a few|a couple of) (weeks?|months?|days?)\b"),
      Plain(@"\bmaybe (later|another time|next)\b")]),
    Category("Contract / commitment concern", [
      Plain(@"\b(contract|lock(ed)? in|tied (up|down)|commitment|annual|year(-long)?)\b"),
      Plain(@"\b(cancel|cancellation|exit|leave).{0,20}(anytime|easy|hard|penalty|fee)\b"),
      Plain(@"\bmonth.to.month\b")]),
    Category("Already considering another option", [
      Plain(@"\b(looking at|checking out|comparing|evaluating|demoing).{0,25}(vagaro|mindbody|boulevard|square|booker|fresha|zenoti|gloss)\b"),
      Plain(@"\b(another (option|solution|platform|demo)|few (options|demos))\b")])
  ]

  /** Booking signals, searched in the lower-cased tail of a call. */
  const BookingSignals: seq<Regex> := [
    Plain(@"\b(monday|tuesday|wednesday|thursday|friday|tomorrow|next week).{0,50}(works|work|perfect|great|good|sounds good|that works)\b"),
    Plain(@"\b(works|work|perfect|great|good|sounds good|that works).{0,50}(monday|tuesday|wednesday|thursday|friday|tomorrow)\b"),
    Plain(@"\b\d{1,2}(am|pm|:\d{2}).{0,30}(works|perfect|great|good|sounds good)\b"),
    Plain(@"\bsee you.{0,30}(monday|tuesday|wednesday|thursday|friday|tomorrow|then|at)\b"),
    Plain(@"\blooking forward.{0,20}(to (it|that|our|the|chatting|talking|connecting))\b"),
    Plain(@"\bi.ll (send|shoot).{0,30}(invite|link|calendar|email|over)\b"),
    Plain(@"\b(best|good) email.{0,20}(for you|to send|to reach|I can|we can)\b"),
    Plain(@"\bconfirm.{0,30}(time|appointment|meeting|demo)\b"),
    Plain(@"\bset.{0,10}(up|a).{0,20}(time|call|demo|meeting)\b"),
    Plain(@"\bschedule.{0,20}(a |the )?(call|demo|meeting|time)\b"),
    Plain(@"\b(book|booked).{0,15}(for|a|the)\b"),
    Plain(@"\bput.{0,10}(it |you )?(on|in).{0,10}(the |my )?(calendar|schedule)\b")
  ]

  /** Explicit declines; one match anywhere in a call rules out conversion. */
  const NotConvertedSignals: seq<Regex> := [
    Plain(@"\bnot interested\b"),
    Plain(@"\bdo not (call|contact|reach out)\b"),
    Plain(@"\btake (me|us) off.{0,15}list\b"),
    Plain(@"\bremove (me|us)\b"),
    Plain(@"\bno thank you\b")
  ]

  /** The label of an opening that no theme matches. */
  const OtherTheme: string := "Other / unclear"

  /** Opener themes, tried with `re.I` on the normalised opening line. */
  const ThemeTable: seq<Category> := [
    Category("Compliment + competitor mention", [
      NoCase(@"(love|love your|great|beautiful|amazing).{0,40}(brand|website|social|instagram|page|branding)"),
      NoCase(@"(came across|saw|found|noticed).{0,30}(website|instagram|profile|page)")]),
    Category("Direct competitor mention", [
      NoCase(@"\b(vagaro|mindbody|boulevard|square|booker|fresha|zenoti|gloss|phorest)\b")]),
    Category("Salon/spa owner peer intro", [
      NoCase(@"\b(salon owner|spa owner|work.{0,10}(salon|spa)|own a (salon|spa))\b")]),
    Category("Mangomint intro", [
      NoCase(@"\b(mango ?mint|mangomint)\b")]),
    Category("Software/platform comparison pitch", [
      NoCase(@"\b(all.in.one|platform|software|system|solution)\b"),
      NoCase(@"\b(next step|step up|upgrade|switch)\b")]),
    Category("Question opener (discovery first)", [
      NoCase(@"^(how|what|when|where|are you|do you|have you|is this|can I).{0,60}\?"),
      NoCase(@"\bcurious.{0,30}(how|what|if)\b")]),
    Category("Callback / follow-up", [
      NoCase(@"\b(follow(ing)? up|follow.up|called (before|earlier|last|yesterday|last week))\b"),
      NoCase(@"\b(we spoke|we talked|I called|I reached out)\b")])
  ]

  /** Keyword topics whose presence is compared between converted and other calls. */
  const KeywordTable: seq<Category> := [
    Category("Competitor named (Vagaro/Mindbody/etc.)", [
      Plain(@"\b(vagaro|mindbody|boulevard|square|booker|fresha|zenoti|gloss|phorest|salon iris)\b")]),
    Category("Demo/screen share mentioned", [
      Plain(@"\b(demo|screen share|screen-share|walk you through|show you)\b")]),
    Category("Trial account offered", [
      Plain(@"\b(trial|free trial|trial account|try it|test it out)\b")]),
    Category("Pricing discussed", [
      Plain(@"\b(price|pricing|cost|per month|subscription|fee|how much)\b")]),
    Category("Client experience / retention mentioned", [
      Plain(@"\b(client (experience|retention|return|rebooking)|rebooking|retention|come back)\b")]),
    Category("Membership / packages mentioned", [
      Plain(@"\b(membership|memberships|package|packages|recurring)\b")]),
    Category("Pain point acknowledged", [
      Plain(@"\b(challenge|frustrat|struggle|pain|issue|problem|wish|could be better|improvement)\b")]),
    Category("Prospect asked a question", [
      Plain(@"\b(how do|does it|can I|is there|do you|what about|how does)\b")])
  ]
}
