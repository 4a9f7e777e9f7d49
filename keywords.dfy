/**
 * The first-match keyword classifier and the suggested-action table that
 * `demo_app.py` and `app/services/chat.py` each carry a copy of. The copies
 * differ only in what the classifier returns when no keyword occurs, so the
 * model defines the chain once with that value as a parameter.
 */
module Keywords {
  import opened Text

  const MenuWords: seq<string> := ["vegetarian", "vegan", "gluten", "menu", "food", "dish", "eat"]
  const ReservationWords: seq<string> := ["reservation", "book", "table", "reserve", "booking"]
  const HoursWords: seq<string> := ["hour", "open", "close", "location", "address", "where", "when"]
  const EventWords: seq<string> := ["event", "special", "promotion", "offer", "deal", "discount"]

  /** `any(word in text for word in words)`: a substring test per word. */
  predicate AnyIn(words: seq<string>, text: string) {
    exists k | 0 <= k < |words| :: Contains(text, words[k])
  }

  /** The if/elif chain over the lowercased message. */
  function KeywordIntent(message: string, fallback: string): string {
    var text := Lower(message);
    if AnyIn(MenuWords, text) then "menu_inquiry"
    else if AnyIn(ReservationWords, text) then "reservation_request"
    else if AnyIn(HoursWords, text) then "hours_location"
    else if AnyIn(EventWords, text) then "special_events"
    else fallback
  }

  /** The keyword groups in priority order, each with the intent it selects. */
  function KeywordGroups(): seq<(string, seq<string>)> {
    [ ("menu_inquiry", MenuWords), ("reservation_request", ReservationWords),
      ("hours_location", HoursWords), ("special_events", EventWords) ]
  }

  /** The first group, from `i` on, with a word occurring in `text`; `|groups|` if none. */
  function FirstMatchingGroup(groups: seq<(string, seq<string>)>, text: string, i: nat): (k: nat)
    requires i <= |groups|
    ensures i <= k <= |groups|
    ensures k < |groups| ==> AnyIn(groups[k].1, text)
    ensures forall j :: i <= j < k ==> !AnyIn(groups[j].1, text)
    decreases |groups| - i
  {
    if i == |groups| then i
    else if AnyIn(groups[i].1, text) then i
    else FirstMatchingGroup(groups, text, i + 1)
  }

  /** The chain returns the intent of the first group holding a word of the
      lowercased message, and the fallback when no group does. */
  lemma KeywordIntentIsFirstMatchingGroup(message: string, fallback: string)
    ensures var g := KeywordGroups();
            var k := FirstMatchingGroup(g, Lower(message), 0);
            KeywordIntent(message, fallback) == if k < |g| then g[k].0 else fallback
  {
    var g := KeywordGroups();
    var text := Lower(message);
    var k := FirstMatchingGroup(g, text, 0);
    if k < |g| {
      assert AnyIn(g[k].1, text);
      assert forall j :: 0 <= j < k ==> !AnyIn(g[j].1, text);
    } else {
      assert forall j :: 0 <= j < 4 ==> !AnyIn(g[j].1, text);
      assert !AnyIn(g[0].1, text) && !AnyIn(g[1].1, text) && !AnyIn(g[2].1, text) && !AnyIn(g[3].1, text);
    }
  }

  /** The fallback comes back exactly when no keyword of any group occurs. */
  lemma NoKeywordGivesFallback(message: string, fallback: string)
    requires fallback !in ["menu_inquiry", "reservation_request", "hours_location", "special_events"]
    ensures KeywordIntent(message, fallback) == fallback <==>
              forall g :: 0 <= g < |KeywordGroups()| ==> !AnyIn(KeywordGroups()[g].1, Lower(message))
  {
    KeywordIntentIsFirstMatchingGroup(message, fallback);
  }

  /** Classification does not depend on letter case. */
  lemma KeywordIntentIgnoresCase(message: string, fallback: string)
    ensures KeywordIntent(message, fallback) == KeywordIntent(Lower(message), fallback)
  {
    LowerIdempotent(message);
  }

  /** Two runs with different fallbacks agree unless each returns its own fallback. */
  lemma FallbackOnlyDiffers(message: string, f1: string, f2: string)
    ensures KeywordIntent(message, f1) != KeywordIntent(message, f2) ==>
              KeywordIntent(message, f1) == f1 && KeywordIntent(message, f2) == f2
  {
  }

  /** A menu word wins over a reservation word in the same message. */
  lemma MenuWordBeatsReservationWord()
    ensures KeywordIntent("vegan table", "default") == "menu_inquiry"
  {
    var m := "vegan table";
    assert Lower(m) == m;
    assert OccursAt(m, "vegan", 0);
    assert Contains(m, MenuWords[1]);
  }

  /** Matching is a substring test: "eat" inside "great" selects the menu. */
  lemma SubstringNotWord()
    ensures KeywordIntent("great", "default") == "menu_inquiry"
  {
    var m := "great";
    assert Lower(m) == m;
    assert OccursAt(m, "eat", 2);
    assert Contains(m, MenuWords[6]);
  }

  datatype SuggestedAction = SuggestedAction(actionType: string, labelText: string, value: string)

  /** `generate_suggested_actions` / `_generate_suggested_actions`. */
  function SuggestedActions(intent: string): (acts: seq<SuggestedAction>)
    ensures acts != [] <==> intent in ["menu_inquiry", "reservation_request", "hours_location"]
    ensures intent == "menu_inquiry" ==>
              |acts| == 2 && acts[0].actionType == "view_menu" && acts[1].actionType == "filter_menu"
    ensures intent == "reservation_request" ==> |acts| == 1 && acts[0].actionType == "make_reservation"
    ensures intent == "hours_location" ==> |acts| == 1 && acts[0].actionType == "view_hours"
  {
    if intent == "menu_inquiry" then
      [ SuggestedAction("view_menu", "View Full Menu", "full_menu"),
        SuggestedAction("filter_menu", "Filter by Category", "categories") ]
    else if intent == "reservation_request" then
      [ SuggestedAction("make_reservation", "Make Reservation", "reservation_form") ]
    else if intent == "hours_location" then
      [ SuggestedAction("view_hours", "View Opening Hours", "hours") ]
    else []
  }

  /** A reply carries actions exactly when the message holds a menu,
      reservation or hours word; event words and unmatched messages get none. */
  lemma ActionsFollowKeywords(message: string, fallback: string)
    requires fallback !in ["menu_inquiry", "reservation_request", "hours_location"]
    ensures var text := Lower(message);
            SuggestedActions(KeywordIntent(message, fallback)) != [] <==>
              AnyIn(MenuWords, text) || AnyIn(ReservationWords, text) || AnyIn(HoursWords, text)
  {
  }
}
