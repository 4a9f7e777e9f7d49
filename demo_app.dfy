/**
 * `demo_app.py`: the stand-alone demo endpoint. It classifies by keyword,
 * answers from a fixed reply table and attaches the suggested actions.
 */
module DemoApp {
  import opened Wrappers
  import opened Text
  import opened Keywords

  const MenuReply := "Yes, we have several vegetarian options including our Bruschetta Classica, Caprese Salad, and Quattro Formaggi Pizza. Would you like to hear more details about any of these dishes?"
  const ReservationReply := "I'd be happy to help you with a reservation. Could you please provide the date, time, and number of guests?"
  const HoursReply := "Savory Haven is located at 789 Gourmet Avenue, Flavor Town, CA 90210. Our hours are Monday-Thursday 11am-10pm, Friday-Saturday 11am-11pm, and Sunday 11am-9pm."
  const EventsReply := "We have a special Wine Wednesday event with half-price bottles of select wines. This Friday we also have a live jazz band performing from 7-9pm."
  const DefaultReply := "Thank you for your question. Our staff would be happy to assist you. Is there anything specific about our menu, hours, or specials that you'd like to know about?"

  /** `DEMO_RESPONSES` */
  function DemoResponses(): map<string, string> {
    map[
      "menu_inquiry" := MenuReply,
      "reservation_request" := ReservationReply,
      "hours_location" := HoursReply,
      "special_events" := EventsReply,
      "default" := DefaultReply
    ]
  }

  datatype ChatRequest = ChatRequest(userId: string, message: string, sessionId: string)

  datatype ChatResponse = ChatResponse(
    response: string, intent: string, suggestedActions: seq<SuggestedAction>, timestamp: string)

  /** `detect_intent`: every intent it can return has an entry in the reply table. */
  function DetectIntent(message: string): (intent: string)
    ensures intent in DemoResponses()
    ensures intent == "default" <==> forall g :: 0 <= g < |KeywordGroups()| ==> !AnyIn(KeywordGroups()[g].1, Lower(message))
  {
    NoKeywordGivesFallback(message, "default");
    KeywordIntent(message, "default")
  }

  /** The `chat` handler, with the clock reading passed in. The reply is the
      table entry of the detected intent: the `.get` fallback never applies. */
  function Chat(request: ChatRequest, timestamp: string): (r: ChatResponse)
    ensures r.intent == DetectIntent(request.message)
    ensures r.response == DemoResponses()[r.intent]
    ensures r.suggestedActions == SuggestedActions(r.intent)
    ensures r.timestamp == timestamp
  {
    var intent := DetectIntent(request.message);
    var responses := DemoResponses();
    var response := DictGet(responses, intent, responses["default"]);
    ChatResponse(response, intent, SuggestedActions(intent), timestamp)
  }

  /** The user and session ids do not influence the reply. */
  lemma ChatIgnoresIds(r1: ChatRequest, r2: ChatRequest, timestamp: string)
    requires r1.message == r2.message
    ensures Chat(r1, timestamp) == Chat(r2, timestamp)
  {
  }

  /** `health_check` */
  function HealthCheck(): (body: map<string, string>)
    ensures body.Keys == {"status", "service"} && body["status"] == "healthy"
  {
    map["status" := "healthy", "service" := "Savory Haven Restaurant Chatbot (Demo)"]
  }
}
