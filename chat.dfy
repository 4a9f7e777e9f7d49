/**
 * `ChatService` of `app/services/chat.py`: the demo flag, the demo reply
 * table, the keyword intent of the live path and the error fallback.
 *
 * The process environment and the demo reply file are constructor inputs.
 * The retrieval-augmented answer is an abstract outcome: the call at
 * chat.py:50 passes one argument to the two-argument coroutine
 * `RAGService.get_response` and indexes the result as a dictionary, so in the
 * code as it stands that outcome is always a raised error; the model keeps
 * the outcome general and proves that every error gives the apology.
 */
module Chat {
  import opened Wrappers
  import opened Text
  import opened Keywords
  import opened Intent

  const DemoTruthy: seq<string> := ["true", "1", "t"]

  /** `os.environ.get("DEMO_MODE", "False").lower() in ["true", "1", "t"]`:
      on only for those three spellings, in any case; off when unset. */
  function DemoModeFlag(env: Option<string>): (on: bool)
    ensures on <==> env.Some? && Lower(env.value) in DemoTruthy
  {
    Lower(env.GetOr("False")) in DemoTruthy
  }

  /** `not os.environ.get("DEMO_MODE")`: whether the module creates `rag_service`. */
  predicate RagServiceCreated(env: Option<string>) {
    env.None? || env.value == ""
  }

  /** Demo mode and the RAG service exclude each other, and a set but false
      flag such as "false" leaves neither: no demo replies and no RAG service. */
  lemma DemoModeExcludesRag(env: Option<string>)
    ensures DemoModeFlag(env) ==> !RagServiceCreated(env)
    ensures env == Some("false") ==> !DemoModeFlag(env) && !RagServiceCreated(env)
  {
    if env == Some("false") {
      assert Lower("false") == "false";
    }
  }

  const BuiltinDefaultReply := "Thank you for your question. Our staff would be happy to assist you."

  /** The reply table used when demo mode is off or the file is missing. */
  function BuiltinDemoResponses(): map<string, string> {
    map["default" := BuiltinDefaultReply]
  }

  const Apology := "I'm sorry, I encountered an error processing your request."

  /** The reply dictionary; its four fields are the four keys of the source. */
  datatype ChatReply = ChatReply(
    response: string, intent: string, suggestedActions: seq<SuggestedAction>, timestamp: string)

  /** What the retrieval step hands back: the `"answer"` entry, if present,
      and the `"sources"` entry. */
  datatype RagResult = RagResult(answer: Option<string>, sources: seq<string>)

  function ApologyReply(timestamp: string): (r: ChatReply)
    ensures r.intent == "error" && r.suggestedActions == [] && r.timestamp == timestamp
    ensures r.response == Apology
  {
    ChatReply(Apology, "error", [], timestamp)
  }

  class ChatService {
    const demoMode: bool
    const demoResponses: map<string, string>
    /** Whether the module-level `rag_service` exists (chat.py:13-15). */
    const ragServiceCreated: bool
    const intentService: IntentService

    /** `__init__`, given `DEMO_MODE` and the contents of the demo reply file
        (`None` when the file does not exist). */
    constructor (demoModeEnv: Option<string>, demoResponsesFile: Option<map<string, string>>)
      ensures demoMode == DemoModeFlag(demoModeEnv)
      ensures demoResponses == if demoMode && demoResponsesFile.Some? then demoResponsesFile.value
                               else BuiltinDemoResponses()
      ensures ragServiceCreated == RagServiceCreated(demoModeEnv)
      ensures fresh(intentService) && intentService.Valid()
    {
      demoMode := DemoModeFlag(demoModeEnv);
      demoResponses := if DemoModeFlag(demoModeEnv) && demoResponsesFile.Some? then demoResponsesFile.value
                       else BuiltinDemoResponses();
      ragServiceCreated := RagServiceCreated(demoModeEnv);
      intentService := new IntentService();
    }

    /** `_get_demo_response`. The `"default"` entry is read before the lookup,
        so a table without it raises `KeyError` whatever the intent. */
    function GetDemoResponse(message: string, timestamp: string): (r: Result<ChatReply, string>)
      ensures r.Err? <==> "default" !in demoResponses
      ensures r.Ok? ==> r.value.intent == KeywordIntent(message, "default")
      ensures r.Ok? ==> r.value.response in demoResponses.Values
      ensures r.Ok? && r.value.intent in demoResponses ==> r.value.response == demoResponses[r.value.intent]
      ensures r.Ok? && r.value.intent !in demoResponses ==> r.value.response == demoResponses["default"]
      ensures r.Ok? ==> r.value.suggestedActions == SuggestedActions(r.value.intent) && r.value.timestamp == timestamp
    {
      var intent := KeywordIntent(message, "default");
      if "default" !in demoResponses then Err("KeyError: 'default'")
      else
        var response := DictGet(demoResponses, intent, demoResponses["default"]);
        Ok(ChatReply(response, intent, SuggestedActions(intent), timestamp))
    }

    /** `_detect_intent`: the keyword chain with "general_inquiry" as fallback;
        the retrieved sources play no part. */
    function DetectIntent(message: string, sources: seq<string>): (intent: string)
      ensures intent == "general_inquiry" <==>
                forall g :: 0 <= g < |KeywordGroups()| ==> !AnyIn(KeywordGroups()[g].1, Lower(message))
    {
      NoKeywordGivesFallback(message, "general_inquiry");
      KeywordIntent(message, "general_inquiry")
    }

    /** `_generate_suggested_actions`: the same table as the demo app's. */
    function GenerateSuggestedActions(intent: string): (acts: seq<SuggestedAction>)
      ensures acts == SuggestedActions(intent)
      ensures intent in ["special_events", "general_inquiry", "default", "error"] ==> acts == []
    {
      SuggestedActions(intent)
    }

    /** `process_message`, given the clock reading and the outcome of the
        retrieval step. In the live path every failure (no `rag_service`, a
        raised error, no `"answer"` entry) is caught and gives the apology. */
    function ProcessMessage(userId: string, message: string, sessionId: string, timestamp: string,
                            rag: Result<RagResult, string>): (r: Result<ChatReply, string>)
      ensures demoMode ==> r == GetDemoResponse(message, timestamp)
      ensures !demoMode ==> r.Ok? && r.value.timestamp == timestamp
      ensures !demoMode && (!ragServiceCreated || rag.Err? || rag.value.answer.None?) ==>
                r == Ok(ApologyReply(timestamp))
      ensures !demoMode && ragServiceCreated && rag.Ok? && rag.value.answer.Some? ==>
                r.value.response == rag.value.answer.value &&
                r.value.intent == KeywordIntent(message, "general_inquiry") &&
                r.value.suggestedActions == SuggestedActions(r.value.intent)
    {
      if demoMode then GetDemoResponse(message, timestamp)
      else if !ragServiceCreated then Ok(ApologyReply(timestamp))
      else
        match rag
        case Err(_) => Ok(ApologyReply(timestamp))
        case Ok(res) =>
          match res.answer
          case None => Ok(ApologyReply(timestamp))
          case Some(text) =>
            var intent := DetectIntent(message, res.sources);
            Ok(ChatReply(text, intent, GenerateSuggestedActions(intent), timestamp))
    }
  }

  /** With the built-in table every demo reply is the built-in default text. */
  lemma BuiltinTableAlwaysDefault(c: ChatService, message: string, timestamp: string)
    requires c.demoResponses == BuiltinDemoResponses()
    ensures c.GetDemoResponse(message, timestamp).Ok?
    ensures c.GetDemoResponse(message, timestamp).value.response == BuiltinDefaultReply
  {
    var intent := KeywordIntent(message, "default");
    assert intent in c.demoResponses ==> intent == "default";
  }

  /** The demo and live intents agree, except that a message with no keyword
      is "default" in one and "general_inquiry" in the other. */
  lemma DemoAndLiveIntentsAgree(c: ChatService, message: string, timestamp: string, sources: seq<string>)
    requires "default" in c.demoResponses
    ensures var demo := c.GetDemoResponse(message, timestamp).value.intent;
            var live := c.DetectIntent(message, sources);
            demo == live || (demo == "default" && live == "general_inquiry")
  {
    FallbackOnlyDiffers(message, "default", "general_inquiry");
  }

  /** The live intent does not depend on the sources. */
  lemma DetectIntentIgnoresSources(c: ChatService, message: string, s1: seq<string>, s2: seq<string>)
    ensures c.DetectIntent(message, s1) == c.DetectIntent(message, s2)
  {
  }
}
