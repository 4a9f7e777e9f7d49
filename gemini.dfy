/**
 * `GeminiLLM` (`app/services/llm.py`; `medibot.py` holds an identical copy):
 * the request it sends to the Gemini `generateContent` endpoint and how it
 * reads the reply.
 *
 * The HTTP round trip is a parameter `post`: the reply the server gives to a
 * URL and a request body. JSON values are what `json.loads` returns, with
 * objects as dictionaries.
 */
module Gemini {
  import opened Wrappers
  import opened Text

  datatype Json =
    | JNull
    | JBool(b: bool)
    | JNum(n: real)
    | JStr(s: string)
    | JArr(elems: seq<Json>)
    | JObj(fields: map<string, Json>)

  /** The model's settings; `None` stands for a field set to `None`. */
  datatype GeminiLLM = GeminiLLM(apiKey: string, modelName: string, temperature: Option<real>, maxTokens: Option<int>)

  /** The class defaults, lines 10-12. */
  function WithDefaults(apiKey: string): (llm: GeminiLLM)
    ensures llm.apiKey == apiKey && llm.modelName == "gemini-2.0-flash"
    ensures llm.temperature == Some(0.5) && llm.maxTokens == Some(512)
  {
    GeminiLLM(apiKey, "gemini-2.0-flash", Some(0.5), Some(512))
  }

  // ---------------------------------------------------------------------
  // The request
  // ---------------------------------------------------------------------

  const Host := "//generativelanguage.googleapis.com"
  const ModelsPath := Host + "/v1beta/models/"
  const KeyQuery := "generateContent?key="

  /** Line 19. */
  function Url(llm: GeminiLLM): string {
    "https:" + ModelsPath + llm.modelName + ":" + KeyQuery + llm.apiKey
  }

  lemma NoColonInParts()
    ensures ':' !in ModelsPath && ':' !in KeyQuery
  {
    forall k | 0 <= k < |Host| ensures Host[k] != ':' {
    }
    assert ':' !in "/v1beta/models/";
    NoColonConcat(Host, "/v1beta/models/");
    forall k | 0 <= k < |KeyQuery| ensures KeyQuery[k] != ':' {
    }
  }

  lemma NoColonConcat(a: string, b: string)
    requires ':' !in a && ':' !in b
    ensures ':' !in a + b
  {
    forall k | 0 <= k < |a + b| ensures (a + b)[k] != ':' {
      if k >= |a| {
        assert (a + b)[k] == b[k - |a|];
      }
    }
  }

  /** The URL splits at its colons into the scheme, the model path and the
      key query, and the model name and the key are read back from them,
      when neither holds a colon. */
  lemma UrlParts(llm: GeminiLLM)
    requires ':' !in llm.modelName && ':' !in llm.apiKey
    ensures Split(Url(llm), ':') == ["https", ModelsPath + llm.modelName, KeyQuery + llm.apiKey]
    ensures (ModelsPath + llm.modelName)[|ModelsPath|..] == llm.modelName
    ensures (KeyQuery + llm.apiKey)[|KeyQuery|..] == llm.apiKey
  {
    var path, query := ModelsPath + llm.modelName, KeyQuery + llm.apiKey;
    NoColonInParts();
    NoColonConcat(ModelsPath, llm.modelName);
    NoColonConcat(KeyQuery, llm.apiKey);
    assert Url(llm) == "https" + [':'] + (path + [':'] + query);
    SplitAtFirst("https", ':', path + [':'] + query);
    SplitAtFirst(path, ':', query);
  }

  /** Lines 22-24: `[{"parts": [{"text": prompt}]}]`. */
  function Contents(prompt: string): Json {
    JArr([JObj(map["parts" := JArr([JObj(map["text" := JStr(prompt)])])])])
  }

  /** Whether the body gets a `generationConfig` entry. */
  predicate Configured(llm: GeminiLLM) {
    llm.temperature.Some? || llm.maxTokens.Some?
  }

  /** Lines 27-33: `generationConfig`, as it stands after both steps. */
  function GenerationConfig(llm: GeminiLLM): map<string, Json> {
    (if llm.temperature.Some? then map["temperature" := JNum(llm.temperature.value)] else map[]) +
    (if llm.maxTokens.Some? then map["maxOutputTokens" := JNum(llm.maxTokens.value as real)] else map[])
  }

  /** Lines 21-33: the request body. */
  function RequestBody(llm: GeminiLLM, prompt: string): map<string, Json> {
    map["contents" := Contents(prompt)] +
    (if Configured(llm) then map["generationConfig" := JObj(GenerationConfig(llm))] else map[])
  }

  /** The body always carries the prompt under `contents`; it has a
      `generationConfig` exactly when a temperature or a token limit is set,
      holding the temperature exactly when it is set and `maxOutputTokens`
      exactly when the limit is set, and nothing else. */
  lemma RequestBodyShape(llm: GeminiLLM, prompt: string)
    ensures RequestBody(llm, prompt).Keys ==
              {"contents"} + (if Configured(llm) then {"generationConfig"} else {})
    ensures RequestBody(llm, prompt)["contents"] == Contents(prompt)
    ensures "generationConfig" in RequestBody(llm, prompt) <==> llm.temperature.Some? || llm.maxTokens.Some?
    ensures "generationConfig" in RequestBody(llm, prompt) ==>
              var cfg := RequestBody(llm, prompt)["generationConfig"];
              cfg.JObj? &&
              cfg.fields.Keys <= {"temperature", "maxOutputTokens"} &&
              ("temperature" in cfg.fields <==> llm.temperature.Some?) &&
              ("maxOutputTokens" in cfg.fields <==> llm.maxTokens.Some?) &&
              (llm.temperature.Some? ==> cfg.fields["temperature"] == JNum(llm.temperature.value)) &&
              (llm.maxTokens.Some? ==> cfg.fields["maxOutputTokens"] == JNum(llm.maxTokens.value as real))
  {
    assert "contents" != "generationConfig";
    assert "temperature" != "maxOutputTokens";
  }

  /** Lines 21-33: the body dictionary, built step by step. */
  method BuildBody(llm: GeminiLLM, prompt: string) returns (data: map<string, Json>)
    ensures data == RequestBody(llm, prompt)
  {
    data := map["contents" := Contents(prompt)];
    if llm.temperature.Some? {
      data := data["generationConfig" := JObj(map["temperature" := JNum(llm.temperature.value)])];
    }
    if llm.maxTokens.Some? {
      if "generationConfig" !in data {
        data := data["generationConfig" := JObj(map[])];
      }
      var config := data["generationConfig"];
      data := data["generationConfig" := JObj(config.fields["maxOutputTokens" := JNum(llm.maxTokens.value as real)])];
    }
    assert "contents" != "generationConfig";
    ConfigSteps(llm);
  }

  /** The two updates of `generationConfig` give `GenerationConfig`. */
  lemma ConfigSteps(llm: GeminiLLM)
    ensures var first := if llm.temperature.Some? then map["temperature" := JNum(llm.temperature.value)] else map[];
            GenerationConfig(llm) ==
            if llm.maxTokens.Some? then first["maxOutputTokens" := JNum(llm.maxTokens.value as real)] else first
  {
    assert "temperature" != "maxOutputTokens";
  }

  // ---------------------------------------------------------------------
  // The reply
  // ---------------------------------------------------------------------

  /** The reply's status, its text, and its body as JSON (`None` when the
      body is not JSON). */
  datatype HttpResponse = HttpResponse(statusCode: int, text: string, body: Option<Json>)

  /** One subscript of line 43: a key, or the index 0. */
  datatype Step = Key(name: string) | First

  /** What a failing subscript raises: `KeyError` (with `str` of it),
      `IndexError` (with its message), or `TypeError`. */
  datatype Fault = KeyFault(repr: string) | IndexFault(message: string) | TypeFault

  /** Python's `j[step]` on a decoded JSON value. */
  function Subscript(j: Json, step: Step): Result<Json, Fault> {
    match step
    case Key(k) =>
      if j.JObj? then (if k in j.fields then Ok(j.fields[k]) else Err(KeyFault("'" + k + "'")))
      else Err(TypeFault)
    case First =>
      match j
      case JArr(es) => if es == [] then Err(IndexFault("list index out of range")) else Ok(es[0])
      case JObj(_) => Err(KeyFault("0"))
      case JStr(s) => if s == [] then Err(IndexFault("string index out of range")) else Ok(JStr([s[0]]))
      case _ => Err(TypeFault)
  }

  /** The subscripts applied left to right, stopping at the first failure. */
  function Path(j: Json, steps: seq<Step>): Result<Json, Fault>
    decreases |steps|
  {
    if steps == [] then Ok(j)
    else
      match Subscript(j, steps[0])
      case Err(f) => Err(f)
      case Ok(v) => Path(v, steps[1..])
  }

  /** The path from its `k`-th subscript on. */
  lemma PathStep(j: Json, steps: seq<Step>, k: nat)
    requires k < |steps|
    ensures Path(j, steps[k..]) ==
              match Subscript(j, steps[k])
              case Err(f) => Err(f)
              case Ok(v) => Path(v, steps[k + 1..])
  {
    assert steps[k..][0] == steps[k];
    assert steps[k..][1..] == steps[k + 1..];
  }

  /** `["candidates"][0]["content"]["parts"][0]["text"]`. */
  const TextPath: seq<Step> := [Key("candidates"), First, Key("content"), Key("parts"), First, Key("text")]

  /** What `_call` raises: a `ValueError` with the message it builds, or an
      exception it lets through (`TypeError`, a JSON decoding error, and the
      validation error of a non-text generation). */
  datatype CallError = ValueError(message: string) | Uncaught(name: string)

  const StatusError := "Error from Gemini API: "
  const FormatError := "Unexpected response format from Gemini API: "

  function FaultText(f: Fault): string {
    match f
    case KeyFault(r) => r
    case IndexFault(m) => m
    case TypeFault => "TypeError"
  }

  /** Lines 37-46: the value `_call` returns for a reply, or what it raises. */
  function Reply(resp: HttpResponse): Result<Json, CallError> {
    if resp.statusCode != 200 then Err(ValueError(StatusError + resp.text))
    else if resp.body.None? then Err(Uncaught("JSONDecodeError"))
    else
      match Path(resp.body.value, TextPath)
      case Ok(v) => Ok(v)
      case Err(TypeFault) => Err(Uncaught("TypeError"))
      case Err(f) => Err(ValueError(FormatError + FaultText(f)))
  }

  /** A reply of the documented shape. */
  function Shaped(text: string): Json {
    JObj(map["candidates" := JArr([JObj(map["content" := JObj(map["parts" := JArr([JObj(map["text" := JStr(text)])])])])])])
  }

  /** The text of a reply of the documented shape is what `_call` returns. */
  lemma ReplyOfShaped(text: string, raw: string)
    ensures Reply(HttpResponse(200, raw, Some(Shaped(text)))) == Ok(JStr(text))
  {
    var leaf := JObj(map["text" := JStr(text)]);
    var parts := JArr([leaf]);
    var content := JObj(map["parts" := parts]);
    var candidate := JObj(map["content" := content]);
    var candidates := JArr([candidate]);
    assert Shaped(text) == JObj(map["candidates" := candidates]);
    assert TextPath[6..] == [];
    PathStep(leaf, TextPath, 5);
    PathStep(parts, TextPath, 4);
    PathStep(content, TextPath, 3);
    PathStep(candidate, TextPath, 2);
    PathStep(candidates, TextPath, 1);
    PathStep(Shaped(text), TextPath, 0);
    assert TextPath[0..] == TextPath;
  }

  /** Any status other than 200 is an error carrying the reply text, whatever
      the body. */
  lemma ReplyNot200(resp: HttpResponse)
    requires resp.statusCode != 200
    ensures Reply(resp) == Err(ValueError(StatusError + resp.text))
  {
  }

  /** A reply object without `candidates` is a format error naming the key. */
  lemma ReplyMissingCandidates(raw: string, fields: map<string, Json>)
    requires "candidates" !in fields
    ensures Reply(HttpResponse(200, raw, Some(JObj(fields)))) == Err(ValueError(FormatError + "'candidates'"))
  {
    PathStep(JObj(fields), TextPath, 0);
    assert TextPath[0..] == TextPath;
    assert Path(JObj(fields), TextPath) == Err(KeyFault("'" + "candidates" + "'"));
    assert "'" + "candidates" + "'" == "'candidates'";
  }

  /** An empty list of candidates is a format error naming the bad index. */
  lemma ReplyNoCandidates(raw: string, fields: map<string, Json>)
    requires "candidates" in fields && fields["candidates"] == JArr([])
    ensures Reply(HttpResponse(200, raw, Some(JObj(fields)))) == Err(ValueError(FormatError + "list index out of range"))
  {
    PathStep(JObj(fields), TextPath, 0);
    PathStep(fields["candidates"], TextPath, 1);
    assert TextPath[0..] == TextPath;
    assert Path(JObj(fields), TextPath) == Err(IndexFault("list index out of range"));
  }

  /** `_call` returns a value exactly when the status is 200, the body is
      JSON and every subscript of line 43 succeeds; the value is the one the
      subscripts reach. */
  lemma ReplyOk(resp: HttpResponse)
    ensures Reply(resp).Ok? <==> resp.statusCode == 200 && resp.body.Some? && Path(resp.body.value, TextPath).Ok?
    ensures Reply(resp).Ok? ==> Reply(resp).value == Path(resp.body.value, TextPath).value
  {
  }

  /** Lines 18-46: `_call`, with the server reply taken from `post`. */
  method Call(llm: GeminiLLM, prompt: string, stop: Option<seq<string>>,
              post: (string, map<string, Json>) -> HttpResponse) returns (r: Result<Json, CallError>)
    ensures r == Reply(post(Url(llm), RequestBody(llm, prompt)))
  {
    var url := "https:" + ModelsPath + llm.modelName + ":" + KeyQuery + llm.apiKey;
    var data := BuildBody(llm, prompt);
    var response := post(url, data);
    if response.statusCode != 200 {
      return Err(ValueError(StatusError + response.text));
    }
    if response.body.None? {
      return Err(Uncaught("JSONDecodeError"));
    }
    var extracted := Path(response.body.value, TextPath);
    match extracted
    case Ok(v) => r := Ok(v);
    case Err(TypeFault) => r := Err(Uncaught("TypeError"));
    case Err(f) => r := Err(ValueError(FormatError + FaultText(f)));
  }

  // ---------------------------------------------------------------------
  // agenerate
  // ---------------------------------------------------------------------

  datatype Generation = Generation(text: string)

  /** `Generation(text=...)`: only text is accepted. */
  function GenerationOf(v: Json): Result<Generation, CallError> {
    if v.JStr? then Ok(Generation(v.s)) else Err(Uncaught("ValidationError"))
  }

  /** The result of one prompt. */
  function Generate(llm: GeminiLLM, prompt: string, post: (string, map<string, Json>) -> HttpResponse): Result<Generation, CallError> {
    match Reply(post(Url(llm), RequestBody(llm, prompt)))
    case Err(e) => Err(e)
    case Ok(v) => GenerationOf(v)
  }

  /** `Generate` for a fixed model and server. */
  function Generator(llm: GeminiLLM, post: (string, map<string, Json>) -> HttpResponse): string -> Result<Generation, CallError> {
    p => Generate(llm, p, post)
  }

  /** Lines 52-57: one single-generation list per prompt, in prompt order;
      the first failing prompt stops the rest. */
  function Generations(gen: string -> Result<Generation, CallError>, prompts: seq<string>):
    Result<seq<seq<Generation>>, CallError>
  {
    if prompts == [] then Ok([])
    else
      match Generations(gen, prompts[..|prompts| - 1])
      case Err(e) => Err(e)
      case Ok(gs) =>
        match gen(prompts[|prompts| - 1])
        case Err(e) => Err(e)
        case Ok(g) => Ok(gs + [[g]])
  }

  lemma GenerationsStep(gen: string -> Result<Generation, CallError>, prompts: seq<string>, i: nat)
    requires i < |prompts|
    ensures Generations(gen, prompts[..i + 1]) ==
              match Generations(gen, prompts[..i])
              case Err(e) => Err(e)
              case Ok(gs) =>
                match gen(prompts[i])
                case Err(e) => Err(e)
                case Ok(g) => Ok(gs + [[g]])
  {
    assert prompts[..i + 1][..i] == prompts[..i];
  }

  /** A single prompt gives its one generation, or its error. */
  lemma GenerationsOne(gen: string -> Result<Generation, CallError>, prompt: string)
    ensures Generations(gen, [prompt]) ==
              match gen(prompt)
              case Err(e) => Err(e)
              case Ok(g) => Ok([[g]])
  {
    assert [prompt][..0] == [];
    assert Generations(gen, [prompt][..0]) == Ok([]);
    if gen(prompt).Ok? {
      assert [] + [[gen(prompt).value]] == [[gen(prompt).value]];
    }
  }

  lemma {:induction false} GenerationsErrStays(gen: string -> Result<Generation, CallError>, a: seq<string>, b: seq<string>)
    requires Generations(gen, a).Err?
    ensures Generations(gen, a + b) == Generations(gen, a)
    decreases |b|
  {
    if b == [] {
      assert a + b == a;
    } else {
      var init := b[..|b| - 1];
      assert (a + b)[..|a + b| - 1] == a + init;
      GenerationsErrStays(gen, a, init);
    }
  }

  /** Every prompt succeeds exactly when the whole call does; then there is
      one list per prompt, in order, holding that prompt's one generation. */
  lemma {:induction false} GenerationsOk(gen: string -> Result<Generation, CallError>, prompts: seq<string>)
    ensures Generations(gen, prompts).Ok? <==> forall k :: 0 <= k < |prompts| ==> gen(prompts[k]).Ok?
    ensures Generations(gen, prompts).Ok? ==>
              |Generations(gen, prompts).value| == |prompts| &&
              forall k :: 0 <= k < |prompts| ==> Generations(gen, prompts).value[k] == [gen(prompts[k]).value]
  {
    if prompts != [] {
      var init := prompts[..|prompts| - 1];
      GenerationsOk(gen, init);
      assert forall k :: 0 <= k < |init| ==> init[k] == prompts[k];
    }
  }

  /** When some prompt fails, the error is that of the first failing one. */
  lemma {:induction false} GenerationsFirstError(gen: string -> Result<Generation, CallError>, prompts: seq<string>)
    requires Generations(gen, prompts).Err?
    ensures exists k :: 0 <= k < |prompts| && gen(prompts[k]) == Err(Generations(gen, prompts).error) &&
              forall i :: 0 <= i < k ==> gen(prompts[i]).Ok?
  {
    var init := prompts[..|prompts| - 1];
    var last := |prompts| - 1;
    if Generations(gen, init).Err? {
      GenerationsFirstError(gen, init);
      var k :| 0 <= k < |init| && gen(init[k]) == Err(Generations(gen, init).error) &&
               forall i :: 0 <= i < k ==> gen(init[i]).Ok?;
      assert forall i :: 0 <= i <= k ==> init[i] == prompts[i];
      assert exists k :: 0 <= k < |prompts| && gen(prompts[k]) == Err(Generations(gen, prompts).error) &&
               forall i :: 0 <= i < k ==> gen(prompts[i]).Ok?;
    } else {
      GenerationsOk(gen, init);
      assert forall i :: 0 <= i < last ==> init[i] == prompts[i];
      assert exists k :: 0 <= k < |prompts| && gen(prompts[k]) == Err(Generations(gen, prompts).error) &&
               forall i :: 0 <= i < k ==> gen(prompts[i]).Ok?;
    }
  }

  /** A failing prompt in the loop of lines 54-56 decides the whole result. */
  lemma GenerationsLoopErr(gen: string -> Result<Generation, CallError>, prompts: seq<string>, i: nat,
                           done: seq<seq<Generation>>)
    requires i < |prompts| && Generations(gen, prompts[..i]) == Ok(done) && gen(prompts[i]).Err?
    ensures Generations(gen, prompts) == Err(gen(prompts[i]).error)
  {
    var head, rest := prompts[..i + 1], prompts[i + 1..];
    GenerationsStep(gen, prompts, i);
    assert Generations(gen, head) == Err(gen(prompts[i]).error);
    GenerationsErrStays(gen, head, rest);
    assert head + rest == prompts;
  }

  /** A successful prompt extends the generations by its own. */
  lemma GenerationsLoopOk(gen: string -> Result<Generation, CallError>, prompts: seq<string>, i: nat,
                          done: seq<seq<Generation>>)
    requires i < |prompts| && Generations(gen, prompts[..i]) == Ok(done) && gen(prompts[i]).Ok?
    ensures Generations(gen, prompts[..i + 1]) == Ok(done + [[gen(prompts[i]).value]])
  {
    GenerationsStep(gen, prompts, i);
  }

  /** One pass of the loop body of lines 54-56. */
  method GenerateOne(llm: GeminiLLM, prompt: string, stop: Option<seq<string>>,
                     post: (string, map<string, Json>) -> HttpResponse) returns (g: Result<Generation, CallError>)
    ensures g == Generate(llm, prompt, post)
  {
    var text := Call(llm, prompt, stop, post);
    if text.Err? {
      return Err(text.error);
    }
    g := GenerationOf(text.value);
  }

  /** Lines 48-57: `agenerate`; `stop` reaches `_call`, which ignores it. */
  method AGenerate(llm: GeminiLLM, prompts: seq<string>, stop: Option<seq<string>>,
                   post: (string, map<string, Json>) -> HttpResponse) returns (r: Result<seq<seq<Generation>>, CallError>)
    ensures r == Generations(Generator(llm, post), prompts)
  {
    var gen := Generator(llm, post);
    var generations: seq<seq<Generation>> := [];
    var i := 0;
    assert prompts[..0] == [];
    while i < |prompts|
      invariant 0 <= i <= |prompts|
      invariant Generations(gen, prompts[..i]) == Ok(generations)
    {
      var g := GenerateOne(llm, prompts[i], stop, post);
      assert gen(prompts[i]) == g;
      if g.Err? {
        GenerationsLoopErr(gen, prompts, i, generations);
        return Err(g.error);
      }
      GenerationsLoopOk(gen, prompts, i, generations);
      generations := generations + [[g.value]];
      i := i + 1;
    }
    assert prompts[..i] == prompts;
    r := Ok(generations);
  }
}
