/**
 * `RAGService` (`app/services/rag.py`): the prompt templates, the choice of
 * template by intent, the prompt built from the retrieved documents, and the
 * answer taken from the model's first generation.
 *
 * The FAISS similarity search is a parameter `search` (query and `k` to the
 * documents found), the Gemini server a parameter `post`, as in `Gemini`.
 */
module Rag {
  import opened Wrappers
  import opened Text
  import Seqs
  import Corpus
  import Gemini

  // ---------------------------------------------------------------------
  // Prompt templates
  // ---------------------------------------------------------------------

  /** A piece of a `PromptTemplate`: literal text or a `{name}` field. */
  datatype Piece = Lit(text: string) | Slot(name: string)

  type Template = seq<Piece>

  /** The field names a template uses. */
  function Vars(t: Template): set<string>
    decreases |t|
  {
    if t == [] then {} else (if t[0].Slot? then {t[0].name} else {}) + Vars(t[1..])
  }

  /** A piece put in front of the formatted rest. */
  function Fill(p: Piece, rest: Result<string, string>, vars: map<string, string>): Result<string, string> {
    if p.Slot? && p.name !in vars then Err(p.name)
    else if rest.Err? then rest
    else if p.Lit? then Ok(p.text + rest.value)
    else Ok(vars[p.name] + rest.value)
  }

  /** `template.format(**vars)`: the fields filled left to right; the first
      field without a value raises `KeyError` (here `Err` of its name), and
      values for names the template does not use are ignored. */
  function Format(t: Template, vars: map<string, string>): Result<string, string>
    decreases |t|
  {
    if t == [] then Ok("")
    else
      Fill(t[0], Format(t[1..], vars), vars)
  }

  /** Formatting succeeds exactly when every field has a value; a failure
      names a field that has none. */
  lemma {:induction false} FormatOk(t: Template, vars: map<string, string>)
    ensures Format(t, vars).Ok? <==> Vars(t) <= vars.Keys
    ensures Format(t, vars).Err? ==> Format(t, vars).error in Vars(t) && Format(t, vars).error !in vars
    decreases |t|
  {
    if t != [] {
      FormatOk(t[1..], vars);
    }
  }

  /** An entry for a name the template does not use changes nothing. */
  lemma {:induction false} FormatIgnoresUnused(t: Template, vars: map<string, string>, k: string, v: string)
    requires k !in Vars(t)
    ensures Format(t, vars[k := v]) == Format(t, vars)
    decreases |t|
  {
    if t != [] {
      FormatIgnoresUnused(t[1..], vars, k, v);
    }
  }

  lemma FormatCons(p: Piece, t: Template, vars: map<string, string>)
    ensures Format([p] + t, vars) == Fill(p, Format(t, vars), vars)
  {
    assert ([p] + t)[0] == p;
    assert ([p] + t)[1..] == t;
  }

  lemma FormatLit(a: string, t: Template, vars: map<string, string>, rest: string)
    requires Format(t, vars) == Ok(rest)
    ensures Format([Lit(a)] + t, vars) == Ok(a + rest)
  {
    FormatCons(Lit(a), t, vars);
  }

  lemma FormatSlot(x: string, t: Template, vars: map<string, string>, rest: string)
    requires x in vars && Format(t, vars) == Ok(rest)
    ensures Format([Slot(x)] + t, vars) == Ok(vars[x] + rest)
  {
    FormatCons(Slot(x), t, vars);
  }

  const Opening := "You are a helpful restaurant assistant for "
  const Indent12 := "            "
  const Indent16 := Indent12 + "    "

  /** The layout all four templates share: the opening naming the
      restaurant, the template's own instructions, then context, question
      and answer cue, each after a blank line and the template's indent. */
  function Frame(intro: string, indent: string): Template {
    Seven(Opening, "restaurant_name", ContextLabel(intro, indent), "context", QuestionLabel(indent), "question", AnswerCue(indent))
  }

  function ContextLabel(intro: string, indent: string): string {
    ". \n" + intro + "\n\n" + indent + "Context: "
  }

  function QuestionLabel(indent: string): string {
    "\n\n" + indent + "Question: "
  }

  function AnswerCue(indent: string): string {
    "\n\n" + indent + "Answer: "
  }

  /** Lines 30-31. */
  const BaseIntro :=
    Indent12 + "Use the following context to answer the question. If you don't know the answer, \n" +
    Indent12 + "just say that you don't know, don't try to make up an answer."

  /** Lines 45-47. */
  const MenuIntro :=
    Indent16 + "The user is asking about the menu. Use the following context about our menu items \n" +
    Indent16 + "to provide a detailed and appetizing response. Include prices and highlight any \n" +
    Indent16 + "special features or dietary accommodations."

  /** Lines 58-60. */
  const ReservationIntro :=
    Indent16 + "The user wants to make a reservation. Use the following context about our \n" +
    Indent16 + "reservation policies and availability to help them. Be sure to ask for any \n" +
    Indent16 + "missing information needed for the reservation."

  /** Lines 71-73. */
  const HoursIntro :=
    Indent16 + "The user is asking about our hours or location. Use the following context \n" +
    Indent16 + "to provide clear and accurate information about when we're open and where \n" +
    Indent16 + "to find us."

  /** Lines 28-39. */
  function BaseTemplate(): Template {
    Frame(BaseIntro, Indent12)
  }

  /** Lines 42-82. */
  function IntentTemplates(): map<string, Template> {
    map["menu_inquiry" := Frame(MenuIntro, Indent16),
        "reservation_request" := Frame(ReservationIntro, Indent16),
        "hours_location" := Frame(HoursIntro, Indent16)]
  }

  /** A template of three fields between four literal texts. */
  function Seven(a: string, x: string, b: string, y: string, c: string, z: string, d: string): Template {
    [Lit(a), Slot(x), Lit(b), Slot(y), Lit(c), Slot(z), Lit(d)]
  }

  lemma VarsSeven(a: string, x: string, b: string, y: string, c: string, z: string, d: string)
    ensures Vars(Seven(a, x, b, y, c, z, d)) == {x, y, z}
  {
    var t6: Template := [Lit(d)];
    var t5 := [Slot(z)] + t6;
    var t4 := [Lit(c)] + t5;
    var t3 := [Slot(y)] + t4;
    var t2 := [Lit(b)] + t3;
    var t1 := [Slot(x)] + t2;
    assert [Lit(a)] + t1 == Seven(a, x, b, y, c, z, d);
    VarsCons(Lit(d), []);
    assert [Lit(d)] + [] == t6;
    assert Vars(t6) == {};
    VarsCons(Slot(z), t6);
    assert Vars(t5) == {z};
    VarsCons(Lit(c), t5);
    VarsCons(Slot(y), t4);
    assert Vars(t3) == {y, z};
    VarsCons(Lit(b), t3);
    VarsCons(Slot(x), t2);
    assert Vars(t1) == {x, y, z};
    VarsCons(Lit(a), t1);
  }

  lemma VarsCons(p: Piece, t: Template)
    ensures Vars([p] + t) == (if p.Slot? then {p.name} else {}) + Vars(t)
  {
    assert ([p] + t)[0] == p;
    assert ([p] + t)[1..] == t;
  }

  lemma FormatSeven(a: string, x: string, b: string, y: string, c: string, z: string, d: string,
                    vars: map<string, string>)
    requires x in vars && y in vars && z in vars
    ensures Format(Seven(a, x, b, y, c, z, d), vars) == Ok(a + vars[x] + b + vars[y] + c + vars[z] + d)
  {
    var t6: Template := [Lit(d)];
    var t5 := [Slot(z)] + t6;
    var t4 := [Lit(c)] + t5;
    var t3 := [Slot(y)] + t4;
    var t2 := [Lit(b)] + t3;
    var t1 := [Slot(x)] + t2;
    assert [Lit(a)] + t1 == Seven(a, x, b, y, c, z, d);
    FormatCons(Lit(d), [], vars);
    assert d + "" == d;
    assert Format(t6, vars) == Ok(d);
    FormatSlot(z, t6, vars, d);
    FormatLit(c, t5, vars, vars[z] + d);
    FormatSlot(y, t4, vars, c + (vars[z] + d));
    FormatLit(b, t3, vars, vars[y] + (c + (vars[z] + d)));
    FormatSlot(x, t2, vars, b + (vars[y] + (c + (vars[z] + d))));
    FormatLit(a, t1, vars, vars[x] + (b + (vars[y] + (c + (vars[z] + d)))));
    var r6 := vars[z] + d;
    var r5 := c + r6;
    var r4 := vars[y] + r5;
    var r3 := b + r4;
    var r2 := vars[x] + r3;
    assert Format(Seven(a, x, b, y, c, z, d), vars) == Ok(a + r2);
    Assoc(a, vars[x], r3);
    Assoc(a + vars[x], b, r4);
    Assoc(a + vars[x] + b, vars[y], r5);
    Assoc(a + vars[x] + b + vars[y], c, r6);
    Assoc(a + vars[x] + b + vars[y] + c, vars[z], d);
  }

  lemma Assoc(p: string, q: string, r: string)
    ensures p + (q + r) == p + q + r
  {
  }

  /** Every template uses exactly the three names its `input_variables` list. */
  lemma FrameVars(intro: string, indent: string)
    ensures Vars(Frame(intro, indent)) == {"context", "question", "restaurant_name"}
  {
    VarsSeven(Opening, "restaurant_name", ContextLabel(intro, indent), "context", QuestionLabel(indent), "question", AnswerCue(indent));
  }

  /** The prompt a frame gives: the restaurant name, the context and the
      question each in their place, in that order. */
  function Prompt(intro: string, indent: string, name: string, context: string, question: string): string {
    Opening + name + ContextLabel(intro, indent) + context + QuestionLabel(indent) + question + AnswerCue(indent)
  }

  lemma FormatFrame(intro: string, indent: string, vars: map<string, string>)
    requires "restaurant_name" in vars && "context" in vars && "question" in vars
    ensures Format(Frame(intro, indent), vars) ==
              Ok(Prompt(intro, indent, vars["restaurant_name"], vars["context"], vars["question"]))
  {
    FormatSeven(Opening, "restaurant_name", ContextLabel(intro, indent), "context", QuestionLabel(indent), "question", AnswerCue(indent), vars);
  }

  // ---------------------------------------------------------------------
  // Choosing a template
  // ---------------------------------------------------------------------

  /** Line 90: the intent's own template, else the base one. */
  function SelectTemplate(intentPrompts: map<string, Template>, basePrompt: Template, intent: string): Template {
    DictGet(intentPrompts, intent, basePrompt)
  }

  /** The instructions and indent of the template an intent selects. */
  function IntroOf(intent: string): (string, string) {
    if intent == "menu_inquiry" then (MenuIntro, Indent16)
    else if intent == "reservation_request" then (ReservationIntro, Indent16)
    else if intent == "hours_location" then (HoursIntro, Indent16)
    else (BaseIntro, Indent12)
  }

  /** The three intents with a template of their own get it; every other
      intent, `general_inquiry` and `greeting` among them, gets the base one. */
  lemma SelectedTemplate(intent: string)
    ensures SelectTemplate(IntentTemplates(), BaseTemplate(), intent) == Frame(IntroOf(intent).0, IntroOf(intent).1)
    ensures intent !in {"menu_inquiry", "reservation_request", "hours_location"} ==>
              SelectTemplate(IntentTemplates(), BaseTemplate(), intent) == BaseTemplate()
  {
  }

  // ---------------------------------------------------------------------
  // get_response
  // ---------------------------------------------------------------------

  /** `settings.RESTAURANT_NAME` (`app/core/config.py`, line 28). */
  const RestaurantName := "Savory Haven"

  /** Line 87: the retrieved texts, one per line. */
  function Context(docs: seq<Corpus.Document>): string {
    Join(Seqs.Map((d: Corpus.Document) => d.pageContent, docs), "\n")
  }

  /** The context splits back into the documents' texts when none of them
      holds a line break. */
  lemma ContextLines(docs: seq<Corpus.Document>)
    requires |docs| >= 1
    requires forall k :: 0 <= k < |docs| ==> '\n' !in docs[k].pageContent
    ensures Split(Context(docs), '\n') == Seqs.Map((d: Corpus.Document) => d.pageContent, docs)
  {
    var f := (d: Corpus.Document) => d.pageContent;
    var pages := Seqs.Map(f, docs);
    forall k | 0 <= k < |pages| ensures '\n' !in pages[k] {
      Seqs.MapAt(f, docs, k);
    }
    SplitOfJoin(pages, '\n');
  }

  /** Lines 93-98. */
  function InputVariables(query: string, context: string): map<string, string> {
    map["query" := query, "context" := context, "question" := query, "restaurant_name" := RestaurantName]
  }

  /** Lines 101-105: the prompt formatted from the template, sent alone to
      the model, and the text of its first generation. */
  function Response(template: Template, llm: Gemini.GeminiLLM, query: string, docs: seq<Corpus.Document>,
                    post: (string, map<string, Gemini.Json>) -> Gemini.HttpResponse): Result<string, Gemini.CallError>
  {
    match Format(template, InputVariables(query, Context(docs)))
    case Err(_) => Err(Gemini.Uncaught("KeyError"))
    case Ok(prompt) =>
      match Gemini.Generations(Gemini.Generator(llm, post), [prompt])
      case Err(e) => Err(e)
      case Ok(gs) => if |gs| > 0 && |gs[0]| > 0 then Ok(gs[0][0].text) else Err(Gemini.Uncaught("IndexError"))
  }

  /** The prompt for an intent: the restaurant's name, the intent's
      instructions, the retrieved context and the question; no template
      lacks a value. */
  lemma PromptFor(intent: string, query: string, docs: seq<Corpus.Document>)
    ensures Format(SelectTemplate(IntentTemplates(), BaseTemplate(), intent), InputVariables(query, Context(docs))) ==
              Ok(Prompt(IntroOf(intent).0, IntroOf(intent).1, RestaurantName, Context(docs), query))
  {
    SelectedTemplate(intent);
    FormatFrame(IntroOf(intent).0, IntroOf(intent).1, InputVariables(query, Context(docs)));
  }

  /** Once the prompt is formatted, the answer is the model's reply to it, or
      the model's error: the index of line 105 always exists. */
  lemma ResponseOfPrompt(template: Template, llm: Gemini.GeminiLLM, query: string, docs: seq<Corpus.Document>,
                         post: (string, map<string, Gemini.Json>) -> Gemini.HttpResponse, prompt: string)
    requires Format(template, InputVariables(query, Context(docs))) == Ok(prompt)
    ensures Response(template, llm, query, docs, post) ==
              match Gemini.Generate(llm, prompt, post)
              case Err(e) => Err(e)
              case Ok(g) => Ok(g.text)
  {
    Gemini.GenerationsOne(Gemini.Generator(llm, post), prompt);
  }

  /** The answer to a query under an intent is the model's reply to that
      intent's prompt, or the model's error. */
  lemma ResponseMeaning(intent: string, llm: Gemini.GeminiLLM, query: string, docs: seq<Corpus.Document>,
                        post: (string, map<string, Gemini.Json>) -> Gemini.HttpResponse)
    ensures Response(SelectTemplate(IntentTemplates(), BaseTemplate(), intent), llm, query, docs, post) ==
              match Gemini.Generate(llm, Prompt(IntroOf(intent).0, IntroOf(intent).1, RestaurantName, Context(docs), query), post)
              case Err(e) => Err(e)
              case Ok(g) => Ok(g.text)
  {
    PromptFor(intent, query, docs);
    ResponseOfPrompt(SelectTemplate(IntentTemplates(), BaseTemplate(), intent), llm, query, docs, post,
                     Prompt(IntroOf(intent).0, IntroOf(intent).1, RestaurantName, Context(docs), query));
  }

  class RAGService {
    var basePrompt: Template
    var intentPrompts: map<string, Template>
    var llm: Gemini.GeminiLLM

    /** The state `__init__` leaves. */
    predicate Ready()
      reads this
    {
      basePrompt == BaseTemplate() && intentPrompts == IntentTemplates()
    }

    /** Lines 10-24; the embedding model and the FAISS index are not part of
        this model. */
    constructor(apiKey: string)
      ensures Ready()
      ensures llm == Gemini.WithDefaults(apiKey)
    {
      llm := Gemini.WithDefaults(apiKey);
      basePrompt := [];
      intentPrompts := map[];
      new;
      SetupPrompts();
    }

    /** Lines 26-82. */
    method SetupPrompts()
      modifies this
      ensures Ready()
      ensures llm == old(llm)
    {
      basePrompt := Frame(BaseIntro, Indent12);
      intentPrompts := map[
        "menu_inquiry" := Frame(MenuIntro, Indent16),
        "reservation_request" := Frame(ReservationIntro, Indent16),
        "hours_location" := Frame(HoursIntro, Indent16)];
    }

    /** Lines 84-105. */
    method GetResponse(query: string, intent: string, search: (string, nat) -> seq<Corpus.Document>,
                       post: (string, map<string, Gemini.Json>) -> Gemini.HttpResponse) returns (r: Result<string, Gemini.CallError>)
      ensures r == Response(SelectTemplate(intentPrompts, basePrompt, intent), llm, query, search(query, 3), post)
      ensures Ready() ==>
                r == match Gemini.Generate(llm, Prompt(IntroOf(intent).0, IntroOf(intent).1, RestaurantName,
                                                       Context(search(query, 3)), query), post)
                     case Err(e) => Err(e)
                     case Ok(g) => Ok(g.text)
    {
      var docs := search(query, 3);
      if Ready() {
        ResponseMeaning(intent, llm, query, docs, post);
      }
      var context := Context(docs);
      var prompt := DictGet(intentPrompts, intent, basePrompt);
      var inputVariables := map["query" := query, "context" := context, "question" := query, "restaurant_name" := RestaurantName];
      var formatted := Format(prompt, inputVariables);
      if formatted.Err? {
        return Err(Gemini.Uncaught("KeyError"));
      }
      var result := Gemini.AGenerate(llm, [formatted.value], None, post);
      if result.Err? {
        return Err(result.error);
      }
      var gs: seq<seq<Gemini.Generation>> := result.value;
      if |gs| > 0 && |gs[0]| > 0 {
        r := Ok(gs[0][0].text);
      } else {
        r := Err(Gemini.Uncaught("IndexError"));
      }

    }
  }
}
