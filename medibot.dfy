/**
 * The text utilities of `medibot.py`: the exact-phrase greeting detector,
 * the canned-reply router, the source-citation formatter and the chat
 * download link.
 */
module MediBot {
  import opened Wrappers
  import opened Text
  import opened Tables
  import opened TableExtraction
  import Base64
  import Utf8
  import Bytes
  import opened Seqs

  // ---------------------------------------------------------------------
  // Greetings and general queries
  // ---------------------------------------------------------------------

  /** The 19 anchored phrases of `is_greeting_or_general_query`. */
  const GreetingPhrases: seq<string> := [
    "hi", "hello", "hey", "hi there", "hello there",
    "greetings", "howdy", "good morning", "good afternoon",
    "good evening", "what's up", "how are you", "how are you doing",
    "how do you work", "what can you do", "who are you",
    "what are you", "tell me about yourself", "introduce yourself"
  ]

  /** The lowercased, trimmed query that both routines compare. */
  function Normalized(text: string): string {
    Strip(Lower(text))
  }

  predicate IsGreeting(text: string) {
    Normalized(text) in GreetingPhrases
  }

  /** The loop of `is_greeting_or_general_query`: tries the phrases in
      order and stops at the first that equals `t`. */
  method MatchesAnyPhrase(t: string) returns (b: bool)
    ensures b <==> t in GreetingPhrases
  {
    var i := 0;
    while i < |GreetingPhrases|
      invariant 0 <= i <= |GreetingPhrases|
      invariant forall j :: 0 <= j < i ==> GreetingPhrases[j] != t
    {
      if t == GreetingPhrases[i] {
        return true;
      }
      i := i + 1;
    }
    return false;
  }

  /** `is_greeting_or_general_query`: whether the lowercased, trimmed text is
      one of the listed phrases. */
  method IsGreetingOrGeneralQuery(text: string) returns (b: bool)
    ensures b <==> IsGreeting(text)
  {
    var t := Strip(Lower(text));
    b := MatchesAnyPhrase(t);
  }

  const HelloWords: seq<string> := ["hi", "hello", "hey", "greetings", "howdy"]
  const DayGreetings: seq<string> := ["good morning", "good afternoon", "good evening"]
  const WellBeingQuestions: seq<string> := ["how are you", "how are you doing", "what's up"]
  const IdentityQuestions: seq<string> := ["who are you", "what are you", "tell me about yourself", "introduce yourself"]
  const CapabilityQuestions: seq<string> := ["how do you work", "what can you do"]

  /** `^(hi|hello|hey|greetings|howdy)( there)?$`: a hello word, optionally
      followed by " there". */
  predicate IsHello(q: string) {
    || q in HelloWords
    || (|q| >= 6 && q[|q| - 6..] == " there" && q[..|q| - 6] in HelloWords)
  }

  const HelloReply :=
    "Hello Dr. Moumi! I'm MediBot, your medical information assistant. I " +
    "can answer questions about medical conditions, treatments, and health " +
    "topics based on The Gale Encyclopedia of Medicine and Davidson's " +
    "Medicine. How can I help you today?"
  const DayReply :=
    "Good day Dr. Moumi! I'm MediBot, your medical information assistant. I " +
    "can provide information about various medical topics from multiple " +
    "medical references. What would you like to know?"
  const WellBeingReply :=
    "I'm functioning well, thank you for asking Dr. Moumi! I'm here to " +
    "provide you with medical information from trusted medical references. " +
    "What medical topic would you like to learn about?"
  const IdentityReply :=
    "I'm MediBot, an AI assistant specialized in medical information " +
    "created for Dr. Moumi. I was built using multiple medical references " +
    "including The Gale Encyclopedia of Medicine and Davidson's Medicine " +
    "24th Edition. I can provide information on various medical conditions, " +
    "treatments, procedures, and health topics. My knowledge is based on " +
    "the content of these medical references, so I can help answer specific " +
    "medical questions you might have."
  const CapabilityReply :=
    "I work by searching through multiple medical references to find " +
    "relevant information about your medical questions, Dr. Moumi. When you " +
    "ask me a specific medical question, I search for the most relevant " +
    "information in my knowledge base and provide you with accurate answers " +
    "based on The Gale Encyclopedia of Medicine and Davidson's Medicine. I " +
    "can help with questions about diseases, treatments, symptoms, medical " +
    "procedures, and general health topics."

  /** The five phrase families of `get_general_response`, in test order. */
  datatype PhraseFamily = Hello | DayGreeting | WellBeing | Identity | Capability

  /** The first family `q` belongs to, `None` outside all five. */
  function FamilyOf(q: string): Option<PhraseFamily> {
    if IsHello(q) then Some(Hello)
    else if q in DayGreetings then Some(DayGreeting)
    else if q in WellBeingQuestions then Some(WellBeing)
    else if q in IdentityQuestions then Some(Identity)
    else if q in CapabilityQuestions then Some(Capability)
    else None
  }

  function CannedReply(f: PhraseFamily): string {
    match f
    case Hello => HelloReply
    case DayGreeting => DayReply
    case WellBeing => WellBeingReply
    case Identity => IdentityReply
    case Capability => CapabilityReply
  }

  /** `get_general_response` */
  function GeneralResponse(query: string): (r: Option<string>)
    ensures r.Some? <==> FamilyOf(Normalized(query)).Some?
    ensures r.Some? ==> r.value == CannedReply(FamilyOf(Normalized(query)).value)
  {
    match FamilyOf(Normalized(query))
    case Some(f) => Some(CannedReply(f))
    case None => None
  }

  /** The hello words followed by " there", written out. */
  const HelloThere: seq<string> := ["hi there", "hello there", "hey there", "greetings there", "howdy there"]

  /** Every phrase the five families accept, written out. */
  const GeneralPhrases: seq<string> :=
    HelloWords + HelloThere + DayGreetings + WellBeingQuestions + IdentityQuestions + CapabilityQuestions

  lemma ThereSuffix(w: string)
    ensures (w + " there")[|w + " there"| - 6..] == " there" && (w + " there")[..|w + " there"| - 6] == w
  {
    assert (w + " there")[..|w|] == w;
  }

  /** The optional group expands to exactly the ten written-out phrases. */
  lemma HelloFamily(q: string)
    ensures IsHello(q) <==> q in HelloWords + HelloThere
  {
    var there := " there";
    assert forall k :: 0 <= k < 5 ==> HelloThere[k] == HelloWords[k] + there;
    if |q| >= 6 && q[|q| - 6..] == there && q[..|q| - 6] in HelloWords {
      var k :| 0 <= k < 5 && HelloWords[k] == q[..|q| - 6];
      assert q == q[..|q| - 6] + q[|q| - 6..];
      assert q == HelloThere[k];
    }
    if q in HelloThere {
      var k :| 0 <= k < 5 && HelloThere[k] == q;
      ThereSuffix(HelloWords[k]);
    }
  }

  /** `q` belongs to a family exactly when it is one of the 22 phrases. */
  lemma FamilyDomain(q: string)
    ensures FamilyOf(q).Some? <==> q in GeneralPhrases
  {
    HelloFamily(q);
  }

  /** So `get_general_response` answers exactly the normalized queries among them. */
  lemma GeneralResponseDomain(query: string)
    ensures GeneralResponse(query).Some? <==> Normalized(query) in GeneralPhrases
  {
    FamilyDomain(Normalized(query));
  }

  lemma GreetingPhrasesAreGeneral()
    ensures forall k :: 0 <= k < |GreetingPhrases| ==> GreetingPhrases[k] in GeneralPhrases
  {
  }

  /** Every greeting the detector accepts gets a canned reply. */
  lemma GreetingGetsReply(text: string)
    requires IsGreeting(text)
    ensures GeneralResponse(text).Some?
  {
    GreetingPhrasesAreGeneral();
    GeneralResponseDomain(text);
  }

  lemma HeyThereIsHelloNotGreeting()
    ensures FamilyOf("hey there") == Some(Hello)
    ensures "hey there" !in GreetingPhrases
  {
    assert "hey there" in HelloWords + HelloThere;
    HelloFamily("hey there");
  }

  /** The converse fails: "hey there" has a reply but is not a greeting, so in
      the chat flow it goes to retrieval. */
  lemma HeyThereIsNotGreeting()
    ensures GeneralResponse("hey there") == Some(HelloReply)
    ensures !IsGreeting("hey there")
  {
    HeyThereIsNormal();
    HeyThereIsHelloNotGreeting();
  }

  lemma HeyThereIsNormal()
    ensures Normalized("hey there") == "hey there"
  {
    NormalizedOfPlain("hey there");
  }

  /** Lower-case text without surrounding space is its own normal form. */
  lemma NormalizedOfPlain(q: string)
    requires forall i :: 0 <= i < |q| ==> !('A' <= q[i] <= 'Z')
    requires q != [] ==> !IsSpace(q[0]) && !IsSpace(q[|q| - 1])
    ensures Normalized(q) == q
  {
    LowerOfLowercase(q);
    StripUnpadded(q);
  }

  // ---------------------------------------------------------------------
  // Source citations
  // ---------------------------------------------------------------------

  /** A retrieved passage: its text and the `source` and `page` metadata
      entries, each possibly absent (a page number is given as its text). */
  datatype SourceDocument = SourceDocument(pageContent: string, source: Option<string>, page: Option<string>)

  function SourceOf(doc: SourceDocument): string {
    doc.source.GetOr("Unknown source")
  }

  function PageOf(doc: SourceDocument): string {
    doc.page.GetOr("Unknown page")
  }

  const GaleCitation := "The Gale Encyclopedia of Medicine, Second Edition"
  const DavidsonCitation := "Davidson's Principles and Practice of Medicine, 24th Edition"

  /** The reference a source path names: Gale wins over Davidson, and any
      other source is cited as itself. */
  function Citation(source: string): (c: string)
    ensures Contains(source, "GALE") ==> c == GaleCitation
    ensures !Contains(source, "GALE") && Contains(source, "Davidson") ==> c == DavidsonCitation
    ensures !Contains(source, "GALE") && !Contains(source, "Davidson") ==> c == source
  {
    if Contains(source, "GALE") then GaleCitation
    else if Contains(source, "Davidson") then DavidsonCitation
    else source
  }

  /** `os.path.basename`: the part after the last '/'. */
  function Basename(path: string): (b: string)
    ensures '/' !in b
    ensures |b| <= |path| && b == path[|path| - |b|..]
    ensures |b| < |path| ==> path[|path| - |b| - 1] == '/'
  {
    if '/' !in path then path else path[LastIndexOf(path, '/') + 1..]
  }

  /** The first 150 characters, with "..." appended only when the content is
      longer than that. */
  function Preview(content: string): (p: string)
    ensures |content| <= 150 ==> p == content
    ensures |content| > 150 ==> |p| == 153 && p[..150] == content[..150] && p[150..] == "..."
  {
    if |content| > 150 then content[..150] + "..." else content
  }

  /** The first line of an entry: number, file name and, when known, page. */
  function EntryHeader(i: nat, doc: SourceDocument): string {
    var base := "**Source " + NatToString(i) + ":** " + Basename(SourceOf(doc));
    if PageOf(doc) != "Unknown page" then base + " (Page " + PageOf(doc) + ")" else base
  }

  function CitationLine(doc: SourceDocument): string {
    "*Citation: " + Citation(SourceOf(doc)) + "*"
  }

  /** The last line: a note naming the extracted table, or the preview. */
  function ContentLine(doc: SourceDocument): string {
    var t := TabularData(doc.pageContent);
    if t.Table? then "> [Table extracted: " + t.title + "]" else "> " + Preview(doc.pageContent)
  }

  /** The text of the `i`-th entry: header, citation line and content line. */
  function FormatEntry(i: nat, doc: SourceDocument): string {
    EntryHeader(i, doc) + "\n" + CitationLine(doc) + "\n" + ContentLine(doc)
  }

  /** The caption listed beside an extracted table. The page is given even
      when unknown. */
  function TableCaption(title: string, doc: SourceDocument): string {
    title + " (from " + Basename(SourceOf(doc)) + ", Page " + PageOf(doc) + ")"
  }

  /** The entries of the passages, in input order, the last numbered
      `|docs|`. */
  function Entries(docs: seq<SourceDocument>): (es: seq<string>)
    ensures |es| == |docs|
  {
    if docs == [] then [] else Entries(docs[..|docs| - 1]) + [FormatEntry(|docs|, docs[|docs| - 1])]
  }

  /** The `k`-th entry (from 0) is the passage's own, numbered `k + 1`. */
  lemma {:induction false} EntriesAt(docs: seq<SourceDocument>, k: nat)
    requires k < |docs|
    ensures Entries(docs)[k] == FormatEntry(k + 1, docs[k])
  {
    if k < |docs| - 1 {
      EntriesAt(docs[..|docs| - 1], k);
    }
  }

  lemma EntriesStep(docs: seq<SourceDocument>, i: nat)
    requires i < |docs|
    ensures Entries(docs[..i + 1]) == Entries(docs[..i]) + [FormatEntry(i + 1, docs[i])]
  {
    assert docs[..i + 1][..i] == docs[..i];
  }

  /** A table that was found and is well formed. */
  predicate IsWellFormedTable(t: TableResult) {
    t.Table? && WellFormed(t)
  }

  /** The table entry a single passage contributes, if any. */
  function TableEntry(doc: SourceDocument): (e: Option<(TableResult, string)>)
    ensures e.Some? ==> IsWellFormedTable(e.value.0)
  {
    var t := TabularData(doc.pageContent);
    if t.Table? then
      TableShape(doc.pageContent);
      Some((t, TableCaption(t.title, doc)))
    else None
  }

  lemma TableEntriesWellFormed(docs: seq<SourceDocument>)
    ensures forall k :: 0 <= k < |SomeValues(TableEntry, docs)| ==>
              IsWellFormedTable(SomeValues(TableEntry, docs)[k].0)
  {
    forall k | 0 <= k < |SomeValues(TableEntry, docs)|
      ensures IsWellFormedTable(SomeValues(TableEntry, docs)[k].0)
    {
      SomeValuesComes(TableEntry, docs, k);
      var j :| 0 <= j < |docs| && TableEntry(docs[j]) == Some(SomeValues(TableEntry, docs)[k]);
    }
  }

  /** The extracted tables with their captions, in input order. */
  function TablesOf(docs: seq<SourceDocument>): (ts: seq<(TableResult, string)>)
    ensures |ts| <= |docs|
    ensures forall k :: 0 <= k < |ts| ==> IsWellFormedTable(ts[k].0)
  {
    TableEntriesWellFormed(docs);
    SomeValues(TableEntry, docs)
  }

  lemma TablesOfStep(docs: seq<SourceDocument>, i: nat)
    requires i < |docs|
    ensures TablesOf(docs[..i + 1]) ==
              TablesOf(docs[..i]) + (if TableEntry(docs[i]).Some? then [TableEntry(docs[i]).value] else [])
  {
    SomeValuesStep(TableEntry, docs, i);
  }

  /** Every passage that holds a table has its table and caption listed. */
  lemma TablesOfHolds(docs: seq<SourceDocument>, j: nat)
    requires j < |docs| && TableEntry(docs[j]).Some?
    ensures TableEntry(docs[j]).value in TablesOf(docs)
  {
    SomeValuesHolds(TableEntry, docs, j);
  }

  /** Every listed table comes from some passage. */
  lemma TablesOfComes(docs: seq<SourceDocument>, k: nat)
    requires k < |TablesOf(docs)|
    ensures exists j :: 0 <= j < |docs| && TableEntry(docs[j]) == Some(TablesOf(docs)[k])
  {
    SomeValuesComes(TableEntry, docs, k);
  }

  /** No table is listed exactly when no passage holds one. */
  lemma TablesOfEmpty(docs: seq<SourceDocument>)
    ensures TablesOf(docs) == [] <==> forall j :: 0 <= j < |docs| ==> TableEntry(docs[j]).None?
  {
    SomeValuesEmpty(TableEntry, docs);
  }

  /** When the file name, the page and the citation are single lines, the
      entry's first line is its header and its second the citation line. */
  lemma EntryLines(i: nat, doc: SourceDocument)
    requires '\n' !in EntryHeader(i, doc) && '\n' !in CitationLine(doc)
    ensures |Split(FormatEntry(i, doc), '\n')| >= 2
    ensures Split(FormatEntry(i, doc), '\n')[0] == EntryHeader(i, doc)
    ensures Split(FormatEntry(i, doc), '\n')[1] == CitationLine(doc)
  {
    var h, c, l := EntryHeader(i, doc), CitationLine(doc), ContentLine(doc);
    assert FormatEntry(i, doc) == h + ['\n'] + c + ['\n'] + l;
    SplitFirstTwo(h, '\n', c, l);
  }

  /** The body of the loop of `format_source_documents`: the `i`-th entry,
      built with `+=`, and the table entry, if the passage holds a table. */
  method FormatOneSource(i: nat, doc: SourceDocument) returns (entry: string, table: Option<(TableResult, string)>)
    ensures entry == FormatEntry(i, doc)
    ensures table == TableEntry(doc)
  {
    var source := doc.source.GetOr("Unknown source");
    var page := doc.page.GetOr("Unknown page");
    var citation;
    if Contains(source, "GALE") {
      citation := GaleCitation;
    } else if Contains(source, "Davidson") {
      citation := DavidsonCitation;
    } else {
      citation := source;
    }
    entry := "**Source " + NatToString(i) + ":** " + Basename(source);
    if page != "Unknown page" {
      entry := entry + " (Page " + page + ")";
    }
    assert entry == EntryHeader(i, doc);
    var citationLine := "*Citation: " + citation + "*";
    entry := entry + "\n" + citationLine;
    var t := ExtractTabularData(doc.pageContent);
    if t.Table? {
      table := Some((t, t.title + " (from " + Basename(source) + ", Page " + page + ")"));
      var note := "> [Table extracted: " + t.title + "]";
      entry := entry + "\n" + note;
    } else {
      table := None;
      var preview := "> " + Preview(doc.pageContent);
      entry := entry + "\n" + preview;
    }
  }

  /** `format_source_documents`: the entries numbered from 1 and joined with
      a blank line, and the extracted tables in input order. */
  method FormatSourceDocuments(docs: seq<SourceDocument>) returns (text: string, tables: seq<(TableResult, string)>)
    ensures text == Join(Entries(docs), "\n\n")
    ensures tables == TablesOf(docs)
  {
    var formatted: seq<string> := [];
    tables := [];
    var i := 0;
    while i < |docs|
      invariant 0 <= i <= |docs|
      invariant formatted == Entries(docs[..i])
      invariant tables == TablesOf(docs[..i])
    {
      var entry, table := FormatOneSource(i + 1, docs[i]);
      TablesOfStep(docs, i);
      EntriesStep(docs, i);
      if table.Some? {
        tables := tables + [table.value];
      }
      formatted := formatted + [entry];
      i := i + 1;
    }
    assert docs[..i] == docs;
    text := Join(formatted, "\n\n");
  }

  // ---------------------------------------------------------------------
  // Download link
  // ---------------------------------------------------------------------

  const LinkPrefix := "<a href=\"data:file/txt;base64,"

  /** `get_download_link`: an anchor whose data URL carries the base64 of the
      text's UTF-8 bytes. */
  function DownloadLink(text: string, filename: string, linkText: string): string {
    LinkPrefix + Base64.Encode(Utf8.Encode(text)) + "\" download=\"" + filename + "\">" + linkText + "</a>"
  }

  /** What a reader of the anchor takes as the payload: everything between
      the data-URL prefix and the next double quote. */
  function PayloadOf(link: string): Option<string> {
    if !StartsWith(link, LinkPrefix) then None
    else
      var rest := link[|LinkPrefix|..];
      if '"' in rest then Some(rest[..FirstIndexOf(rest, '"')]) else None
  }

  lemma NoQuoteInBase64(bs: seq<Bytes.Byte>)
    ensures '"' !in Base64.Encode(bs)
  {
    Base64.EncodeShape(bs);
    var e := Base64.Encode(bs);
    assert Base64.ValueOf('"').None?;
    assert forall k :: 0 <= k < |e| ==> e[k] != '"';
  }

  /** The payload of every link is the encoding of the text, and decoding it
      gives the text back, whatever the file name and link text. */
  lemma DownloadLinkRoundTrip(text: string, filename: string, linkText: string)
    ensures PayloadOf(DownloadLink(text, filename, linkText)) == Some(Base64.Encode(Utf8.Encode(text)))
    ensures Base64.Decode(Base64.Encode(Utf8.Encode(text))) == Some(Utf8.Encode(text))
    ensures Utf8.Decode(Utf8.Encode(text)) == Some(text)
  {
    var b64 := Base64.Encode(Utf8.Encode(text));
    var tail := "\" download=\"" + filename + "\">" + linkText + "</a>";
    var link := DownloadLink(text, filename, linkText);
    assert link == LinkPrefix + (b64 + tail);
    assert link[..|LinkPrefix|] == LinkPrefix;
    var rest := link[|LinkPrefix|..];
    assert rest == b64 + tail;
    NoQuoteInBase64(Utf8.Encode(text));
    assert rest[|b64|] == '"';
    assert rest[..|b64|] == b64;
    assert FirstIndexOf(rest, '"') == |b64|;
    Base64.DecodeEncode(Utf8.Encode(text));
    Utf8.DecodeEncode(text);
  }
}
