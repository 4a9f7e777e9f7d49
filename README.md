# Savory Haven chatbot and MediBot — a Dafny model

This project models the deterministic logic of two chatbots that share one repository.

The first is the **Savory Haven** restaurant assistant:
- a regex-based intent classifier with confidence scores (`app/services/intent.py`);
- a keyword-based demo endpoint (`demo_app.py`);
- the chat service that picks between canned demo replies and retrieval-augmented answers (`app/services/chat.py`);
- the Gemini language-model adapter (`app/services/llm.py`);
- the retrieval-augmented prompt service (`app/services/rag.py`);
- the two loaders that turn the restaurant dataset into search documents (`create_vector_store.py`) and into database records (`init_db.py`).

The second is **MediBot** (`medibot.py`). Its text utilities are modelled:
- the greeting detector and its canned replies;
- the table extractor for retrieved pages;
- the source-document formatter;
- the base64 download link.

Everything in the model is pure or local. HTTP calls, vector search, MongoDB, the clock and the environment are parameters of the operations that use them.

Modules and files:

| module | file | models |
|---|---|---|
| `Wrappers` | wrappers.dfy | `Option`, `Result`, `dict.get` with a default |
| `Text` | text.dfy | the Python `str` operations the code uses: `lower`, `strip`, `split`, `join`, `in`, `find`, integer printing |
| `Seqs`, `Bytes` | seqs.dfy, bytes.dfy | a sequence map and the byte type |
| `Utf8`, `Base64` | utf8.dfy, base64.dfy | `str.encode()` (UTF-8) and `base64.b64encode`/`b64decode` (RFC 4648, section 4) |
| `Intent` | intent.dfy | `IntentService` |
| `Keywords` | keywords.dfy | the keyword chain and suggested-action table, shared by `demo_app.py` and `chat.py` |
| `DemoApp` | demo_app.dfy | the demo `/api/chat` and `/health` handlers |
| `Chat` | chat.dfy | `ChatService` and the demo-mode switch |
| `Gemini` | gemini.dfy | `GeminiLLM`: URL, request body, reply parsing, `_call`, `agenerate` |
| `Rag` | rag.dfy | `RAGService`: prompt templates, template choice, `get_response` |
| `RestaurantData` | restaurant_data.dfy | the dataset as the loaders read it |
| `Corpus` | corpus.dfy | `create_documents_from_data` |
| `Seed` | seed.dfy | the records `init_db` builds |
| `MediBot` | medibot.dfy | greeting detection, general replies, `format_source_documents`, `get_download_link` |
| `Tables`, `TableExtraction` | tables.dfy | `extract_tabular_data` as a specification and as the step-by-step method |

Where the source loops or builds a value step by step, the model is a `method` with the same loop. Each such method is proved equal to a specification function. The properties are proved as lemmas about those functions.

## Model

| member | source | states |
|---|---|---|
| Intent.GreedySearchIsExact | app/services/intent.py:82 | the left-to-right search for the pieces of a `.*` pattern succeeds exactly when the pieces occur in order somewhere in the text |
| Intent.LiteralPatternIsSubstringTest | app/services/intent.py:82 | a pattern without `.*` matches exactly when it is a substring of the text |
| Intent.HiMatchesInsideThis | app/services/intent.py:64 | the greeting pattern `hi` matches inside the word "this": patterns are not word-bounded |
| Intent.MatchCount | app/services/intent.py:82 | an intent's match count never exceeds its number of patterns |
| Intent.MatchCountZero | app/services/intent.py:82 | the count is zero exactly when none of the intent's patterns matches |
| Intent.IntentTableShape | app/services/intent.py:6-74 | the table has five intents with distinct names, each with at least one pattern |
| Intent.Counts | app/services/intent.py:81-82 | one count per intent, in table order, each the match count of that intent's patterns |
| Intent.WinnerIsFirstStrictMax | app/services/intent.py:81-85 | the strict `>` scan keeps its starting answer when no later count beats the running best; otherwise it returns the first intent whose count is the maximum |
| Intent.DetectedIntentIsFirstMax | app/services/intent.py:76-87 | with no match the intent is `general_inquiry`; otherwise it is the first intent in table order with the highest count |
| Intent.DetectedIntentIgnoresCase | app/services/intent.py:77 | detection gives the same answer for a message and its lower-case form |
| Intent.RatioBounds | app/services/intent.py:96 | a confidence lies in [0, 1] and is positive exactly when some pattern matched |
| Intent.ScoresUpToSpec | app/services/intent.py:93-97 | after n steps the score map holds exactly the first n intent names, each mapped to matches / patterns |
| Intent.ConfidenceScoresSpec | app/services/intent.py:89-99 | the scores cover exactly the intent names; each is matches / patterns of the lower-cased message and lies in [0, 1] |
| Intent.DetectedIntentHasConfidence | app/services/intent.py:76-99 | the detected intent has a positive confidence, or it is `general_inquiry` and every confidence is 0 |
| Intent.IntentService.constructor | app/services/intent.py:5-74 | the service holds the intent table |
| Intent.IntentService.DetectIntent | app/services/intent.py:76-87 | the loop returns exactly the detected intent of the specification |
| Intent.IntentService.GetIntentConfidence | app/services/intent.py:89-99 | the loop builds exactly the confidence map, whose keys are the intent names and whose values lie in [0, 1] |
| Keywords.FirstMatchingGroup | demo_app.py:57-66 | the index of the first keyword group with a word in the text; no earlier group has one |
| Keywords.KeywordIntentIsFirstMatchingGroup | demo_app.py:53-66 | the `if`/`elif` chain returns the intent of the first group with a word in the lower-cased message, or the fallback |
| Keywords.NoKeywordGivesFallback | demo_app.py:65-66 | the fallback is returned exactly when no group has a word in the message |
| Keywords.KeywordIntentIgnoresCase | demo_app.py:55 | keyword classification ignores letter case |
| Keywords.FallbackOnlyDiffers | app/services/chat.py:76-110 | two runs with different fallbacks agree unless both fall back |
| Keywords.MenuWordBeatsReservationWord | demo_app.py:57-60 | a message with both a menu word and a reservation word is classified as a menu inquiry |
| Keywords.SubstringNotWord | demo_app.py:57 | keywords match inside longer words ("eat" inside "great") |
| Keywords.SuggestedActions | demo_app.py:68-84 | actions are offered exactly for the menu, reservation and hours intents: view and filter the menu, in that order, one reservation action, one hours action |
| Keywords.ActionsFollowKeywords | demo_app.py:53-84 | a reply carries actions exactly when the message holds a menu, reservation or hours word |
| DemoApp.DetectIntent | demo_app.py:53-66 | the intent is always a key of the reply table, and it is `default` exactly when no keyword occurs |
| DemoApp.Chat | demo_app.py:88-109 | the reply is the table entry of the detected intent, with that intent's actions and the given timestamp |
| DemoApp.ChatIgnoresIds | demo_app.py:88-109 | the user and session ids do not affect the reply |
| DemoApp.HealthCheck | demo_app.py:111-114 | the body has exactly the keys `status` and `service`, and the status is `healthy` |
| Chat.DemoModeFlag | app/services/chat.py:27 | demo mode is on exactly when `DEMO_MODE` is set and, lower-cased, is one of the truthy words |
| Chat.DemoModeExcludesRag | app/services/chat.py:13-27 | when demo mode is on, no RAG service was created; `DEMO_MODE=false` turns demo mode off and still creates no RAG service |
| Chat.ApologyReply | app/services/chat.py:65-70 | the error reply has intent `error`, no actions, the apology text and the given timestamp |
| Chat.ChatService.constructor | app/services/chat.py:26-35 | the demo flag follows the environment; the reply table is the file's table only in demo mode when the file exists, else the built-in one |
| Chat.ChatService.GetDemoResponse | app/services/chat.py:72-94 | it fails exactly when the table has no `default` entry; otherwise the reply is the table entry of the keyword intent, or the default entry when that intent has none, with that intent's actions |
| Chat.ChatService.DetectIntent | app/services/chat.py:96-110 | the result is `general_inquiry` exactly when no keyword occurs |
| Chat.ChatService.GenerateSuggestedActions | app/services/chat.py:112-144 | the actions are the shared action table; events, general, default and error intents get none |
| Chat.ChatService.ProcessMessage | app/services/chat.py:37-70 | demo mode answers from the demo table; otherwise a missing service, a failed RAG step or a missing answer gives the apology, and an answer is returned with the keyword intent and its actions |
| Chat.BuiltinTableAlwaysDefault | app/services/chat.py:31-86 | with the built-in table every message gets the built-in default reply |
| Chat.DemoAndLiveIntentsAgree | app/services/chat.py:76-110 | demo and live classification agree, except that demo says `default` where live says `general_inquiry` |
| Chat.DetectIntentIgnoresSources | app/services/chat.py:96-110 | the retrieved sources do not affect the intent |
| MediBot.MatchesAnyPhrase | medibot.py:116-120 | the loop finds a phrase exactly when the text is one of the greeting phrases |
| MediBot.IsGreetingOrGeneralQuery | medibot.py:102-120 | the result is true exactly when the stripped, lower-cased text is a greeting phrase |
| MediBot.GeneralResponse | medibot.py:123-143 | a reply exists exactly when the normalized query belongs to a phrase family, and it is that family's canned reply |
| MediBot.HelloFamily | medibot.py:127 | the hello branch accepts exactly the hello words and the same words followed by " there" |
| MediBot.FamilyDomain | medibot.py:127-141 | a query has a family exactly when it is one of the general phrases |
| MediBot.GeneralResponseDomain | medibot.py:123-143 | a canned reply exists exactly when the normalized query is a general phrase |
| MediBot.GreetingPhrasesAreGeneral | medibot.py:107-141 | every greeting phrase is also a general phrase |
| MediBot.GreetingGetsReply | medibot.py:102-141 | every text detected as a greeting gets a canned reply |
| MediBot.HeyThereIsHelloNotGreeting | medibot.py:107-128 | "hey there" is in the hello family but not in the greeting list |
| MediBot.HeyThereIsNotGreeting | medibot.py:102-128 | "hey there" gets the hello reply although the greeting detector rejects it |
| MediBot.Citation | medibot.py:310-315 | a GALE source gets the GALE citation, else a Davidson source gets the Davidson citation, else the source itself |
| MediBot.Basename | medibot.py:318 | the result is the path's suffix after its last `/` and holds no `/` |
| MediBot.Preview | medibot.py:333-334 | content of at most 150 characters is kept whole; longer content becomes its first 150 characters plus "..." |
| MediBot.Entries | medibot.py:303-336 | one entry per document |
| MediBot.EntriesAt | medibot.py:303-336 | entry k is the formatted entry of document k, numbered from 1 |
| MediBot.TablesOf | medibot.py:326-330 | there are no more tables than documents, and every table is well formed |
| MediBot.TablesOfHolds | medibot.py:326-330 | every document with a table contributes it to the list |
| MediBot.TablesOfComes | medibot.py:326-330 | every listed table comes from some document |
| MediBot.TablesOfEmpty | medibot.py:326-330 | the table list is empty exactly when no document holds a table |
| MediBot.EntryLines | medibot.py:318-323 | an entry's first line is its header and its second line is its citation |
| MediBot.FormatOneSource | medibot.py:304-336 | one loop pass yields that document's entry and its table, if any |
| MediBot.FormatSourceDocuments | medibot.py:298-338 | the text is the entries joined by blank lines, and the tables are those of the documents in order |
| MediBot.NoQuoteInBase64 | medibot.py:344 | base64 output has no double quote, so it cannot end the `href` attribute |
| MediBot.DownloadLinkRoundTrip | medibot.py:341-345 | the `href` payload read back from the link is the base64 of the UTF-8 text, and decoding it gives the text back |
| Base64.EncodeShape | medibot.py:343 | the encoding has 4 characters per started 3-byte group, all from the alphabet or `=` |
| Base64.DecodeEncode | medibot.py:343 | decoding an encoding gives back the bytes |
| Base64.ValueOfCharOf | medibot.py:343 | every 6-bit value maps to a character that maps back to it |
| Utf8.DecodeEncode | medibot.py:343 | decoding the UTF-8 encoding of a string gives back the string |
| Utf8.EncodeAscii | medibot.py:343 | ASCII text encodes to one byte per character, that character's code |
| Tables.FindTitle | medibot.py:166 | a match found starts at or after the search position and is the pattern's match there |
| Tables.FindTitleLeftmost | medibot.py:166 | the search returns the leftmost position where the title pattern matches, and none when nothing matches |
| Tables.TitleIsOneLine | medibot.py:166-167 | the extracted title never holds a newline |
| Tables.NonEmptyStripped | medibot.py:190 | at most one cell per part; every cell is non-empty |
| Tables.NonEmptyStrippedTrimmed | medibot.py:190 | every cell neither starts nor ends with whitespace |
| Tables.Cells | medibot.py:190 | every cell of a pipe row is non-empty and holds no `\|` |
| Tables.FirstSeparator | medibot.py:193 | the first `---` row at or after i, with no separator before it; 1 when there is none |
| Tables.KeptRows | medibot.py:196-200 | the kept rows number at most the input rows, and each has exactly the header width and no empty cell |
| Tables.KeptRowsKeeps | medibot.py:196-200 | every row whose cell count equals the header width is kept |
| Tables.KeptRowsCome | medibot.py:196-200 | every kept row is the cells of some input row |
| Tables.NoIndicatorNoTable | medibot.py:152-163 | text without a table indicator gives no table |
| Tables.MarkdownTableWellFormed | medibot.py:189-213 | a markdown result is a table only with headers, and every row has the header width |
| Tables.ColumnTableWellFormed | medibot.py:216-245 | a column result is a table only with headers, and every row has the header width |
| Tables.TableShape | medibot.py:146-251 | a table is found only in text with an indicator; it is well formed and its title is one line |
| Tables.MarkdownNeedsThreeRowsAndSeparator | medibot.py:175-186 | in the markdown branch, fewer than three pipe rows or no separator row gives no table |
| Tables.MarkdownTableShape | medibot.py:175-213 | a markdown table has the first pipe row as headers; its rows are the rows after the first separator that have the header width |
| TableExtraction.CollectRows | medibot.py:196-200 | the row loop keeps exactly the rows the specification keeps |
| TableExtraction.ExtractMarkdownTable | medibot.py:175-213 | the markdown branch returns the specified markdown table |
| TableExtraction.ExtractColumnTable | medibot.py:216-245 | the column branch returns the specified column table |
| TableExtraction.ExtractTabularData | medibot.py:146-251 | the extractor returns the specified result for every text |
| RestaurantData.DietaryTagsMeaning | create_vector_store.py:49-55 | a tag is listed exactly when its flag is set, at most once, in the order vegetarian, vegan, gluten-free |
| RestaurantData.CollectDietaryTags | init_db.py:32-38 | the three `if` statements build exactly the dietary tags |
| RestaurantData.AllItems | init_db.py:28-30 | the nested loops visit as many items as all the categories hold |
| RestaurantData.PriceText | create_vector_store.py:46 | the price text ends with a point and two digits |
| RestaurantData.PriceTextRoundTrip | create_vector_store.py:46 | reading the price text back gives the price in cents |
| Corpus.LinesSplit | create_vector_store.py:20-33 | content built from newline-free lines splits back into those lines |
| Corpus.InfoLinesShape | create_vector_store.py:20-33 | the restaurant document has 9 lines plus one per hours entry; the address, hours heading, hours and cuisine lines are at their places |
| Corpus.InfoContent | create_vector_store.py:19-33 | the step-by-step content is exactly the restaurant document's lines |
| Corpus.ItemConditionalLines | create_vector_store.py:48-67 | an item document has a dietary, calories, popular or chef line exactly when that field is truthy |
| Corpus.DietaryLineText | create_vector_store.py:49-58 | when some dietary flag is set, line 6 lists the tags joined by commas |
| Corpus.ItemContent | create_vector_store.py:42-67 | the step-by-step item content is exactly the item document's lines |
| Corpus.HappyHourLinesShape | create_vector_store.py:77-82 | the happy-hour document has four heading lines, then one `- offer` line per offer, in order |
| Corpus.HappyHourContent | create_vector_store.py:76-82 | the step-by-step content is exactly the happy-hour lines |
| Corpus.WeeklyContent | create_vector_store.py:87-89 | the step-by-step content is exactly the weekly-special lines |
| Corpus.DocumentCount | create_vector_store.py:14-92 | one restaurant document, one per menu item, one for happy hour if present, and one per weekly special |
| Corpus.DocumentOrder | create_vector_store.py:14-92 | the restaurant document comes first, then the items in menu order, then happy hour, then the weekly specials |
| Corpus.DocumentTypes | create_vector_store.py:14-92 | each document's type follows its position: restaurant info, then menu items, then special events |
| Corpus.AppendMenu | create_vector_store.py:37-69 | the menu loops append one item document per item, in order |
| Corpus.AppendCategory | create_vector_store.py:41-69 | the item loop appends one document per item of the category |
| Corpus.AppendWeekly | create_vector_store.py:86-90 | the loop appends one document per weekly special |
| Corpus.CreateDocumentsFromData | create_vector_store.py:14-92 | the method returns exactly the specified documents |
| Seed.MenuRecordMeaning | init_db.py:40-47 | a record is built exactly when the item has a name, description and price; it copies them, takes the category name and tags, and is available; a missing key fails with that key's name |
| Seed.MenuRecordsOk | init_db.py:28-48 | the menu succeeds exactly when every item does, and then record k is item k's record |
| Seed.MenuRecordsFirstError | init_db.py:28-48 | a failing menu fails with the error of its first failing item |
| Seed.BuildMenuRecords | init_db.py:27-48 | the loops build exactly the specified menu records |
| Seed.HoursMapKeys | init_db.py:56-58 | the hours map has exactly the days of the dataset |
| Seed.HoursMapAt | init_db.py:56-58 | a day maps to the "open - close" text of its last entry |
| Seed.HoursMapDistinct | init_db.py:56-58 | when no day is listed twice, as in a parsed JSON object, every entry keeps its own "open - close" text |
| Seed.OpeningHours | init_db.py:56-58 | the loop builds exactly the hours map |
| Seed.HoursAgreeWithCorpus | init_db.py:58 | with both times present, the search document's hours line is the day followed by the record's hours text |
| Seed.SpecialEventsShape | init_db.py:61-80 | happy hour, if present, comes first with its joined offers, times and days; then one event per weekly special, without times |
| Seed.BuildSpecialEvents | init_db.py:61-80 | the method builds exactly the specified events |
| Seed.AddressAgreesWithCorpus | init_db.py:86 | the record's address is the address on the search document's address line |
| Seed.SeedMenu | init_db.py:27-91 | on success there is one menu record per item, and record k is the record of the k-th item |
| Seed.SeedFails | init_db.py:27-91 | seeding fails exactly when some item lacks a name, description or price, and it reports the first such item's error |
| Seed.InitDb | init_db.py:27-91 | the method builds exactly the specified records |
| Gemini.WithDefaults | app/services/llm.py:9-12 | the model defaults to `gemini-2.0-flash`, temperature 0.5 and 512 output tokens |
| Gemini.UrlParts | app/services/llm.py:19 | the URL splits at `:` into the scheme, the models path plus model name, and the key query plus key; model and key are recovered |
| Gemini.RequestBodyShape | app/services/llm.py:21-33 | the body always has `contents`; `generationConfig` appears exactly when a setting is given, and holds temperature and `maxOutputTokens` exactly when each is set |
| Gemini.BuildBody | app/services/llm.py:21-33 | the dictionary updates build exactly the specified request body |
| Gemini.ReplyOfShaped | app/services/llm.py:40-44 | a 200 reply of the documented shape yields its text |
| Gemini.ReplyNot200 | app/services/llm.py:37-38 | any other status raises the API error with the response text |
| Gemini.ReplyMissingCandidates | app/services/llm.py:42-46 | a 200 reply without `candidates` raises the format error naming `'candidates'` |
| Gemini.ReplyNoCandidates | app/services/llm.py:42-46 | an empty candidate list raises the format error with "list index out of range" |
| Gemini.ReplyOk | app/services/llm.py:37-46 | a reply succeeds exactly when the status is 200, the body is JSON and the text path exists, and it yields the value at that path |
| Gemini.Call | app/services/llm.py:18-46 | `_call` posts the specified body to the specified URL and returns the parsed reply |
| Gemini.GenerationsOne | app/services/llm.py:52-57 | one prompt gives one list holding one generation, or that prompt's error |
| Gemini.GenerationsOk | app/services/llm.py:52-57 | the batch succeeds exactly when every prompt does; then there is one single-generation list per prompt, in order |
| Gemini.GenerationsFirstError | app/services/llm.py:52-57 | a failing batch fails with the error of its first failing prompt |
| Gemini.GenerationsErrStays | app/services/llm.py:52-57 | once a prefix of prompts fails, later prompts do not change the error |
| Gemini.GenerateOne | app/services/llm.py:54-55 | one loop pass gives the prompt's generation |
| Gemini.AGenerate | app/services/llm.py:48-57 | the loop returns exactly the specified batch of generations |
| Rag.FormatOk | app/services/rag.py:101 | formatting succeeds exactly when every template variable is supplied; a failure names a missing variable |
| Rag.FormatIgnoresUnused | app/services/rag.py:93-101 | an entry for a name the template does not use has no effect (the extra `query` entry) |
| Rag.FrameVars | app/services/rag.py:28-81 | every prompt template uses exactly `context`, `question` and `restaurant_name` |
| Rag.FormatFrame | app/services/rag.py:101 | with the three variables supplied, formatting fills them into the template text |
| Rag.SelectedTemplate | app/services/rag.py:42-90 | menu, reservation and hours intents get their own template; every other intent gets the base template |
| Rag.ContextLines | app/services/rag.py:87 | for newline-free pages the context splits back into the pages, in order |
| Rag.PromptFor | app/services/rag.py:87-101 | the formatted prompt is the chosen template filled with the restaurant name, the context and the query |
| Rag.ResponseOfPrompt | app/services/rag.py:101-105 | a successfully formatted prompt is answered by the first generation's text, or the model's error |
| Rag.ResponseMeaning | app/services/rag.py:84-105 | the answer is the model's text for the intent's prompt, or the model's error |
| Rag.RAGService.constructor | app/services/rag.py:10-24 | the service starts with the default model settings and its prompts in place |
| Rag.RAGService.SetupPrompts | app/services/rag.py:26-82 | the base and intent templates are installed; the model is unchanged |
| Rag.RAGService.GetResponse | app/services/rag.py:84-105 | the answer is the model's text for the intent's prompt over the documents retrieved with k = 3, or the model's error |

## Left out

- Regular expressions: the intent patterns use only literals and `.*`. They are modelled as "the pieces occur in order within one line", which is what `re.search` does for them. `Intent.GreedySearchIsExact` proves the greedy search equal to that statement. The title and column regexes of `extract_tabular_data` are worked out by hand for their fixed shapes.
- Lower-casing and `isspace` cover ASCII only; Python's Unicode case mapping is not modelled.
- `pandas.DataFrame` and `pd.to_numeric` in `extract_tabular_data` are not modelled. A table is its title, headers and rows of strings.
- Streamlit is not modelled: `main`, `display_table_or_chart`, session state and page layout.
- Vector search (FAISS, embeddings, the text splitter, `create_vector_store.main`, `update_vector_store`) is not modelled. Searching is a function parameter.
- Rag.RAGService.GetResponse: does not state that at most three documents are retrieved. The context is whatever the `search` parameter returns for k = 3.
- HTTP is not modelled. `requests.post` is the `post` parameter, returning a status, a text and an optional JSON body; headers and timeouts are not modelled.
- `asyncio.to_thread` and `async`/`await` are not modelled. The calls are sequential.
- Gemini.Call: ignores the `stop` argument, as the source does. A body that is not JSON is reported as `Uncaught("JSONDecodeError")`, and a wrongly typed value on the text path as `Uncaught("TypeError")`, rather than as Python exceptions.
- JSON numbers are reals. Serialization is not modelled, so `512` and `512.0` are not distinguished. JSON `null` and an absent key are both `None`.
- A generation whose text is not a string is `Uncaught("ValidationError")`; pydantic is not modelled further.
- `_llm_type` and `_identifying_params` are constant properties without behaviour of interest and are not modelled.
- The settings module is not modelled. `RAGService` takes the API key as a parameter; temperature 0.5 and 512 tokens are the fixed defaults. The model name is not passed, as in the source.
- Temperature is an opaque real: no arithmetic is done on it.
- Intent.Ratio: the confidence `matches / len(patterns)` is an exact real, while the source divides floats, so `1/3` is `0.3333333333333333` there; float rounding is not modelled.
- Logging is not modelled: the `print` of the error at `app/services/chat.py:64` and the `st.error` message at `medibot.py:248` are dropped; only the values returned after them are modelled.
- Tables: `\d` in the title and indicator patterns is an ASCII digit, while Python's `\d` on a string pattern matches any Unicode decimal digit, so a title such as "Table ٣:" is an indicator in the source and not in the model.
- Prices are integer cents. `f"{price:.2f}"` and `float(item['price'])` are modelled on cents, so binary floating-point rounding is not modelled.
- LangChain's `PromptTemplate` is modelled as literal text with named slots filled as `str.format` fills them. Its input-variable validation and brace escaping are not modelled; the templates have no braces besides their slots.
- MongoDB is not modelled: `_store_conversation`, the inserts, deletes and indexes of `init_db`, and the connection. `init_db` is modelled up to the records it would insert.
- The clock is a `timestamp` parameter, and the environment variable `DEMO_MODE` is an optional-string parameter.
- The demo reply file is read by the caller; `ChatService` receives its contents as an optional map.
- `chat.py` line 50 calls `get_response` with one argument and without `await`, which does not fit `RAGService.get_response`. The RAG step in `Chat.ChatService.ProcessMessage` is therefore an input result; a failure leads to the apology, as the `except` branch does.
- The Gemini class copied into `medibot.py` (lines 26-73) repeats `_call` and `_identifying_params` of `app/services/llm.py` word for word, apart from one comment, and has no `agenerate`; `medibot.py` drives it through LangChain's `RetrievalQA` (lines 448-456), which is not modelled. `_call` is modelled once, in `Gemini`.
- The correspondence between menu documents and menu records is stated through the shared item order (`Corpus.DocumentOrder`, `Seed.SeedMenu`), not as one lemma joining the two.
- `extract_tabular_data`'s `try`/`except` (lines 247-249) is not modelled: the modelled string operations cannot raise.
