/**
 * The pattern-count intent classifier of `app/services/intent.py`.
 *
 * Every pattern in the table is a literal or literals joined by `.*`, so
 * `re.search(pattern, message)` holds exactly when the literals occur in
 * order, without overlapping, inside one line of the message (`.` does not
 * match a newline).
 */
module Intent {
  import opened Wrappers
  import opened Text

  /** The literals of a pattern, in order: the pattern split at each `.*`. */
  function Pieces(regex: string): (ps: seq<string>)
    ensures |ps| >= 1
    decreases |regex|
  {
    match FindFrom(regex, ".*", 0)
    case None => [regex]
    case Some(i) => [regex[..i]] + Pieces(regex[i + 2..])
  }

  /** Greedy search: find the leftmost occurrence of each piece after the end
      of the previous one. */
  predicate PiecesInOrder(ps: seq<string>, line: string)
    decreases |ps|
  {
    if ps == [] then true
    else
      match FindFrom(line, ps[0], 0)
      case None => false
      case Some(i) => PiecesInOrder(ps[1..], line[i + |ps[0]|..])
  }

  /** What the regex means: some choice of positions places the pieces in
      order without overlap. */
  ghost predicate Embeds(ps: seq<string>, s: string)
    decreases |ps|
  {
    ps == [] || exists i :: OccursAt(s, ps[0], i) && Embeds(ps[1..], s[i + |ps[0]|..])
  }

  lemma EmbedsInLongerSuffix(ps: seq<string>, s: string, k: nat)
    requires k <= |s| && Embeds(ps, s[k..])
    ensures Embeds(ps, s)
  {
    if ps != [] {
      var i :| OccursAt(s[k..], ps[0], i) && Embeds(ps[1..], s[k..][i + |ps[0]|..]);
      assert s[k + i..k + i + |ps[0]|] == s[k..][i..i + |ps[0]|];
      assert s[k..][i + |ps[0]|..] == s[k + i + |ps[0]|..];
      assert OccursAt(s, ps[0], k + i);
    }
  }

  /** The greedy search finds a placement exactly when one exists. */
  lemma {:induction false} GreedySearchIsExact(ps: seq<string>, s: string)
    ensures PiecesInOrder(ps, s) <==> Embeds(ps, s)
    decreases |ps|
  {
    if ps != [] {
      var p := ps[0];
      var r := FindFrom(s, p, 0);
      if r.Some? {
        var i := r.value;
        GreedySearchIsExact(ps[1..], s[i + |p|..]);
        if Embeds(ps, s) {
          var j :| OccursAt(s, p, j) && Embeds(ps[1..], s[j + |p|..]);
          assert i <= j;
          assert s[i + |p|..][j - i..] == s[j + |p|..];
          EmbedsInLongerSuffix(ps[1..], s[i + |p|..], j - i);
        }
      }
    }
  }

  /** `re.search(regex, text)` for the patterns of the table. */
  predicate PatternMatches(regex: string, text: string) {
    var lines := Split(text, '\n');
    exists k | 0 <= k < |lines| :: PiecesInOrder(Pieces(regex), lines[k])
  }

  /** A pattern without `.*` is a literal: it matches wherever it occurs as a
      substring, for instance "hi" inside "this". */
  lemma LiteralPatternIsSubstringTest(regex: string, text: string)
    requires !Contains(regex, ".*") && '\n' !in regex
    ensures PatternMatches(regex, text) <==> Contains(text, regex)
  {
    FindFindsContained(regex, ".*");
    assert Pieces(regex) == [regex];
    var lines := Split(text, '\n');
    forall k | 0 <= k < |lines|
      ensures PiecesInOrder([regex], lines[k]) <==> Contains(lines[k], regex)
    {
      FindFindsContained(lines[k], regex);
    }
    ContainsIffInSomeLine(text, regex);
  }

  lemma HiMatchesInsideThis()
    ensures PatternMatches("hi", "this")
  {
    assert OccursAt("this", "hi", 1);
    assert "hi"[0..2][0] != ".*"[0];
    assert !Contains("hi", ".*");
    LiteralPatternIsSubstringTest("hi", "this");
  }

  /** `sum(1 for pattern in patterns if re.search(pattern, text))` */
  function MatchCount(patterns: seq<string>, text: string): (n: nat)
    ensures n <= |patterns|
  {
    if patterns == [] then 0
    else (if PatternMatches(patterns[0], text) then 1 else 0) + MatchCount(patterns[1..], text)
  }

  lemma {:induction false} MatchCountZero(patterns: seq<string>, text: string)
    ensures MatchCount(patterns, text) == 0 <==> forall k :: 0 <= k < |patterns| ==> !PatternMatches(patterns[k], text)
  {
    if patterns != [] {
      MatchCountZero(patterns[1..], text);
      assert forall k :: 1 <= k < |patterns| ==> patterns[k] == patterns[1..][k - 1];
    }
  }

  datatype IntentEntry = IntentEntry(name: string, patterns: seq<string>)

  /** `IntentService.intent_patterns`, in table order. */
  function IntentTable(): seq<IntentEntry> {
    [ IntentEntry("menu_inquiry",
        ["menu", "what.*serve", "what.*have", "what.*offer", "what.*available",
         "what.*special", "what.*dish", "what.*food", "vegetarian", "vegan",
         "gluten-free", "price", "cost", "how much", "dietary", "allergy"]),
      IntentEntry("reservation_request",
        ["reservation", "book", "table", "reserve", "booking", "when.*available",
         "what.*time.*available", "party.*size", "how many.*people",
         "special.*request", "dietary.*requirement"]),
      IntentEntry("hours_location",
        ["hour", "open", "close", "when.*open", "when.*close", "where.*located",
         "address", "location", "directions", "how.*get.*there", "parking",
         "transportation"]),
      IntentEntry("special_events",
        ["event", "special", "promotion", "discount", "offer", "deal",
         "happy hour", "live music", "entertainment"]),
      IntentEntry("general_inquiry",
        ["hi", "hello", "hey", "help", "what.*can.*do", "how.*can.*help",
         "tell.*me.*about", "who.*are.*you", "what.*are.*you"])
    ]
  }

  ghost predicate DistinctNames(table: seq<IntentEntry>) {
    forall i, j :: 0 <= i < j < |table| ==> table[i].name != table[j].name
  }

  lemma IntentTableShape()
    ensures |IntentTable()| == 5 && DistinctNames(IntentTable())
    ensures forall k :: 0 <= k < 5 ==> |IntentTable()[k].patterns| > 0
  {
  }

  /** The match count of every intent, in table order. */
  function Counts(table: seq<IntentEntry>, text: string): (c: seq<nat>)
    ensures |c| == |table|
    ensures forall k :: 0 <= k < |table| ==> c[k] == MatchCount(table[k].patterns, text)
  {
    seq(|table|, k requires 0 <= k < |table| => MatchCount(table[k].patterns, text))
  }

  /** The rest of the scan of `detect_intent`, from intent `i` on, with the
      best count so far and the intent that holds it. */
  function Winner(table: seq<IntentEntry>, counts: seq<nat>, i: nat, best: nat, detected: string): string
    requires |counts| == |table| && i <= |table|
    decreases |table| - i
  {
    if i == |table| then detected
    else if counts[i] > best then Winner(table, counts, i + 1, counts[i], table[i].name)
    else Winner(table, counts, i + 1, best, detected)
  }

  /** What `detect_intent(message)` returns. */
  function DetectedIntent(table: seq<IntentEntry>, message: string): string {
    var text := Lower(message);
    Winner(table, Counts(table, text), 0, 0, "general_inquiry")
  }

  /** Intent `k` has the largest count among intents `i..`, larger than
      `best`, and every intent in `i..k` before it has a smaller one. */
  ghost predicate FirstStrictMax(counts: seq<nat>, i: nat, k: int, best: nat) {
    && i <= k < |counts| && counts[k] > best
    && (forall j :: i <= j < |counts| ==> counts[j] <= counts[k])
    && (forall j :: i <= j < k ==> counts[j] < counts[k])
  }

  lemma {:induction false} WinnerIsFirstStrictMax(table: seq<IntentEntry>, counts: seq<nat>, i: nat, best: nat, detected: string)
    requires |counts| == |table| && i <= |table|
    ensures (forall j :: i <= j < |counts| ==> counts[j] <= best) ==>
              Winner(table, counts, i, best, detected) == detected
    ensures (exists j :: i <= j < |counts| && counts[j] > best) ==>
              exists k :: FirstStrictMax(counts, i, k, best) && Winner(table, counts, i, best, detected) == table[k].name
    decreases |table| - i
  {
    if i < |table| {
      if counts[i] > best {
        WinnerIsFirstStrictMax(table, counts, i + 1, counts[i], table[i].name);
        if exists j :: i + 1 <= j < |counts| && counts[j] > counts[i] {
          var k :| FirstStrictMax(counts, i + 1, k, counts[i]) && Winner(table, counts, i + 1, counts[i], table[i].name) == table[k].name;
          assert FirstStrictMax(counts, i, k, best);
        } else {
          assert FirstStrictMax(counts, i, i, best);
        }
      } else {
        WinnerIsFirstStrictMax(table, counts, i + 1, best, detected);
        if exists j :: i <= j < |counts| && counts[j] > best {
          var j :| i <= j < |counts| && counts[j] > best;
          assert j != i;
          var k :| FirstStrictMax(counts, i + 1, k, best) && Winner(table, counts, i + 1, best, detected) == table[k].name;
          assert FirstStrictMax(counts, i, k, best);
        }
      }
    }
  }

  /** `detect_intent` picks the first intent whose count is the largest and
      positive; so its count is at least everyone else's, ties go to the
      earlier intent, and with no match at all it is "general_inquiry". */
  lemma DetectedIntentIsFirstMax(table: seq<IntentEntry>, message: string)
    ensures var c := Counts(table, Lower(message));
            (forall j :: 0 <= j < |c| ==> c[j] == 0) ==> DetectedIntent(table, message) == "general_inquiry"
    ensures var c := Counts(table, Lower(message));
            (exists j :: 0 <= j < |c| && c[j] > 0) ==>
              exists k :: FirstStrictMax(c, 0, k, 0) && DetectedIntent(table, message) == table[k].name
  {
    WinnerIsFirstStrictMax(table, Counts(table, Lower(message)), 0, 0, "general_inquiry");
  }

  /** Classification does not depend on letter case. */
  lemma DetectedIntentIgnoresCase(table: seq<IntentEntry>, message: string)
    ensures DetectedIntent(table, message) == DetectedIntent(table, Lower(message))
  {
    LowerIdempotent(message);
  }

  /** `matches / total_patterns if total_patterns > 0 else 0` */
  function Ratio(matches: nat, total: nat): real {
    if total > 0 then matches as real / total as real else 0.0
  }

  lemma RatioBounds(matches: nat, total: nat)
    requires matches <= total
    ensures 0.0 <= Ratio(matches, total) <= 1.0
    ensures Ratio(matches, total) > 0.0 <==> matches > 0
  {
    if total > 0 {
      var r := matches as real / total as real;
      assert r * total as real == matches as real;
    }
  }

  /** The confidence of one intent: its matches over its number of patterns. */
  function Score(e: IntentEntry, text: string): real {
    Ratio(MatchCount(e.patterns, text), |e.patterns|)
  }

  lemma ScoreBounds(e: IntentEntry, text: string)
    ensures 0.0 <= Score(e, text) <= 1.0
  {
    RatioBounds(MatchCount(e.patterns, text), |e.patterns|);
  }

  /** The dictionary `get_intent_confidence` has built after its first `n` intents. */
  function ScoresUpTo(table: seq<IntentEntry>, text: string, n: nat): map<string, real>
    requires n <= |table|
  {
    if n == 0 then map[]
    else ScoresUpTo(table, text, n - 1)[table[n - 1].name := Score(table[n - 1], text)]
  }

  /** What `get_intent_confidence(message)` returns. */
  function ConfidenceScores(table: seq<IntentEntry>, message: string): map<string, real> {
    ScoresUpTo(table, Lower(message), |table|)
  }

  lemma {:induction false} ScoresUpToKeys(table: seq<IntentEntry>, text: string, n: nat)
    requires n <= |table|
    ensures ScoresUpTo(table, text, n).Keys == set k | 0 <= k < n :: table[k].name
  {
    if n > 0 {
      ScoresUpToKeys(table, text, n - 1);
      assert (set k | 0 <= k < n :: table[k].name) == (set k | 0 <= k < n - 1 :: table[k].name) + {table[n - 1].name};
    }
  }

  lemma {:induction false} ScoresUpToValues(table: seq<IntentEntry>, text: string, n: nat)
    requires n <= |table| && DistinctNames(table)
    ensures forall k :: 0 <= k < n ==>
              table[k].name in ScoresUpTo(table, text, n) && ScoresUpTo(table, text, n)[table[k].name] == Score(table[k], text)
  {
    if n > 0 {
      ScoresUpToValues(table, text, n - 1);
      forall k | 0 <= k < n - 1
        ensures table[k].name != table[n - 1].name
      {
      }
    }
  }

  lemma {:induction false} ScoresUpToBounds(table: seq<IntentEntry>, text: string, n: nat)
    requires n <= |table|
    ensures forall key :: key in ScoresUpTo(table, text, n) ==> 0.0 <= ScoresUpTo(table, text, n)[key] <= 1.0
  {
    if n > 0 {
      ScoresUpToBounds(table, text, n - 1);
      ScoreBounds(table[n - 1], text);
    }
  }

  /** The confidence map has one key per intent, each holding that intent's
      matches over its number of patterns, a value in [0, 1]. */
  lemma ScoresUpToSpec(table: seq<IntentEntry>, text: string, n: nat)
    requires n <= |table| && DistinctNames(table)
    ensures ScoresUpTo(table, text, n).Keys == set k | 0 <= k < n :: table[k].name
    ensures forall k :: 0 <= k < n ==>
              ScoresUpTo(table, text, n)[table[k].name] == Ratio(MatchCount(table[k].patterns, text), |table[k].patterns|)
    ensures forall key :: key in ScoresUpTo(table, text, n) ==> 0.0 <= ScoresUpTo(table, text, n)[key] <= 1.0
  {
    ScoresUpToKeys(table, text, n);
    ScoresUpToValues(table, text, n);
    ScoresUpToBounds(table, text, n);
  }

  lemma ConfidenceScoresSpec(table: seq<IntentEntry>, message: string)
    requires DistinctNames(table)
    ensures ConfidenceScores(table, message).Keys == set k | 0 <= k < |table| :: table[k].name
    ensures forall k :: 0 <= k < |table| ==>
              ConfidenceScores(table, message)[table[k].name] == Ratio(Counts(table, Lower(message))[k], |table[k].patterns|)
    ensures forall key :: key in ConfidenceScores(table, message) ==> 0.0 <= ConfidenceScores(table, message)[key] <= 1.0
  {
    ScoresUpToSpec(table, Lower(message), |table|);
  }

  /** The detected intent has a positive confidence, or every confidence is 0
      and the result is "general_inquiry". */
  lemma DetectedIntentHasConfidence(table: seq<IntentEntry>, message: string)
    requires DistinctNames(table)
    ensures var r, s := DetectedIntent(table, message), ConfidenceScores(table, message);
            (r in s && s[r] > 0.0) || (r == "general_inquiry" && forall key :: key in s ==> s[key] == 0.0)
  {
    var c := Counts(table, Lower(message));
    var s := ConfidenceScores(table, message);
    DetectedIntentIsFirstMax(table, message);
    ConfidenceScoresSpec(table, message);
    if exists j :: 0 <= j < |c| && c[j] > 0 {
      var k :| FirstStrictMax(c, 0, k, 0) && DetectedIntent(table, message) == table[k].name;
      RatioBounds(c[k], |table[k].patterns|);
    } else {
      forall key | key in s
        ensures s[key] == 0.0
      {
        var k :| 0 <= k < |table| && table[k].name == key;
        RatioBounds(c[k], |table[k].patterns|);
      }
    }
  }

  /** `IntentService`: holds the pattern table and classifies messages by it. */
  class IntentService {
    const intentPatterns: seq<IntentEntry>

    ghost predicate Valid() {
      intentPatterns == IntentTable()
    }

    constructor ()
      ensures Valid()
    {
      intentPatterns := IntentTable();
    }

    /** `detect_intent`: one pass over the table keeping the strictly best count. */
    method DetectIntent(message: string) returns (intent: string)
      ensures intent == DetectedIntent(intentPatterns, message)
    {
      var text := Lower(message);
      ghost var counts := Counts(intentPatterns, text);
      var maxMatches: nat := 0;
      intent := "general_inquiry";
      var i := 0;
      while i < |intentPatterns|
        invariant 0 <= i <= |intentPatterns|
        invariant Winner(intentPatterns, counts, i, maxMatches, intent)
                  == Winner(intentPatterns, counts, 0, 0, "general_inquiry")
      {
        var entry := intentPatterns[i];
        var matches := MatchCount(entry.patterns, text);
        if matches > maxMatches {
          maxMatches := matches;
          intent := entry.name;
        }
        i := i + 1;
      }
    }

    /** `get_intent_confidence`: fills the score dictionary intent by intent. */
    method GetIntentConfidence(message: string) returns (scores: map<string, real>)
      requires Valid()
      ensures scores == ConfidenceScores(intentPatterns, message)
      ensures scores.Keys == set k | 0 <= k < |intentPatterns| :: intentPatterns[k].name
      ensures forall key :: key in scores ==> 0.0 <= scores[key] <= 1.0
    {
      var text := Lower(message);
      scores := map[];
      var i := 0;
      while i < |intentPatterns|
        invariant 0 <= i <= |intentPatterns|
        invariant scores == ScoresUpTo(intentPatterns, text, i)
      {
        var entry := intentPatterns[i];
        var matches := MatchCount(entry.patterns, text);
        var totalPatterns := |entry.patterns|;
        var confidence := if totalPatterns > 0 then matches as real / totalPatterns as real else 0.0;
        scores := scores[entry.name := confidence];
        i := i + 1;
      }
      IntentTableShape();
      ConfidenceScoresSpec(intentPatterns, message);
    }
  }
}
