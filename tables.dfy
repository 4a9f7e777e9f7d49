/**
 * `extract_tabular_data` of `medibot.py`, on strings only: whether a
 * retrieved passage holds a table, its title, its header cells and its
 * data rows. Cells stay text, since no numeric conversion is modelled.
 *
 * Its regular expressions run with `re.IGNORECASE`; the model folds ASCII
 * letters only and takes `\d` to be an ASCII digit and `\s` a character for
 * which `str.isspace()` holds.
 */
module Tables {
  import opened Wrappers
  import opened Text

  datatype TableResult = NotATable | Table(headers: seq<string>, rows: seq<seq<string>>, title: string)

  /** The lowercase word `w` occurs at `i`, ignoring ASCII case. */
  predicate WordAt(s: string, w: string, i: nat) {
    i + |w| <= |s| && Lower(s[i..i + |w|]) == w
  }

  // The character classes a run of `s[a..b]` is made of.

  predicate AllDigits(s: string, a: nat, b: nat)
    requires a <= b <= |s|
  {
    forall j :: a <= j < b ==> IsDigit(s[j])
  }

  predicate AllDashes(s: string, a: nat, b: nat)
    requires a <= b <= |s|
  {
    forall j :: a <= j < b ==> s[j] == '-'
  }

  predicate NoNewline(s: string, a: nat, b: nat)
    requires a <= b <= |s|
  {
    forall j :: a <= j < b ==> s[j] != '\n'
  }

  predicate OnlyNewlines(s: string, a: nat, b: nat)
    requires a <= b <= |s|
  {
    forall j :: a <= j < b ==> s[j] == '\n'
  }

  function DigitRunEnd(s: string, i: nat): (k: nat)
    requires i <= |s|
    ensures i <= k <= |s| && (k < |s| ==> !IsDigit(s[k]))
    ensures AllDigits(s, i, k)
    decreases |s| - i
  {
    if i < |s| && IsDigit(s[i]) then DigitRunEnd(s, i + 1) else i
  }

  function LineEnd(s: string, i: nat): (k: nat)
    requires i <= |s|
    ensures i <= k <= |s| && (k < |s| ==> s[k] == '\n')
    ensures NoNewline(s, i, k)
    decreases |s| - i
  {
    if i < |s| && s[i] != '\n' then LineEnd(s, i + 1) else i
  }

  /** The last index in `[lo, hi)` that does not hold a newline. */
  function LastNonNewline(s: string, lo: nat, hi: nat): (r: Option<nat>)
    requires lo <= hi <= |s|
    ensures r.Some? ==> lo <= r.value < hi && s[r.value] != '\n' && OnlyNewlines(s, r.value + 1, hi)
    ensures r.None? ==> OnlyNewlines(s, lo, hi)
    decreases hi - lo
  {
    if hi == lo then None
    else if s[hi - 1] != '\n' then Some(hi - 1)
    else LastNonNewline(s, lo, hi - 1)
  }

  /** `Table \d+[\.:]` (or `Figure ...`) matches at `i`. A shorter digit run
      would leave a digit where `[.:]` is needed, so only the full run counts. */
  predicate CaptionAt(s: string, word: string, i: nat) {
    && WordAt(s, word, i) && i + |word| < |s| && s[i + |word|] == ' '
    && var d := DigitRunEnd(s, i + |word| + 1);
       d > i + |word| + 1 && d < |s| && (s[d] == '.' || s[d] == ':')
  }

  function DashRunEnd(s: string, i: nat): (k: nat)
    requires i <= |s|
    ensures i <= k <= |s| && (k < |s| ==> s[k] != '-')
    ensures AllDashes(s, i, k)
    decreases |s| - i
  {
    if i < |s| && s[i] == '-' then DashRunEnd(s, i + 1) else i
  }

  /** `\s*[-]+\s*` matches the whole of `m`. A dash is not white space, so
      the greedy runs are the only split worth trying. */
  predicate IsDashRule(m: string) {
    var a := SpaceRunEnd(m, 0);
    var b := DashRunEnd(m, a);
    a < b && SpaceRunEnd(m, b) == |m|
  }

  /** `\|\s*[-]+\s*\|` occurs somewhere in `s`. */
  predicate HasDashRule(s: string) {
    exists i, j | 0 <= i < j < |s| :: s[i] == '|' && s[j] == '|' && IsDashRule(s[i + 1..j])
  }

  /** One of the three table indicators occurs. */
  predicate HasTableIndicator(s: string) {
    || (exists i | 0 <= i < |s| :: CaptionAt(s, "table", i))
    || (exists i | 0 <= i < |s| :: CaptionAt(s, "figure", i))
    || HasDashRule(s)
  }

  /** A match of the title expression: the whole match `s[start..end]` and
      the second group `s[groupStart..groupEnd]`. */
  datatype TitleMatch = TitleMatch(start: nat, end: nat, groupStart: nat, groupEnd: nat)

  /** `(Table|Figure)\s+\d+[\.:]?\s*([^\n]+)` tried at `i`. Every quantifier
      is greedy; when `\s*` runs to the end of the text the engine gives
      characters back until `[^\n]+` can take one, then gives back the
      optional `[.:]`, then the last digit. */
  function TitleMatchAt(s: string, i: nat): (r: Option<TitleMatch>)
    requires i <= |s|
    ensures r.Some? ==> r.value.start == i && (WordAt(s, "table", i) || WordAt(s, "figure", i))
    ensures r.Some? ==> i < r.value.groupStart < r.value.groupEnd == r.value.end <= |s|
    ensures r.Some? ==> NoNewline(s, r.value.groupStart, r.value.groupEnd)
  {
    var w := if WordAt(s, "table", i) then 5 else if WordAt(s, "figure", i) then 6 else 0;
    if w == 0 then None
    else
      var p := i + w;
      var q := SpaceRunEnd(s, p);
      if q == p || q == |s| || !IsDigit(s[q]) then None
      else TitleAfterNumber(s, i, q, DigitRunEnd(s, q))
  }

  /** The rest of the title expression once `\s+` has ended at `q` and the
      greedy `\d+` has run from `q` to `r`. */
  function TitleAfterNumber(s: string, i: nat, q: nat, r: nat): (m: Option<TitleMatch>)
    requires i < q < |s| && r == DigitRunEnd(s, q)
    ensures m.Some? ==> m.value.start == i && q <= m.value.groupStart < m.value.groupEnd == m.value.end <= |s|
    ensures m.Some? ==> NoNewline(s, m.value.groupStart, m.value.groupEnd)
  {
    var t := if r < |s| && (s[r] == '.' || s[r] == ':') then r + 1 else r;
    var u := SpaceRunEnd(s, t);
    if u < |s| then Some(TitleMatch(i, LineEnd(s, u), u, LineEnd(s, u)))
    else
      match LastNonNewline(s, t, |s|)
      case Some(k) => Some(TitleMatch(i, LineEnd(s, k), k, LineEnd(s, k)))
      case None =>
        if t == r + 1 then Some(TitleMatch(i, r + 1, r, r + 1))
        else if r - q >= 2 then Some(TitleMatch(i, r, r - 1, r))
        else None
  }

  /** The first position in `[i, n)` where `f` gives a match; `n` when there
      is none. */
  function FirstMatch(f: nat -> Option<TitleMatch>, i: nat, n: nat): (k: nat)
    requires i <= n
    ensures i <= k <= n && (k < n ==> f(k).Some?)
    decreases n - i
  {
    if i == n then n
    else if f(i).Some? then i
    else FirstMatch(f, i + 1, n)
  }

  /** No position before the first match has one. */
  lemma {:induction false} FirstMatchIsFirst(f: nat -> Option<TitleMatch>, i: nat, n: nat, j: nat)
    requires i <= n && i <= j < FirstMatch(f, i, n)
    ensures f(j).None?
    decreases j - i
  {
    if j > i {
      FirstMatchIsFirst(f, i + 1, n, j);
    }
  }

  /** The title expression tried at each position of `s`. */
  function TitleMatcher(s: string): nat -> Option<TitleMatch> {
    (j: nat) => if j <= |s| then TitleMatchAt(s, j) else None
  }

  /** `re.search`: the match at the leftmost position from `i` on where the
      title expression matches. */
  function FindTitle(s: string, i: nat): (r: Option<TitleMatch>)
    requires i <= |s|
    ensures r.Some? ==> i <= r.value.start < |s| && TitleMatchAt(s, r.value.start) == r
  {
    var k := FirstMatch(TitleMatcher(s), i, |s|);
    if k < |s| then TitleMatchAt(s, k) else None
  }

  /** The search finds the leftmost match: nothing matches before it, and
      nothing at all when it finds none. */
  lemma FindTitleLeftmost(s: string, i: nat, j: nat)
    requires i <= j < |s| && (FindTitle(s, i).None? || j < FindTitle(s, i).value.start)
    ensures TitleMatchAt(s, j).None?
  {
    var f := TitleMatcher(s);
    FirstMatchIsFirst(f, i, |s|, j);
    assert f(j) == TitleMatchAt(s, j);
  }

  /** `title_match.group(2).strip()`, or "Extracted Table" without a match. */
  function TitleOf(s: string, m: Option<TitleMatch>): string
    requires m.Some? ==> m.value.groupStart <= m.value.groupEnd <= |s|
  {
    match m
    case Some(tm) => Strip(s[tm.groupStart..tm.groupEnd])
    case None => "Extracted Table"
  }

  /** A title never spans lines. */
  lemma TitleIsOneLine(s: string)
    ensures '\n' !in TitleOf(s, FindTitle(s, 0))
  {
    var m := FindTitle(s, 0);
    if m.Some? {
      var tm := m.value;
      assert TitleMatchAt(s, tm.start) == m;
      NoNewlineSlice(s, tm.groupStart, tm.groupEnd);
      StripKeepsAbsence(s[tm.groupStart..tm.groupEnd], '\n');
    }
  }

  lemma NoNewlineSlice(s: string, a: nat, b: nat)
    requires a <= b <= |s| && NoNewline(s, a, b)
    ensures '\n' !in s[a..b]
  {
    var g := s[a..b];
    forall j | 0 <= j < |g|
      ensures g[j] != '\n'
    {
      assert g[j] == s[a + j];
    }
  }

  /** `[s.strip() for s in parts if s.strip()]` */
  function NonEmptyStripped(parts: seq<string>): (cs: seq<string>)
    ensures |cs| <= |parts|
    ensures forall k :: 0 <= k < |cs| ==> |cs[k]| > 0
  {
    if parts == [] then []
    else
      var h := Strip(parts[0]);
      var rest := NonEmptyStripped(parts[1..]);
      if h == "" then rest else [h] + rest
  }

  /** Every kept cell is trimmed. */
  lemma {:induction false} NonEmptyStrippedTrimmed(parts: seq<string>)
    ensures forall k :: 0 <= k < |NonEmptyStripped(parts)| ==> Trimmed(NonEmptyStripped(parts)[k])
  {
    if parts != [] {
      NonEmptyStrippedTrimmed(parts[1..]);
      assert Trimmed(Strip(parts[0]));
    }
  }

  /** The cells of a pipe row: its non-empty trimmed pieces between bars. */
  function Cells(row: string): (cs: seq<string>)
    ensures forall k :: 0 <= k < |cs| ==> |cs[k]| > 0 && '|' !in cs[k]
  {
    var parts := Split(row, '|');
    var cs := NonEmptyStripped(parts);
    NoBarInCells(parts);
    cs
  }

  lemma {:induction false} NoBarInCells(parts: seq<string>)
    requires forall k :: 0 <= k < |parts| ==> '|' !in parts[k]
    ensures forall k :: 0 <= k < |NonEmptyStripped(parts)| ==> '|' !in NonEmptyStripped(parts)[k]
  {
    if parts != [] {
      StripKeepsAbsence(parts[0], '|');
      NoBarInCells(parts[1..]);
    }
  }

  /** `re.match(r'^[\|\s\-:]+$', row)` for a row without newlines. */
  predicate IsSeparatorRow(row: string) {
    |row| >= 1 && forall k :: 0 <= k < |row| ==> row[k] == '|' || row[k] == '-' || row[k] == ':' || IsSpace(row[k])
  }

  predicate HasSeparatorRow(rows: seq<string>) {
    exists k | 0 <= k < |rows| :: IsSeparatorRow(rows[k])
  }

  /** `[row.strip() for row in rows if '|' in row]` */
  function PipeRows(rows: seq<string>): (prs: seq<string>)
    ensures |prs| <= |rows|
  {
    if rows == [] then []
    else (if '|' in rows[0] then [Strip(rows[0])] else []) + PipeRows(rows[1..])
  }

  /** The index of the first separator row from `i` on; 1 when there is none. */
  function FirstSeparator(rows: seq<string>, i: nat): (k: nat)
    requires i <= |rows|
    ensures (i <= k < |rows| && IsSeparatorRow(rows[k])) ||
            (k == 1 && forall j :: i <= j < |rows| ==> !IsSeparatorRow(rows[j]))
    ensures forall j :: i <= j < k && j < |rows| ==> !IsSeparatorRow(rows[j])
    decreases |rows| - i
  {
    if i == |rows| then 1
    else if IsSeparatorRow(rows[i]) then i
    else FirstSeparator(rows, i + 1)
  }

  /** The two ways a row is cut into cells. */
  datatype Layout = Markdown | Columns

  predicate NoEmptyCell(cells: seq<string>) {
    forall c :: 0 <= c < |cells| ==> |cells[c]| > 0
  }

  function RowCells(row: string, layout: Layout): (cs: seq<string>)
    ensures NoEmptyCell(cs)
  {
    match layout
    case Markdown => Cells(row)
    case Columns => Words(row)
  }

  /** The data rows kept from `rows`: those with some cells and exactly
      `width` of them, in order. */
  function KeptRows(rows: seq<string>, width: nat, layout: Layout): (data: seq<seq<string>>)
    ensures |data| <= |rows|
    ensures forall k :: 0 <= k < |data| ==> |data[k]| == width && data[k] != []
    ensures forall k :: 0 <= k < |data| ==> NoEmptyCell(data[k])
  {
    if rows == [] then []
    else
      var last := rows[|rows| - 1];
      var cells := RowCells(last, layout);
      KeptRows(rows[..|rows| - 1], width, layout) + (if cells != [] && |cells| == width then [cells] else [])
  }

  /** Every row with some cells, `width` of them, is kept. */
  lemma {:induction false} KeptRowsKeeps(rows: seq<string>, width: nat, layout: Layout, k: nat)
    requires k < |rows| && RowCells(rows[k], layout) != [] && |RowCells(rows[k], layout)| == width
    ensures RowCells(rows[k], layout) in KeptRows(rows, width, layout)
  {
    var init := rows[..|rows| - 1];
    if k < |rows| - 1 {
      assert init[k] == rows[k];
      KeptRowsKeeps(init, width, layout, k);
    }
  }

  /** Every kept row is the cells of some row of the input. */
  lemma {:induction false} KeptRowsCome(rows: seq<string>, width: nat, layout: Layout, d: seq<string>)
    requires d in KeptRows(rows, width, layout)
    ensures exists k :: 0 <= k < |rows| && d == RowCells(rows[k], layout)
  {
    var init := rows[..|rows| - 1];
    if d in KeptRows(init, width, layout) {
      KeptRowsCome(init, width, layout, d);
      var k :| 0 <= k < |init| && d == RowCells(init[k], layout);
      assert init[k] == rows[k];
    } else {
      assert d == RowCells(rows[|rows| - 1], layout);
    }
  }

  /** The markdown branch, once the passage has a pipe row with a dash. */
  function MarkdownTable(rows: seq<string>, title: string): TableResult {
    var tableRows := PipeRows(rows);
    if |tableRows| < 3 then NotATable
    else if !HasSeparatorRow(tableRows) then NotATable
    else
      var headers := Cells(tableRows[0]);
      var sep := FirstSeparator(tableRows, 0);
      var data := KeptRows(tableRows[sep + 1..], |headers|, Markdown);
      if |headers| > 0 && |data| > 0 then Table(headers, data, title) else NotATable
  }

  /** `col_counts.count(n)` */
  function Count(xs: seq<nat>, n: nat): nat {
    if xs == [] then 0 else (if xs[0] == n then 1 else 0) + Count(xs[1..], n)
  }

  /** `[len(row.split()) for row in rows if row.strip()]` */
  function ColumnCounts(rows: seq<string>): (counts: seq<nat>)
    ensures |counts| <= |rows|
  {
    if rows == [] then []
    else (if Strip(rows[0]) != "" then [|Words(rows[0])|] else []) + ColumnCounts(rows[1..])
  }

  /** The first row, from `i` on, holding `g`; 0 when none does. */
  function RowHolding(rows: seq<string>, g: string, i: nat): (k: nat)
    requires i <= |rows|
    ensures k < |rows| || k == 0
    decreases |rows| - i
  {
    if i == |rows| then 0
    else if Contains(rows[i], g) then i
    else RowHolding(rows, g, i + 1)
  }

  /** `rows[a:b]` with Python's clamping. */
  function Slice(rows: seq<string>, a: nat, b: nat): seq<string> {
    var lo := if a <= |rows| then a else |rows|;
    var hi := if b <= |rows| then b else |rows|;
    if lo <= hi then rows[lo..hi] else []
  }

  /** The up to 14 lines after the line holding the title match. */
  function CandidateRows(rows: seq<string>, wholeMatch: string): seq<string> {
    var titleIdx := RowHolding(rows, wholeMatch, 0);
    Slice(rows, titleIdx + 1, titleIdx + 15)
  }

  /** At least three non-blank candidate lines, at least three of them with
      as many words as the first non-blank one, and that many at least 3. */
  predicate ConsistentColumns(counts: seq<nat>) {
    |counts| >= 3 && Count(counts, counts[0]) >= 3 && counts[0] >= 3
  }

  /** The whitespace-column branch, once the title expression has matched. */
  function ColumnTable(rows: seq<string>, wholeMatch: string, title: string): TableResult {
    var candidates := CandidateRows(rows, wholeMatch);
    if !ConsistentColumns(ColumnCounts(candidates)) then NotATable
    else
      var header := Words(candidates[0]);
      var data := KeptRows(candidates[1..], |header|, Columns);
      if data != [] then Table(header, data, title) else NotATable
  }

  predicate HasDashedPipeRow(rows: seq<string>) {
    exists k | 0 <= k < |rows| :: '|' in rows[k] && '-' in rows[k]
  }

  /** What `extract_tabular_data(text)` finds. */
  function TabularData(text: string): TableResult {
    if !HasTableIndicator(text) then NotATable
    else
      var titleMatch := FindTitle(text, 0);
      var title := TitleOf(text, titleMatch);
      var rows := Split(text, '\n');
      if '|' in text && HasDashedPipeRow(rows) then MarkdownTable(rows, title)
      else if titleMatch.Some? then
        ColumnTable(rows, text[titleMatch.value.start..titleMatch.value.end], title)
      else NotATable
  }

  /** Without any of the three indicators the passage is not a table. */
  lemma NoIndicatorNoTable(text: string)
    requires !HasTableIndicator(text)
    ensures TabularData(text) == NotATable
  {
  }

  /** At least one header and one data row, every row as wide as the
      header row, and no empty cell. */
  predicate WellFormed(r: TableResult) {
    r.Table? ==>
      && |r.headers| > 0 && NoEmptyCell(r.headers) && |r.rows| > 0
      && forall k :: 0 <= k < |r.rows| ==> |r.rows[k]| == |r.headers| && NoEmptyCell(r.rows[k])
  }

  lemma MarkdownTableWellFormed(rows: seq<string>, title: string)
    ensures WellFormed(MarkdownTable(rows, title))
  {
    var tableRows := PipeRows(rows);
    if |tableRows| >= 3 {
      assert NoEmptyCell(Cells(tableRows[0])) == NoEmptyCell(RowCells(tableRows[0], Markdown));
    }
  }

  lemma ColumnTableWellFormed(rows: seq<string>, wholeMatch: string, title: string)
    ensures WellFormed(ColumnTable(rows, wholeMatch, title))
  {
    var candidates := CandidateRows(rows, wholeMatch);
    if ConsistentColumns(ColumnCounts(candidates)) {
      var header := Words(candidates[0]);
      var data := KeptRows(candidates[1..], |header|, Columns);
      assert NoEmptyCell(header) == NoEmptyCell(RowCells(candidates[0], Columns));
      if data != [] {
        assert |header| == |data[0]| > 0;
        assert ColumnTable(rows, wholeMatch, title) == Table(header, data, title);
      }
    }
  }

  /** A found table is well formed, the passage has a table indicator, and
      the title is one line. */
  lemma TableShape(text: string)
    requires TabularData(text).Table?
    ensures HasTableIndicator(text)
    ensures WellFormed(TabularData(text))
    ensures '\n' !in TabularData(text).title
  {
    TitleIsOneLine(text);
    var titleMatch := FindTitle(text, 0);
    var title := TitleOf(text, titleMatch);
    var rows := Split(text, '\n');
    MarkdownTableWellFormed(rows, title);
    if titleMatch.Some? {
      ColumnTableWellFormed(rows, text[titleMatch.value.start..titleMatch.value.end], title);
    }
  }

  /** In the markdown branch, fewer than three pipe rows or no separator row
      means no table. */
  lemma MarkdownNeedsThreeRowsAndSeparator(text: string)
    requires HasTableIndicator(text) && '|' in text && HasDashedPipeRow(Split(text, '\n'))
    ensures var prs := PipeRows(Split(text, '\n'));
            |prs| < 3 || (forall k :: 0 <= k < |prs| ==> !IsSeparatorRow(prs[k])) ==> TabularData(text) == NotATable
  {
  }

  /** A markdown table's headers are the cells of the first pipe row, and its
      rows are the rows after the first separator row with as many cells as
      there are headers. */
  lemma MarkdownTableShape(text: string)
    requires HasTableIndicator(text) && '|' in text && HasDashedPipeRow(Split(text, '\n'))
    requires TabularData(text).Table?
    ensures var prs := PipeRows(Split(text, '\n'));
            var r := TabularData(text);
            var sep := FirstSeparator(prs, 0);
            && |prs| >= 3 && sep < |prs| && IsSeparatorRow(prs[sep])
            && (forall j :: 0 <= j < sep ==> !IsSeparatorRow(prs[j]))
            && r.headers == Cells(prs[0])
            && r.rows == KeptRows(prs[sep + 1..], |r.headers|, Markdown)
  {
    var rows := Split(text, '\n');
    var title := TitleOf(text, FindTitle(text, 0));
    assert TabularData(text) == MarkdownTable(rows, title);
    MarkdownTableOf(rows, title);
  }

  lemma MarkdownTableOf(rows: seq<string>, title: string)
    requires MarkdownTable(rows, title).Table?
    ensures var prs := PipeRows(rows);
            var r := MarkdownTable(rows, title);
            var sep := FirstSeparator(prs, 0);
            && |prs| >= 3 && sep < |prs| && IsSeparatorRow(prs[sep])
            && (forall j :: 0 <= j < sep ==> !IsSeparatorRow(prs[j]))
            && r.headers == Cells(prs[0])
            && r.rows == KeptRows(prs[sep + 1..], |r.headers|, Markdown)
  {
  }

  lemma KeptRowsStep(rows: seq<string>, i: nat, width: nat, layout: Layout)
    requires i < |rows|
    ensures var cells := RowCells(rows[i], layout);
            KeptRows(rows[..i + 1], width, layout) ==
              KeptRows(rows[..i], width, layout) + (if cells != [] && |cells| == width then [cells] else [])
  {
    assert rows[..i + 1][..i] == rows[..i];
  }
}

/**
 * The loops of `extract_tabular_data`, each proved to compute the
 * corresponding function of `Tables`.
 */
module TableExtraction {
  import opened Wrappers
  import opened Text
  import opened Tables

  /** The row filter both branches run: keep the cells of each row that has
      some, exactly `width` of them. */
  method CollectRows(rows: seq<string>, width: nat, layout: Layout) returns (data: seq<seq<string>>)
    ensures data == KeptRows(rows, width, layout)
  {
    data := [];
    var i := 0;
    while i < |rows|
      invariant 0 <= i <= |rows|
      invariant data == KeptRows(rows[..i], width, layout)
    {
      var cells := RowCells(rows[i], layout);
      KeptRowsStep(rows, i, width, layout);
      if cells != [] && |cells| == width {
        data := data + [cells];
      }
      i := i + 1;
    }
    assert rows[..i] == rows;
  }

  /** The markdown branch of `extract_tabular_data`. */
  method ExtractMarkdownTable(rows: seq<string>, title: string) returns (r: TableResult)
    ensures r == MarkdownTable(rows, title)
  {
    var tableRows := PipeRows(rows);
    if |tableRows| < 3 || !HasSeparatorRow(tableRows) {
      return NotATable;
    }
    var headers := Cells(tableRows[0]);
    var sep := FirstSeparator(tableRows, 0);
    var rest := tableRows[sep + 1..];
    var data := CollectRows(rest, |headers|, Markdown);
    assert data == KeptRows(tableRows[sep + 1..], |headers|, Markdown);
    if |headers| > 0 && |data| > 0 {
      return Table(headers, data, title);
    }
    return NotATable;
  }

  /** The whitespace-column branch of `extract_tabular_data`. */
  method ExtractColumnTable(rows: seq<string>, wholeMatch: string, title: string) returns (r: TableResult)
    ensures r == ColumnTable(rows, wholeMatch, title)
  {
    var candidates := CandidateRows(rows, wholeMatch);
    if !ConsistentColumns(ColumnCounts(candidates)) {
      return NotATable;
    }
    var header := Words(candidates[0]);
    var rest := candidates[1..];
    var data := CollectRows(rest, |header|, Columns);
    if data != [] {
      return Table(header, data, title);
    }
    return NotATable;
  }

  /** Method form of `extract_tabular_data`. */
  method ExtractTabularData(text: string) returns (r: TableResult)
    ensures r == TabularData(text)
  {
    if !HasTableIndicator(text) {
      return NotATable;
    }
    var titleMatch := FindTitle(text, 0);
    var title := TitleOf(text, titleMatch);
    var rows := Split(text, '\n');
    if '|' in text && HasDashedPipeRow(rows) {
      r := ExtractMarkdownTable(rows, title);
    } else if titleMatch.Some? {
      r := ExtractColumnTable(rows, text[titleMatch.value.start..titleMatch.value.end], title);
    } else {
      r := NotATable;
    }
  }
}
