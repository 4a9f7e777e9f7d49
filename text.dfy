/**
 * The parts of Python's `str` that the chatbot's text logic relies on:
 * `isspace`, `lower` (ASCII letters only), `strip`, `in`, `split(sep)`,
 * `split()`, `sep.join(...)` and `str(n)` for natural numbers.
 */
module Text {
  import opened Wrappers

  /** The characters for which Python's `str.isspace()` holds; `strip()`,
      `split()` and the regex class `\s` all use this set. */
  predicate IsSpace(c: char) {
    || c == ' '
    || ('\t' <= c <= '\r')
    || ('\U{1C}' <= c <= '\U{1F}')
    || c == '\U{85}' || c == '\U{A0}' || c == '\U{1680}'
    || ('\U{2000}' <= c <= '\U{200A}')
    || c == '\U{2028}' || c == '\U{2029}' || c == '\U{202F}' || c == '\U{205F}' || c == '\U{3000}'
  }

  predicate IsDigit(c: char) {
    '0' <= c <= '9'
  }

  function LowerChar(c: char): char {
    if 'A' <= c <= 'Z' then (c as int - 'A' as int + 'a' as int) as char else c
  }

  /** `s.lower()`, restricted to ASCII letters. */
  function Lower(s: string): (r: string)
    ensures |r| == |s|
    ensures forall i :: 0 <= i < |s| ==> r[i] == LowerChar(s[i])
  {
    seq(|s|, i requires 0 <= i < |s| => LowerChar(s[i]))
  }

  lemma LowerIdempotent(s: string)
    ensures Lower(Lower(s)) == Lower(s)
  {
  }

  /** Text without ASCII capitals is its own lowercase form. */
  lemma LowerOfLowercase(s: string)
    requires forall i :: 0 <= i < |s| ==> !('A' <= s[i] <= 'Z')
    ensures Lower(s) == s
  {
  }

  /** Every character of `s[a..b]` is whitespace. */
  predicate AllSpaces(s: string, a: nat, b: nat)
    requires a <= b <= |s|
  {
    forall j :: a <= j < b ==> IsSpace(s[j])
  }

  /** Text that neither starts nor ends with whitespace. */
  predicate Trimmed(c: string) {
    c != [] ==> !IsSpace(c[0]) && !IsSpace(c[|c| - 1])
  }

  /** The end of the run of whitespace that starts at `i`. */
  function SpaceRunEnd(s: string, i: nat): (k: nat)
    requires i <= |s|
    ensures i <= k <= |s| && (k < |s| ==> !IsSpace(s[k]))
    ensures AllSpaces(s, i, k)
    decreases |s| - i
  {
    if i < |s| && IsSpace(s[i]) then SpaceRunEnd(s, i + 1) else i
  }

  /** The start of the run of whitespace that ends at `j`, not going below `lo`. */
  function SpaceRunStart(s: string, lo: nat, j: nat): (k: nat)
    requires lo <= j <= |s|
    ensures lo <= k <= j && (k > lo ==> !IsSpace(s[k - 1]))
    ensures AllSpaces(s, k, j)
    decreases j - lo
  {
    if j > lo && IsSpace(s[j - 1]) then SpaceRunStart(s, lo, j - 1) else j
  }

  /** `s.strip()`: the result is a slice of `s` that neither starts nor ends
      with whitespace, and everything cut off around it is whitespace. */
  function Strip(s: string): (r: string)
    ensures exists i :: IsTrimmedSlice(s, r, i)
    ensures Trimmed(r)
  {
    var i := SpaceRunEnd(s, 0);
    var j := SpaceRunStart(s, i, |s|);
    assert IsTrimmedSlice(s, s[i..j], i);
    s[i..j]
  }

  /** Text that neither starts nor ends with whitespace is its own strip. */
  lemma StripUnpadded(s: string)
    requires Trimmed(s)
    ensures Strip(s) == s
  {
  }

  /** `r` is `s[i..i + |r|]` and only whitespace lies around it in `s`. */
  ghost predicate IsTrimmedSlice(s: string, r: string, i: int) {
    && 0 <= i <= |s| - |r| && r == s[i..i + |r|]
    && AllSpaces(s, 0, i) && AllSpaces(s, i + |r|, |s|)
  }

  /** `p` occurs in `s` starting at index `i`. */
  predicate OccursAt(s: string, p: string, i: int) {
    0 <= i && i + |p| <= |s| && s[i..i + |p|] == p
  }

  /** Python's `p in s`. */
  predicate Contains(s: string, p: string) {
    exists i | 0 <= i <= |s| :: OccursAt(s, p, i)
  }

  predicate StartsWith(s: string, p: string) {
    |p| <= |s| && s[..|p|] == p
  }

  /** `s.find(p, from)`, as an Option: the leftmost occurrence at or after `from`. */
  function FindFrom(s: string, p: string, from: nat): (r: Option<nat>)
    ensures r.Some? ==> from <= r.value && OccursAt(s, p, r.value)
    ensures forall j :: from <= j && (r.None? || j < r.value) ==> !OccursAt(s, p, j)
    decreases |s| - from
  {
    if from + |p| > |s| then None
    else if s[from..from + |p|] == p then Some(from)
    else FindFrom(s, p, from + 1)
  }

  lemma FindFindsContained(s: string, p: string)
    ensures Contains(s, p) <==> FindFrom(s, p, 0).Some?
  {
    var r := FindFrom(s, p, 0);
    if r.Some? {
      assert OccursAt(s, p, r.value);
    }
  }

  /** Index of the first `c` in `s`. */
  /** `s.rfind(c)` when `c` occurs. */
  function LastIndexOf(s: string, c: char): (k: nat)
    requires c in s
    ensures k < |s| && s[k] == c && c !in s[k + 1..]
  {
    if s[|s| - 1] == c then |s| - 1
    else
      var init := s[..|s| - 1];
      assert c in init by {
        var j :| 0 <= j < |s| && s[j] == c;
        assert init[j] == c;
      }
      var k := LastIndexOf(init, c);
      assert s[k + 1..] == init[k + 1..] + [s[|s| - 1]];
      k
  }

  function FirstIndexOf(s: string, c: char): (k: nat)
    requires c in s
    ensures k < |s| && s[k] == c && c !in s[..k]
  {
    if s[0] == c then 0
    else
      var k := FirstIndexOf(s[1..], c);
      assert s[..k + 1] == [s[0]] + s[1..][..k];
      k + 1
  }

  /** `s.split(sep)` for a one-character separator. */
  function Split(s: string, sep: char): (parts: seq<string>)
    ensures |parts| >= 1
    ensures forall k :: 0 <= k < |parts| ==> sep !in parts[k]
    decreases |s|
  {
    if sep !in s then [s]
    else
      var k := FirstIndexOf(s, sep);
      [s[..k]] + Split(s[k + 1..], sep)
  }

  /** `sep.join(parts)` */
  function Join(parts: seq<string>, sep: string): string {
    if |parts| == 0 then ""
    else if |parts| == 1 then parts[0]
    else parts[0] + sep + Join(parts[1..], sep)
  }

  /** Joining the pieces of a split with the same separator gives the text back. */
  lemma {:induction false} JoinOfSplit(s: string, sep: char)
    ensures Join(Split(s, sep), [sep]) == s
    decreases |s|
  {
    if sep in s {
      var k := FirstIndexOf(s, sep);
      var tail := Split(s[k + 1..], sep);
      assert Split(s, sep) == [s[..k]] + tail;
      JoinOfSplit(s[k + 1..], sep);
      assert Join([s[..k]] + tail, [sep]) == s[..k] + [sep] + Join(tail, [sep]) by {
        assert ([s[..k]] + tail)[1..] == tail;
      }
      assert s == s[..k] + [sep] + s[k + 1..];
    }
  }

  /** Splitting a join recovers the parts, when no part holds the separator. */
  lemma {:induction false} SplitOfJoin(parts: seq<string>, sep: char)
    requires |parts| >= 1
    requires forall k :: 0 <= k < |parts| ==> sep !in parts[k]
    ensures Split(Join(parts, [sep]), sep) == parts
    decreases |parts|
  {
    if |parts| > 1 {
      var rest := Join(parts[1..], [sep]);
      var s := parts[0] + [sep] + rest;
      assert s[|parts[0]|] == sep;
      var k := FirstIndexOf(s, sep);
      assert s[..|parts[0]|] == parts[0];
      assert k == |parts[0]|;
      assert s[k + 1..] == rest;
      SplitOfJoin(parts[1..], sep);
    }
  }

  ghost predicate InSomeLine(lines: seq<string>, p: string) {
    exists k :: 0 <= k < |lines| && Contains(lines[k], p)
  }

  /** Cutting a text at a newline cannot split an occurrence of a newline-free text. */
  lemma ContainsAroundNewline(s: string, p: string, n: nat)
    requires n < |s| && s[n] == '\n' && '\n' !in p
    ensures Contains(s, p) <==> Contains(s[..n], p) || Contains(s[n + 1..], p)
  {
    var a, b := s[..n], s[n + 1..];
    if Contains(s, p) {
      var i :| 0 <= i <= |s| && OccursAt(s, p, i);
      if i + |p| <= n {
        assert a[i..i + |p|] == s[i..i + |p|];
        assert OccursAt(a, p, i);
      } else if i > n {
        assert b[i - n - 1..i - n - 1 + |p|] == s[i..i + |p|];
        assert OccursAt(b, p, i - n - 1);
      }
    }
    if Contains(a, p) {
      var i :| 0 <= i <= |a| && OccursAt(a, p, i);
      assert s[i..i + |p|] == a[i..i + |p|];
      assert OccursAt(s, p, i);
    }
    if Contains(b, p) {
      var i :| 0 <= i <= |b| && OccursAt(b, p, i);
      assert s[n + 1 + i..n + 1 + i + |p|] == b[i..i + |p|];
      assert OccursAt(s, p, n + 1 + i);
    }
  }

  /** A text without a newline lies within a single line: it occurs in `s`
      exactly when it occurs in one of the lines of `s`. */
  lemma {:induction false} ContainsIffInSomeLine(s: string, p: string)
    requires '\n' !in p
    ensures Contains(s, p) <==> InSomeLine(Split(s, '\n'), p)
    decreases |s|
  {
    var lines := Split(s, '\n');
    if '\n' in s {
      var n := FirstIndexOf(s, '\n');
      var a, b := s[..n], s[n + 1..];
      assert lines == [a] + Split(b, '\n');
      ContainsIffInSomeLine(b, p);
      ContainsAroundNewline(s, p, n);
      if Contains(b, p) {
        var k :| 0 <= k < |Split(b, '\n')| && Contains(Split(b, '\n')[k], p);
        assert lines[k + 1] == Split(b, '\n')[k];
      }
      if InSomeLine(lines, p) {
        var k :| 0 <= k < |lines| && Contains(lines[k], p);
        if k > 0 {
          assert Split(b, '\n')[k - 1] == lines[k];
        }
      }
    } else {
      assert lines == [s];
      if Contains(s, p) {
        assert Contains(lines[0], p);
      }
      if InSomeLine(lines, p) {
        var k :| 0 <= k < |lines| && Contains(lines[k], p);
        assert k == 0;
      }
    }
  }

  /** Stripping keeps a subset of the characters: a character absent from
      `s` is absent from `Strip(s)`. */
  lemma StripKeepsAbsence(s: string, c: char)
    requires c !in s
    ensures c !in Strip(s)
  {
    var r := Strip(s);
    var i :| IsTrimmedSlice(s, r, i);
    assert forall j :: 0 <= j < |r| ==> r[j] == s[i + j];
  }

  /** Splitting at the first separator: the text before it is the first part. */
  lemma SplitAtFirst(a: string, sep: char, b: string)
    requires sep !in a
    ensures Split(a + [sep] + b, sep) == [a] + Split(b, sep)
  {
    var s := a + [sep] + b;
    assert s[|a|] == sep;
    var k := FirstIndexOf(s, sep);
    assert s[..|a|] == a;
    assert k == |a|;
    assert s[k + 1..] == b;
  }

  /** The first two pieces of `a + sep + b + sep + c` are `a` and `b`. */
  lemma SplitFirstTwo(a: string, sep: char, b: string, c: string)
    requires sep !in a && sep !in b
    ensures |Split(a + [sep] + b + [sep] + c, sep)| >= 2
    ensures Split(a + [sep] + b + [sep] + c, sep)[0] == a
    ensures Split(a + [sep] + b + [sep] + c, sep)[1] == b
  {
    var rest := b + [sep] + c;
    assert a + [sep] + b + [sep] + c == a + [sep] + rest;
    SplitAtFirst(a, sep, rest);
    SplitAtFirst(b, sep, c);
  }

  /** The end of the word starting at `i`: the first whitespace at or after `i`. */
  function WordEnd(s: string, i: nat): (k: nat)
    requires i <= |s|
    ensures i <= k <= |s|
    ensures k < |s| ==> IsSpace(s[k])
    ensures forall j :: i <= j < k ==> !IsSpace(s[j])
    decreases |s| - i
  {
    if i == |s| || IsSpace(s[i]) then i else WordEnd(s, i + 1)
  }

  /** `s.split()` with no argument: the maximal runs of non-whitespace. */
  function Words(s: string): (ws: seq<string>)
    ensures forall k :: 0 <= k < |ws| ==> |ws[k]| > 0
    decreases |s|
  {
    if s == [] then []
    else if IsSpace(s[0]) then Words(s[1..])
    else
      var k := WordEnd(s, 1);
      [s[..k]] + Words(s[k..])
  }

  /** Plain concatenation of a sequence of texts. */
  function Concat(parts: seq<string>): string {
    if parts == [] then "" else parts[0] + Concat(parts[1..])
  }

  function DigitChar(d: nat): (c: char)
    requires d < 10
    ensures IsDigit(c)
  {
    ('0' as int + d) as char
  }

  /** `str(n)` for a natural number: decimal digits, no leading zero. */
  function NatToString(n: nat): (s: string)
    ensures |s| >= 1 && forall i :: 0 <= i < |s| ==> IsDigit(s[i])
    ensures |s| > 1 ==> s[0] != '0'
    decreases n
  {
    if n < 10 then [DigitChar(n)] else NatToString(n / 10) + [DigitChar(n % 10)]
  }

  /** Reads a run of decimal digits back as a number. */
  function ParseNat(s: string): nat
    requires forall i :: 0 <= i < |s| ==> IsDigit(s[i])
  {
    if s == [] then 0
    else
      assert IsDigit(s[|s| - 1]);
      10 * ParseNat(s[..|s| - 1]) + (s[|s| - 1] as int - '0' as int)
  }

  lemma {:induction false} ParseNatToString(n: nat)
    ensures ParseNat(NatToString(n)) == n
    decreases n
  {
    if n >= 10 {
      var s := NatToString(n);
      assert s[..|s| - 1] == NatToString(n / 10);
      ParseNatToString(n / 10);
    }
  }
}
