/** String helpers with the semantics of the .NET `String` members the
    bridge uses (ordinal comparisons only). */
module Strs {

  predicate StartsWith(s: string, prefix: string) {
    |prefix| <= |s| && s[..|prefix|] == prefix
  }

  predicate EndsWith(s: string, suffix: string) {
    |suffix| <= |s| && s[|s| - |suffix|..] == suffix
  }

  /** A text framed by an opening and a closing part starts and ends with
      them. */
  lemma Framed(open: string, body: string, close: string)
    ensures StartsWith(open + body + close, open) && EndsWith(open + body + close, close)
  {
    assert (open + body + close)[..|open|] == open;
    assert (open + body + close)[|open + body|..] == close;
  }

  /** `pat` occurs in `s` at position `i`. */
  predicate OccursAt(s: string, pat: string, i: int) {
    0 <= i && i + |pat| <= |s| && s[i..i + |pat|] == pat
  }

  /** Ordinal `String.IndexOf`: the first position of `pat` at or after `from`,
      or -1. */
  function IndexFrom(s: string, pat: string, from: nat): (r: int)
    ensures r == -1 || (from <= r && OccursAt(s, pat, r))
    ensures forall j :: from <= j && (r == -1 || j < r) ==> !OccursAt(s, pat, j)
    decreases |s| - from
  {
    if from + |pat| > |s| then
      assert forall j :: from <= j ==> !OccursAt(s, pat, j);
      -1
    else if s[from..from + |pat|] == pat then from
    else IndexFrom(s, pat, from + 1)
  }

  function IndexOf(s: string, pat: string): (r: int)
    ensures r == -1 <==> forall j :: !OccursAt(s, pat, j)
    ensures r != -1 ==> OccursAt(s, pat, r) && forall j :: 0 <= j < r ==> !OccursAt(s, pat, j)
  {
    IndexFrom(s, pat, 0)
  }

  /** Ordinal `String.Replace(pat, rep)`: every non-overlapping occurrence,
      scanning left to right. */
  function Replace(s: string, pat: string, rep: string): (r: string)
    requires |pat| > 0
    ensures (forall j :: !OccursAt(s, pat, j)) ==> r == s
    decreases |s|
  {
    if |s| < |pat| then s
    else if s[..|pat|] == pat then
      assert OccursAt(s, pat, 0);
      rep + Replace(s[|pat|..], pat, rep)
    else
      assert forall j :: OccursAt(s[1..], pat, j) ==> OccursAt(s, pat, j + 1) by {
        forall j | OccursAt(s[1..], pat, j) ensures OccursAt(s, pat, j + 1) {
          assert s[1..][j..j + |pat|] == s[j + 1..j + 1 + |pat|];
        }
      }
      [s[0]] + Replace(s[1..], pat, rep)
  }

  /** `c` does not occur in `s`. */
  predicate Free(s: string, c: char) {
    forall i :: 0 <= i < |s| ==> s[i] != c
  }

  /** A first character that cannot start the pattern is kept. */
  lemma ReplaceStep(s: string, pat: string, rep: string)
    requires |pat| > 0 && |s| > 0 && s[0] != pat[0]
    ensures Replace(s, pat, rep) == [s[0]] + Replace(s[1..], pat, rep)
  {
    if |s| < |pat| {
      assert Replace(s[1..], pat, rep) == s[1..];
      assert [s[0]] + s[1..] == s;
    } else {
      assert s[..|pat|][0] == s[0];
    }
  }

  /** A prefix without the pattern's first character is passed over. */
  lemma {:induction false} ReplaceSkips(a: string, t: string, pat: string, rep: string)
    requires |pat| > 0 && Free(a, pat[0])
    ensures Replace(a + t, pat, rep) == a + Replace(t, pat, rep)
    decreases |a|
  {
    if |a| == 0 {
      assert a + t == t;
    } else {
      var s := a + t;
      assert s[0] == a[0];
      ReplaceStep(s, pat, rep);
      assert s[1..] == a[1..] + t;
      assert Free(a[1..], pat[0]) by {
        forall i | 0 <= i < |a[1..]| ensures a[1..][i] != pat[0] {
          assert a[1..][i] == a[i + 1];
        }
      }
      ReplaceSkips(a[1..], t, pat, rep);
      assert [a[0]] + (a[1..] + Replace(t, pat, rep)) == a + Replace(t, pat, rep);
    }
  }

  /** An occurrence at the front is replaced. */
  lemma ReplaceHit(t: string, pat: string, rep: string)
    requires |pat| > 0
    ensures Replace(pat + t, pat, rep) == rep + Replace(t, pat, rep)
  {
    assert (pat + t)[..|pat|] == pat;
    assert (pat + t)[|pat|..] == t;
  }

  /** Text without the pattern's first character is left as it is. */
  lemma ReplaceFree(s: string, pat: string, rep: string)
    requires |pat| > 0 && Free(s, pat[0])
    ensures Replace(s, pat, rep) == s
  {
    ReplaceSkips(s, "", pat, rep);
    assert s + "" == s;
  }

  lemma FreeConcat(a: string, b: string, c: char)
    requires Free(a, c) && Free(b, c)
    ensures Free(a + b, c)
  {
    assert forall i :: |a| <= i < |a + b| ==> (a + b)[i] == b[i - |a|];
  }

  function Join(sep: string, parts: seq<string>): (r: string)
    ensures |parts| == 0 ==> r == ""
    ensures |parts| == 1 ==> r == parts[0]
  {
    if |parts| == 0 then ""
    else if |parts| == 1 then parts[0]
    else Join(sep, parts[..|parts| - 1]) + sep + parts[|parts| - 1]
  }

  /** Concatenation of the lines, each followed by a line feed. */
  function Lines(lines: seq<string>): (r: string)
  {
    if |lines| == 0 then "" else Lines(lines[..|lines| - 1]) + lines[|lines| - 1] + "\n"
  }

  function LowerChar(c: char): char {
    if 'A' <= c <= 'Z' then (c as int + 32) as char else c
  }

  /** `ToLower` on the ASCII letters; other characters are unchanged. */
  function ToLower(s: string): (r: string)
    ensures |r| == |s|
    ensures forall i :: 0 <= i < |s| ==> r[i] == LowerChar(s[i])
  {
    seq(|s|, i requires 0 <= i < |s| => LowerChar(s[i]))
  }

  // ---------------------------------------------------------------------
  // Trimming

  /** `s` without the leading characters that `drop` holds for. */
  function TrimStart(s: string, drop: char -> bool): (r: string)
    ensures |r| <= |s| && r == s[|s| - |r|..]
    ensures forall i :: 0 <= i < |s| - |r| ==> drop(s[i])
    ensures |r| > 0 ==> !drop(r[0])
    decreases |s|
  {
    if |s| > 0 && drop(s[0]) then TrimStart(s[1..], drop) else s
  }

  /** `s` without the trailing characters that `drop` holds for. */
  function TrimEnd(s: string, drop: char -> bool): (r: string)
    ensures |r| <= |s| && r == s[..|r|]
    ensures forall i :: |r| <= i < |s| ==> drop(s[i])
    ensures |r| > 0 ==> !drop(r[|r| - 1])
    decreases |s|
  {
    if |s| > 0 && drop(s[|s| - 1]) then TrimEnd(s[..|s| - 1], drop) else s
  }

  /** A prefix of dropped characters does not change the trimmed text. */
  lemma {:induction false} TrimStartPast(a: string, b: string, drop: char -> bool)
    requires forall i :: 0 <= i < |a| ==> drop(a[i])
    ensures TrimStart(a + b, drop) == TrimStart(b, drop)
    decreases |a|
  {
    if |a| == 0 {
      assert a + b == b;
    } else {
      assert (a + b)[0] == a[0] && (a + b)[1..] == a[1..] + b;
      TrimStartPast(a[1..], b, drop);
    }
  }

  /** A suffix of dropped characters does not change the trimmed text. */
  lemma {:induction false} TrimEndPast(a: string, b: string, drop: char -> bool)
    requires forall i :: 0 <= i < |b| ==> drop(b[i])
    ensures TrimEnd(a + b, drop) == TrimEnd(a, drop)
    decreases |b|
  {
    if |b| == 0 {
      assert a + b == a;
    } else {
      assert (a + b)[|a + b| - 1] == b[|b| - 1] && (a + b)[..|a + b| - 1] == a + b[..|b| - 1];
      TrimEndPast(a, b[..|b| - 1], drop);
    }
  }

  /** `s` without any of the characters that `drop` holds for, the others
      kept in order. */
  function Strip(s: string, drop: char -> bool): (r: string)
    ensures |r| <= |s|
    ensures forall i :: 0 <= i < |r| ==> !drop(r[i])
    ensures (forall i :: 0 <= i < |s| ==> !drop(s[i])) ==> r == s
    decreases |s|
  {
    if |s| == 0 then ""
    else if drop(s[0]) then Strip(s[1..], drop)
    else [s[0]] + Strip(s[1..], drop)
  }

  /** Stripping distributes over concatenation. */
  lemma {:induction false} StripAppend(a: string, b: string, drop: char -> bool)
    ensures Strip(a + b, drop) == Strip(a, drop) + Strip(b, drop)
    decreases |a|
  {
    if |a| == 0 {
      assert a + b == b;
    } else {
      assert (a + b)[0] == a[0] && (a + b)[1..] == a[1..] + b;
      StripAppend(a[1..], b, drop);
    }
  }

  /** `char.IsWhiteSpace`: the Unicode separators and the control
      characters U+0009 to U+000D, U+0085. */
  predicate IsWhiteSpace(c: char) {
    '\t' <= c <= '\r' || c == ' ' || c == '\U{0085}' || c == '\U{00A0}' || c == '\U{1680}' ||
    '\U{2000}' <= c <= '\U{200A}' || c == '\U{2028}' || c == '\U{2029}' || c == '\U{202F}' || c == '\U{205F}' ||
    c == '\U{3000}'
  }

  predicate IsDigit(c: char) { '0' <= c <= '9' }

  function DigitChar(d: nat): (c: char)
    requires d < 10
    ensures IsDigit(c)
  {
    ('0' as int + d) as char
  }

  /** Decimal rendering of a natural number, as `int.ToString()` prints it. */
  function NatToString(n: nat): (r: string)
    ensures |r| >= 1
    ensures forall i :: 0 <= i < |r| ==> IsDigit(r[i])
    ensures n < 10 <==> |r| == 1
    decreases n
  {
    if n < 10 then [DigitChar(n)] else NatToString(n / 10) + [DigitChar(n % 10)]
  }

  lemma {:induction false} NatToStringInjective(a: nat, b: nat)
    requires NatToString(a) == NatToString(b)
    ensures a == b
    decreases a
  {
    var sa, sb := NatToString(a), NatToString(b);
    if a < 10 {
      assert b < 10;
    } else {
      assert b >= 10;
      assert sa[|sa| - 1] == DigitChar(a % 10) && sb[|sb| - 1] == DigitChar(b % 10);
      assert NatToString(a / 10) == sa[..|sa| - 1] == sb[..|sb| - 1] == NatToString(b / 10);
      NatToStringInjective(a / 10, b / 10);
    }
  }

  /** Appending a fixed text and a decimal number: distinct numbers give
      distinct strings. */
  lemma SuffixedInjective(base: string, sep: string, a: nat, b: nat)
    requires base + sep + NatToString(a) == base + sep + NatToString(b)
    ensures a == b
  {
    var pre := base + sep;
    assert NatToString(a) == (pre + NatToString(a))[|pre|..];
    assert NatToString(b) == (pre + NatToString(b))[|pre|..];
    NatToStringInjective(a, b);
  }
}
