/**
 * The Python `str` operations that the sensor code applies to the text it
 * reads and writes: `strip`, `lstrip`, `splitlines`, `split`, `startswith`,
 * `endswith`, `isdigit`, `int(...)` and `str(int)`, over strings of code
 * points.
 */
module PyText {
  import opened Optional

  /** `str.isspace()` for one code point. */
  predicate IsSpace(c: char) {
    c == ' ' || ('\t' <= c <= '\r') || ('\U{1C}' <= c <= '\U{1F}') || c == '\U{85}' || c == '\U{A0}'
    || c == '\U{1680}' || ('\U{2000}' <= c <= '\U{200A}') || c == '\U{2028}' || c == '\U{2029}'
    || c == '\U{202F}' || c == '\U{205F}' || c == '\U{3000}'
  }

  /** The code points at which `str.splitlines()` ends a line. */
  predicate IsLineBreak(c: char) {
    ('\n' <= c <= '\r') || ('\U{1C}' <= c <= '\U{1E}') || c == '\U{85}' || c == '\U{2028}' || c == '\U{2029}'
  }

  predicate IsDigit(c: char) { '0' <= c <= '9' }

  /** `str.isdigit()` over ASCII digits: true only for a non-empty string of digits. */
  predicate IsDigits(s: string) {
    |s| > 0 && forall i :: 0 <= i < |s| ==> IsDigit(s[i])
  }

  predicate StartsWith(s: string, prefix: string) {
    |prefix| <= |s| && s[..|prefix|] == prefix
  }

  predicate EndsWith(s: string, suffix: string) {
    |suffix| <= |s| && s[|s| - |suffix|..] == suffix
  }

  /** Index of the first non-space at or after `i`, or `|s|`. */
  function SkipSpaces(s: string, i: nat): (k: nat)
    requires i <= |s|
    decreases |s| - i
    ensures i <= k <= |s|
    ensures forall j :: i <= j < k ==> IsSpace(s[j])
    ensures k < |s| ==> !IsSpace(s[k])
  {
    if i < |s| && IsSpace(s[i]) then SkipSpaces(s, i + 1) else i
  }

  /** End of `s[..j]` once its trailing spaces are removed. */
  function TrimSpaces(s: string, j: nat): (k: nat)
    requires j <= |s|
    ensures k <= j
    ensures forall i :: k <= i < j ==> IsSpace(s[i])
    ensures k > 0 ==> !IsSpace(s[k - 1])
  {
    if j > 0 && IsSpace(s[j - 1]) then TrimSpaces(s, j - 1) else j
  }

  /** `str.lstrip()`: drops the leading whitespace and nothing else. */
  function LStrip(s: string): string {
    s[SkipSpaces(s, 0)..]
  }

  /** `str.rstrip()`: drops the trailing whitespace and nothing else. */
  function RStrip(s: string): string {
    s[..TrimSpaces(s, |s|)]
  }

  /** `str.strip()`. */
  function Strip(s: string): string {
    RStrip(LStrip(s))
  }

  lemma StripNoop(s: string)
    requires s == [] || (!IsSpace(s[0]) && !IsSpace(s[|s| - 1]))
    ensures Strip(s) == s
  {
  }

  /** Index of the first character other than `c` at or after `i`, or `|s|`. */
  function SkipChar(s: string, c: char, i: nat): (k: nat)
    requires i <= |s|
    decreases |s| - i
    ensures i <= k <= |s|
    ensures forall j :: i <= j < k ==> s[j] == c
    ensures k < |s| ==> s[k] != c
  {
    if i < |s| && s[i] == c then SkipChar(s, c, i + 1) else i
  }

  /** `str.lstrip(c)` for a single character `c`. */
  function LStripChar(s: string, c: char): string {
    s[SkipChar(s, c, 0)..]
  }

  /** Value of a string of decimal digits, most significant first. */
  function DigitsValue(s: string): (n: int)
    ensures IsDigits(s) ==> n >= 0
  {
    if |s| == 0 then 0 else DigitsValue(s[..|s| - 1]) * 10 + (s[|s| - 1] as int - '0' as int)
  }

  function Digit(d: nat): (c: char)
    requires d < 10
    ensures IsDigit(c) && c as int - '0' as int == d
  {
    ('0' as int + d) as char
  }

  /** `str(n)` for a non-negative integer: its shortest decimal numeral. */
  function NatToDigits(n: nat): (s: string)
    ensures IsDigits(s) && DigitsValue(s) == n
    ensures s[0] == '0' ==> n == 0
  {
    if n < 10 then
      [Digit(n)]
    else
      var front := NatToDigits(n / 10);
      assert (front + [Digit(n % 10)])[..|front|] == front;
      front + [Digit(n % 10)]
  }

  /** `str(i)` for an integer. */
  function IntToText(i: int): string {
    if i < 0 then "-" + NatToDigits(-i) else NatToDigits(i)
  }

  /** `int(s)` for text made of an optional sign and ASCII digits, with surrounding whitespace. */
  function PyInt(s: string): Option<int> {
    var t := Strip(s);
    if |t| > 0 && t[0] == '-' && IsDigits(t[1..]) then Some(-DigitsValue(t[1..]))
    else if |t| > 0 && t[0] == '+' && IsDigits(t[1..]) then Some(DigitsValue(t[1..]))
    else if IsDigits(t) then Some(DigitsValue(t))
    else None
  }

  /** `int(str(i)) == i`. */
  lemma PyIntRoundTrip(i: int)
    ensures PyInt(IntToText(i)) == Some(i)
  {
    var s := IntToText(i);
    StripNoop(s);
    if i < 0 {
      assert s[1..] == NatToDigits(-i);
    }
  }

  predicate Occurs(s: string, sep: string, i: nat) {
    i + |sep| <= |s| && s[i..i + |sep|] == sep
  }

  /** `str.find(sep, i)`: the first occurrence of `sep` at or after `i`. */
  function FindFrom(s: string, sep: string, i: nat): (r: Option<nat>)
    requires i <= |s|
    decreases |s| - i
    ensures r.Some? ==> i <= r.value && Occurs(s, sep, r.value)
    ensures r.Some? ==> forall j :: i <= j < r.value ==> !Occurs(s, sep, j)
    ensures r.None? ==> forall j :: i <= j <= |s| ==> !Occurs(s, sep, j)
  {
    if i + |sep| > |s| then None
    else if s[i..i + |sep|] == sep then Some(i)
    else FindFrom(s, sep, i + 1)
  }

  /** The parts of `s[i..]` between occurrences of `sep`. */
  function SplitFrom(s: string, sep: string, i: nat): (parts: seq<string>)
    requires |sep| > 0 && i <= |s|
    decreases |s| - i
    ensures |parts| >= 1
  {
    match FindFrom(s, sep, i)
    case None => [s[i..]]
    case Some(k) => [s[i..k]] + SplitFrom(s, sep, k + |sep|)
  }

  /** `str.split(sep)` for a non-empty separator: one more part than there are occurrences. */
  function SplitOn(s: string, sep: string): (parts: seq<string>)
    requires |sep| > 0
    ensures |parts| >= 1
  {
    SplitFrom(s, sep, 0)
  }

  /** Index of the first line break at or after `i`, or `|s|`. */
  function LineEnd(s: string, i: nat): (n: nat)
    requires i <= |s|
    decreases |s| - i
    ensures i <= n <= |s|
    ensures forall j :: i <= j < n ==> !IsLineBreak(s[j])
    ensures n < |s| ==> IsLineBreak(s[n])
  {
    if i == |s| || IsLineBreak(s[i]) then i else LineEnd(s, i + 1)
  }

  /** The lines of `s[i..]`. */
  function LinesFrom(s: string, i: nat): (lines: seq<string>)
    requires i <= |s|
    decreases |s| - i
  {
    if i == |s| then []
    else
      var e := LineEnd(s, i);
      if e == |s| then [s[i..]]
      else
        var width := if s[e] == '\r' && e + 1 < |s| && s[e + 1] == '\n' then 2 else 1;
        [s[i..e]] + LinesFrom(s, e + width)
  }

  /** `str.splitlines()`: `\r\n` ends one line, a final line break adds no empty line. */
  function SplitLines(s: string): seq<string> {
    LinesFrom(s, 0)
  }

  /** `sep.join(fields)` for a one-character separator. */
  function Join(fields: seq<string>, sep: char): (s: string)
  {
    if |fields| == 0 then ""
    else if |fields| == 1 then fields[0]
    else fields[0] + [sep] + Join(fields[1..], sep)
  }

  /** `s.split(sep)` for a one-character separator. */
  function SplitChar(s: string, sep: char): (parts: seq<string>)
    ensures |parts| >= 1
  {
    SplitFrom(s, [sep], 0)
  }

  /** Splitting a joined line on the separator gives back the fields, when no field contains it. */
  lemma SplitJoin(fields: seq<string>, sep: char)
    requires |fields| >= 1
    requires forall k :: 0 <= k < |fields| ==> sep !in fields[k]
    ensures SplitChar(Join(fields, sep), sep) == fields
  {
    var s := Join(fields, sep);
    assert s[0..] == s;
    SplitFromJoin(s, 0, fields, sep);
  }

  lemma {:induction false} SplitFromJoin(s: string, i: nat, fields: seq<string>, sep: char)
    requires i <= |s| && s[i..] == Join(fields, sep)
    requires |fields| >= 1
    requires forall k :: 0 <= k < |fields| ==> sep !in fields[k]
    ensures SplitFrom(s, [sep], i) == fields
    decreases |fields|
  {
    if |fields| == 1 {
      NoSepUntilEnd(s, i, sep);
    } else {
      var e := NextField(s, i, fields, sep);
      SplitFromJoin(s, e + 1, fields[1..], sep);
      SplitFromFound(s, sep, i, e);
      assert fields == [fields[0]] + fields[1..];
    }
  }

  /** The first of several joined fields ends at the first separator; the rest follow it. */
  lemma NextField(s: string, i: nat, fields: seq<string>, sep: char) returns (e: nat)
    requires i <= |s| && s[i..] == Join(fields, sep)
    requires |fields| >= 2
    requires forall k :: 0 <= k < |fields| ==> sep !in fields[k]
    ensures e < |s| && FindFrom(s, [sep], i) == Some(e) && s[i..e] == fields[0]
    ensures s[e + 1..] == Join(fields[1..], sep)
    ensures forall k :: 0 <= k < |fields| - 1 ==> sep !in fields[1..][k]
  {
    var f0, rest := fields[0], Join(fields[1..], sep);
    e := i + |f0|;
    assert s[i..] == f0 + [sep] + rest;
    FirstSep(s, i, f0, rest, sep);
    assert s[e + 1..] == s[i..][|f0| + 1..];
  }

  /** Where the next separator is found, that part ends and splitting resumes after it. */
  lemma SplitFromFound(s: string, sep: char, i: nat, e: nat)
    requires i <= |s| && FindFrom(s, [sep], i) == Some(e)
    ensures SplitFrom(s, [sep], i) == [s[i..e]] + SplitFrom(s, [sep], e + 1)
  {
  }

  /** The last field runs to the end of the line. */
  lemma NoSepUntilEnd(s: string, i: nat, sep: char)
    requires i <= |s| && sep !in s[i..]
    ensures SplitFrom(s, [sep], i) == [s[i..]]
  {
    forall j | i <= j <= |s| ensures !Occurs(s, [sep], j) {
      if j < |s| {
        assert s[j] == s[i..][j - i];
      }
    }
  }

  /** A field without the separator ends at the separator that follows it. */
  lemma FirstSep(s: string, i: nat, f0: string, rest: string, sep: char)
    requires i <= |s| && s[i..] == f0 + [sep] + rest && sep !in f0
    ensures FindFrom(s, [sep], i) == Some(i + |f0|)
    ensures s[i..i + |f0|] == f0
  {
    var e := i + |f0|;
    forall j | i <= j < e ensures !Occurs(s, [sep], j) {
      assert s[j] == s[i..][j - i] == f0[j - i];
    }
    assert s[e] == s[i..][|f0|] == sep;
    assert Occurs(s, [sep], e) by { assert s[e..e + 1] == [sep]; }
    assert s[i..e] == s[i..][..|f0|];
  }
}
