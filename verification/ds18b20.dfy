/**
 * Reading one DS18B20 through the Linux `w1_therm` driver: the text of its
 * `w1_slave` file is accepted only when the first line carries the CRC
 * verdict `YES` and the second line carries exactly one `t=` followed by the
 * temperature in millidegrees Celsius. A reading is tried a bounded number of
 * times; every failure (I/O, format, integer conversion) only costs an
 * attempt.
 */
module Ds18b20 {
  import opened Optional
  import opened PyText

  /** `REINTENTOS`: attempts per reading. */
  const Reintentos: nat := 3

  /** What one open-and-read of `w1_slave` yields: its text, or an exception. */
  datatype RawRead = Payload(text: string) | IoError

  /**
   * The checks on the lines of the text: the first line (stripped) ends with
   * the CRC verdict `YES`, and the second has exactly one `t=` followed by an
   * optionally negative run of digits. `None` also when `int()` raises on
   * what passed the checks (the exception is swallowed).
   */
  function CheckLines(lines: seq<string>): (r: Option<int>)
  {
    if |lines| >= 2 && EndsWith(Strip(lines[0]), "YES") then
      var parts := SplitOn(lines[1], "t=");
      if |parts| == 2 && IsDigits(LStripChar(Strip(parts[1]), '-')) then
        PyInt(parts[1])
      else
        None
    else
      None
  }

  /** The numeral `int()` accepts after the checks: digits with at most one leading minus. */
  predicate SignedDigits(f: string, v: int) {
    || (IsDigits(f) && v == DigitsValue(f))
    || (|f| > 0 && f[0] == '-' && IsDigits(f[1..]) && v == -DigitsValue(f[1..]))
  }

  /**
   * The lines are accepted with value `v` exactly when the first ends with
   * `YES`, the second has one `t=`, and what follows it is, once stripped, a
   * run of digits with at most one leading minus whose value is `v`.
   */
  lemma CheckLinesAccepts(lines: seq<string>, v: int)
    ensures CheckLines(lines) == Some(v) <==>
      && |lines| >= 2
      && EndsWith(Strip(lines[0]), "YES")
      && |SplitOn(lines[1], "t=")| == 2
      && SignedDigits(Strip(SplitOn(lines[1], "t=")[1]), v)
  {
    if |lines| >= 2 && |SplitOn(lines[1], "t=")| == 2 {
      var f := Strip(SplitOn(lines[1], "t=")[1]);
      var k := SkipChar(f, '-', 0);
      if IsDigits(f) {
        assert k == 0 && f[0..] == f;
      } else if |f| > 0 && f[0] == '-' && IsDigits(f[1..]) {
        assert f[1..][0] == f[1];
        assert SkipChar(f, '-', 1) == 1;
        assert LStripChar(f, '-') == f[1..];
      }
    }
  }

  /** One attempt on the text read: the checks apply to the stripped text's lines. */
  function ParsePayload(text: string): Option<int> {
    CheckLines(SplitLines(Strip(text)))
  }

  /** The outcome of one attempt, whatever went wrong. */
  function Attempt(read: RawRead): Option<int> {
    match read
    case IoError => None
    case Payload(text) => ParsePayload(text)
  }

  /** The outcome of each attempt, in order. */
  function Attempts(outcomes: seq<RawRead>): (rs: seq<Option<int>>)
    ensures |rs| == |outcomes|
  {
    if |outcomes| == 0 then [] else [Attempt(outcomes[0])] + Attempts(outcomes[1..])
  }

  lemma {:induction false} AttemptsAt(outcomes: seq<RawRead>, k: nat)
    requires k < |outcomes|
    ensures Attempts(outcomes)[k] == Attempt(outcomes[k])
  {
    if k > 0 {
      AttemptsAt(outcomes[1..], k - 1);
    }
  }

  /** The value of the first success, or `None` when every attempt failed. */
  function FirstSome(rs: seq<Option<int>>): (r: Option<int>)
    ensures r.None? <==> forall k :: 0 <= k < |rs| ==> rs[k].None?
    ensures r.Some? ==>
      exists k :: 0 <= k < |rs| && rs[k] == r && (forall j :: 0 <= j < k ==> rs[j].None?)
  {
    if |rs| == 0 then None
    else if rs[0].Some? then rs[0]
    else
      var rest := FirstSome(rs[1..]);
      assert forall k :: 1 <= k < |rs| ==> rs[k] == rs[1..][k - 1];
      rest
  }

  /** What `leer_ds18b20` returns for a sensor file whose successive reads give `outcomes`. */
  function Reading(outcomes: seq<RawRead>): Option<int>
    requires |outcomes| >= Reintentos
  {
    FirstSome(Attempts(outcomes[..Reintentos]))
  }

  /**
   * `leer_ds18b20`: `outcomes` are the results the successive reads of the file
   * would give. Returns the reading and how many attempts were made.
   */
  method ReadDs18b20(outcomes: seq<RawRead>) returns (t: Option<int>, attempts: nat)
    requires |outcomes| >= Reintentos
    ensures 1 <= attempts <= Reintentos
    ensures t == Reading(outcomes)
    ensures t.Some? ==>
      && Attempts(outcomes[..Reintentos])[attempts - 1] == t
      && forall j :: 0 <= j < attempts - 1 ==> Attempts(outcomes[..Reintentos])[j].None?
    ensures t.None? ==> attempts == Reintentos
  {
    ghost var rs := Attempts(outcomes[..Reintentos]);
    attempts := 0;
    while attempts < Reintentos
      invariant attempts <= Reintentos
      invariant forall j :: 0 <= j < attempts ==> rs[j].None?
    {
      var v := Attempt(outcomes[attempts]);
      AttemptsAt(outcomes[..Reintentos], attempts);
      assert outcomes[..Reintentos][attempts] == outcomes[attempts];
      attempts := attempts + 1;
      if v.Some? {
        FirstSomeAfterFailures(rs, attempts - 1);
        return v, attempts;
      }
      // the retry delay (`time.sleep`) is not modelled
    }
    t := None;
  }

  /** Skipping attempts that failed does not change the first success. */
  lemma {:induction false} FirstSomeAfterFailures(rs: seq<Option<int>>, k: nat)
    requires k < |rs|
    requires forall j :: 0 <= j < k ==> rs[j].None?
    ensures FirstSome(rs) == FirstSome(rs[k..])
    ensures rs[k].Some? ==> FirstSome(rs) == rs[k]
  {
    if k > 0 {
      assert rs[1..][k - 1..] == rs[k..];
      FirstSomeAfterFailures(rs[1..], k - 1);
    }
  }

  // ---------------------------------------------------------------------------
  // What the driver writes, and what the parser makes of it
  // ---------------------------------------------------------------------------

  predicate NoLineBreak(s: string) {
    forall j :: 0 <= j < |s| ==> !IsLineBreak(s[j])
  }

  /** A two-line text whose lines need no stripping splits into those two lines. */
  lemma TwoLines(l1: string, l2: string)
    requires |l1| > 0 && |l2| > 0 && NoLineBreak(l1) && NoLineBreak(l2)
    ensures SplitLines(l1 + "\n" + l2) == [l1, l2]
  {
    var s := l1 + "\n" + l2;
    var n := |l1|;
    forall j | 0 <= j < n ensures !IsLineBreak(s[j]) {
      assert s[j] == l1[j];
    }
    assert s[n] == '\n';
    assert LineEnd(s, 0) == n;
    forall j | n + 1 <= j < |s| ensures !IsLineBreak(s[j]) {
      assert s[j] == l2[j - n - 1];
    }
    assert LineEnd(s, n + 1) == |s|;
    assert s[0..n] == l1;
    assert s[n + 1..] == l2;
    assert LinesFrom(s, n + 1) == [l2];
  }

  /** A second line `p + "t=" + q` without any other `=` splits into `p` and `q`. */
  lemma SplitTemp(p: string, q: string)
    requires '=' !in p && '=' !in q
    ensures SplitOn(p + "t=" + q, "t=") == [p, q]
  {
    var s := p + "t=" + q;
    var n := |p|;
    TempMarkFirst(p, q);
    TempMarkLast(p, q);
    assert s[0..n] == p;
    assert s[n + 2..] == q;
    assert SplitFrom(s, "t=", n + 2) == [q];
  }

  /** The first `t=` is the one after the CRC line's bytes. */
  lemma TempMarkFirst(p: string, q: string)
    requires '=' !in p
    ensures FindFrom(p + "t=" + q, "t=", 0) == Some(|p|)
  {
    var s := p + "t=" + q;
    var n := |p|;
    forall j | 0 <= j < n ensures !Occurs(s, "t=", j) {
      if j + 1 < n {
        assert s[j + 1] == p[j + 1] && p[j + 1] in p;
      }
      assert s[j..j + 2][1] == s[j + 1] != '=';
    }
    assert Occurs(s, "t=", n) by { assert s[n..n + 2] == "t="; }
  }

  /** No `t=` follows the temperature digits. */
  lemma TempMarkLast(p: string, q: string)
    requires '=' !in q
    ensures FindFrom(p + "t=" + q, "t=", |p| + 2).None?
  {
    var s := p + "t=" + q;
    assert s[|p| + 2..] == q;
    NoMarkWithoutEquals(s, |p| + 2);
  }

  /** Text without `=` holds no `t=`. */
  lemma NoMarkWithoutEquals(s: string, i: nat)
    requires i <= |s| && '=' !in s[i..]
    ensures FindFrom(s, "t=", i).None?
  {
    forall j | i <= j <= |s| ensures !Occurs(s, "t=", j) {
      if j + 2 <= |s| {
        assert s[j + 1] == s[i..][j + 1 - i];
        assert s[j..j + 2][1] == s[j + 1];
      }
    }
  }

  /** A trailing newline after text that ends in a non-space is stripped away. */
  lemma StripTrailingNewline(s: string)
    requires |s| > 0 && !IsSpace(s[0]) && !IsSpace(s[|s| - 1])
    ensures Strip(s + "\n") == s
  {
    var t := s + "\n";
    assert SkipSpaces(t, 0) == 0;
    assert t[0..] == t;
    assert t[|s|] == '\n' && t[|s| - 1] == s[|s| - 1];
    assert TrimSpaces(t, |t|) == |s|;
    assert t[..|s|] == s;
  }

  /**
   * How any two lines that need no stripping are judged: on the first
   * line's `YES` and on the second line's `t=` field.
   */
  lemma CheckTwoLines(l1: string, p: string, q: string)
    requires '=' !in p && '=' !in q
    ensures CheckLines([l1, p + "t=" + q]) ==
      if EndsWith(Strip(l1), "YES") && IsDigits(LStripChar(Strip(q), '-')) then PyInt(q) else None
  {
    SplitTemp(p, q);
  }

  /** The file text the driver writes for a good conversion, trailing newline included. */
  function W1Slave(crcLine: string, rawBytes: string, milli: int): string {
    crcLine + "\n" + rawBytes + "t=" + IntToText(milli) + "\n"
  }

  /** Whatever the raw bytes say, a payload with the `YES` verdict is read back as the millidegrees written. */
  lemma W1SlaveRoundTrip(crcLine: string, rawBytes: string, milli: int)
    requires |crcLine| > 0 && NoLineBreak(crcLine) && !IsSpace(crcLine[0]) && EndsWith(crcLine, "YES")
    requires NoLineBreak(rawBytes) && '=' !in rawBytes
    ensures ParsePayload(W1Slave(crcLine, rawBytes, milli)) == Some(milli)
  {
    IntTextShape(milli);
    W1SlaveLines(crcLine, rawBytes, milli);
    StripNoop(crcLine);
    CheckTwoLines(crcLine, rawBytes, IntToText(milli));
  }

  /** The stripped payload splits into the CRC line and the temperature line. */
  lemma W1SlaveLines(crcLine: string, rawBytes: string, milli: int)
    requires |crcLine| > 0 && NoLineBreak(crcLine) && !IsSpace(crcLine[0])
    requires NoLineBreak(rawBytes)
    ensures SplitLines(Strip(W1Slave(crcLine, rawBytes, milli))) == [crcLine, rawBytes + "t=" + IntToText(milli)]
  {
    W1SlaveStrip(crcLine, rawBytes, milli);
    SecondLine(rawBytes, milli);
    TwoLines(crcLine, rawBytes + "t=" + IntToText(milli));
  }

  /** The second line the driver writes holds no line break. */
  lemma SecondLine(rawBytes: string, milli: int)
    requires NoLineBreak(rawBytes)
    ensures NoLineBreak(rawBytes + "t=" + IntToText(milli))
  {
    var q := IntToText(milli);
    IntTextChars(milli);
    NoLineBreakConcat(rawBytes, "t=" + q);
    assert rawBytes + ("t=" + q) == rawBytes + "t=" + q;
  }

  /** Stripping the file text removes exactly its final newline. */
  lemma W1SlaveStrip(crcLine: string, rawBytes: string, milli: int)
    requires |crcLine| > 0 && !IsSpace(crcLine[0])
    ensures Strip(W1Slave(crcLine, rawBytes, milli)) == crcLine + "\n" + (rawBytes + "t=" + IntToText(milli))
  {
    var q := IntToText(milli);
    assert |q| > 0 && !IsSpace(q[|q| - 1]) by {
      IntTextShape(milli);
    }
    var body := crcLine + "\n" + (rawBytes + "t=" + q);
    assert W1Slave(crcLine, rawBytes, milli) == body + "\n";
    assert body[0] == crcLine[0] && body[|body| - 1] == q[|q| - 1];
    StripTrailingNewline(body);
  }

  lemma NoLineBreakConcat(a: string, b: string)
    requires NoLineBreak(a) && NoLineBreak(b)
    ensures NoLineBreak(a + b)
  {
    forall j | 0 <= j < |a + b| ensures !IsLineBreak((a + b)[j]) {
      if j >= |a| {
        assert (a + b)[j] == b[j - |a|];
      }
    }
  }

  /** `str(milli)` is a sign and digits, which the `t=` checks accept and `int()` reads back. */
  lemma IntTextShape(milli: int)
    ensures var q := IntToText(milli);
      && |q| > 0 && '=' !in q && NoLineBreak(q) && !IsSpace(q[|q| - 1])
      && IsDigits(LStripChar(Strip(q), '-')) && PyInt(q) == Some(milli)
  {
    IntTextChars(milli);
    IntTextDigits(milli);
    PyIntRoundTrip(milli);
  }

  /** `str(milli)` is made of a minus sign and digits only. */
  lemma IntTextChars(milli: int)
    ensures var q := IntToText(milli);
      |q| > 0 && forall j :: 0 <= j < |q| ==> q[j] == '-' || IsDigit(q[j])
  {
    var digits := NatToDigits(if milli < 0 then -milli else milli);
    if milli < 0 {
      assert forall j :: 1 <= j < |digits| + 1 ==> ("-" + digits)[j] == digits[j - 1];
    }
  }

  /** Stripping `str(milli)` and its leading minus leaves the digits of its magnitude. */
  lemma IntTextDigits(milli: int)
    ensures IsDigits(LStripChar(Strip(IntToText(milli)), '-'))
  {
    var q := IntToText(milli);
    var digits := NatToDigits(if milli < 0 then -milli else milli);
    IntTextChars(milli);
    StripNoop(q);
    if milli < 0 {
      assert q[1..] == digits;
      assert SkipChar(q, '-', 1) == 1;
    } else {
      assert SkipChar(q, '-', 0) == 0;
      assert q[0..] == q;
    }
    assert LStripChar(q, '-') == digits;
  }

  /**
   * `t=--5` passes the digit check (`lstrip("-")` removes every leading
   * minus) but `int()` rejects it: the attempt fails instead of giving -5 or 5.
   */
  lemma DoubleMinusCostsAnAttempt(crcLine: string, rawBytes: string)
    requires EndsWith(Strip(crcLine), "YES") && '=' !in rawBytes
    ensures IsDigits(LStripChar(Strip("--5"), '-'))
    ensures CheckLines([crcLine, rawBytes + "t=--5"]) == None
  {
    DoubleMinusShape();
    CheckTwoLines(crcLine, rawBytes, "--5");
    assert rawBytes + "t=" + "--5" == rawBytes + "t=--5";
  }

  lemma DoubleMinusShape()
    ensures IsDigits(LStripChar(Strip("--5"), '-'))
    ensures PyInt("--5") == None
  {
    var t := "--5";
    StripNoop(t);
    assert SkipChar(t, '-', 2) == 2;
    assert SkipChar(t, '-', 0) == 2;
    assert t[2..] == "5";
    assert t[1..] == "-5";
    assert !IsDigits(t[1..]) by { assert !IsDigit(t[1..][0]); }
    assert !IsDigits(t) by { assert !IsDigit(t[0]); }
  }
}
