/**
 * The CSV log of the sampling loop: the 7-column header, the row written on
 * every tick, and the three-decimal rendering (`:.3f`) of millidegree values.
 */
module CsvLog {
  import opened Optional
  import opened PyText
  import opened Aggregate

  /** `SENSOR_ALIASES`. */
  const SensorAliases: seq<string> := ["sensor_1", "sensor_2", "sensor_3"]

  /** The three fraction digits of `r` millidegrees, zero-padded. */
  function Frac3(r: nat): (s: string)
    requires r < 1000
    ensures |s| == 3 && IsDigits(s) && DigitsValue(s) == r
  {
    var s := [Digit(r / 100), Digit(r / 10 % 10), Digit(r % 10)];
    var ab := [Digit(r / 100), Digit(r / 10 % 10)];
    assert s[..2] == ab && ab[..1] == [Digit(r / 100)];
    assert [Digit(r / 100)][..0] == [];
    assert DigitsValue([Digit(r / 100)]) == r / 100;
    assert DigitsValue(ab) == r / 100 * 10 + r / 10 % 10;
    assert DigitsValue(s) == (r / 100 * 10 + r / 10 % 10) * 10 + r % 10;
    DecimalDigits3(r);
    s
  }

  lemma DecimalDigits3(r: nat)
    requires r < 1000
    ensures (r / 100 * 10 + r / 10 % 10) * 10 + r % 10 == r
  {
    var q := r / 10;
    assert r == q * 10 + r % 10;
    assert q / 10 == r / 100;
    assert q == q / 10 * 10 + q % 10;
  }

  /** The magnitude of `sum / count` rounded to the nearest millidegree. */
  function Magnitude(sum: int, count: nat): (mag: nat)
    requires count > 0
    ensures RoundMean(Mean(sum, count)) == if sum < 0 then -(mag as int) else mag
  {
    if sum < 0 then RoundDiv(-sum, count) else RoundDiv(sum, count)
  }

  /** `digits.ddd` for a non-negative number of millidegrees. */
  function Unsigned3(mag: nat): (u: string)
    ensures |u| >= 5 && IsDigit(u[0])
  {
    var w := NatToDigits(mag / 1000);
    var u := w + "." + Frac3(mag % 1000);
    assert u[0] == w[0];
    u
  }

  /**
   * `f"{x:.3f}"` for the value `sum / count` millidegrees: the magnitude
   * rounded to the nearest millidegree, and a `-` whenever the exact value
   * is negative (so a small negative mean prints as `-0.000`).
   */
  function FormatMilli(sum: int, count: nat): (s: string)
    requires count > 0
  {
    (if sum < 0 then "-" else "") + Unsigned3(Magnitude(sum, count))
  }

  /** Reads back `digits.ddd`, optionally preceded by `-`, as millidegrees. */
  function ParseFixed3(s: string): Option<int> {
    if |s| > 0 && s[0] == '-' then
      match ParseUnsigned3(s[1..])
      case Some(v) => Some(-v)
      case None => None
    else ParseUnsigned3(s)
  }

  function ParseUnsigned3(t: string): Option<int> {
    if |t| >= 5 && t[|t| - 4] == '.' && IsDigits(t[..|t| - 4]) && IsDigits(t[|t| - 3..]) then
      Some(DigitsValue(t[..|t| - 4]) * 1000 + DigitsValue(t[|t| - 3..]))
    else None
  }

  lemma UnsignedRoundTrip(mag: nat)
    ensures ParseUnsigned3(Unsigned3(mag)) == Some(mag)
  {
    var w := NatToDigits(mag / 1000);
    var f := Frac3(mag % 1000);
    var t := w + "." + f;
    assert t == Unsigned3(mag);
    assert t[..|t| - 4] == w;
    assert t[|t| - 3..] == f;
  }

  /** The rendered text reads back as the mean rounded to the nearest millidegree. */
  lemma FormatMilliRoundTrip(sum: int, count: nat)
    requires count > 0
    ensures ParseFixed3(FormatMilli(sum, count)) == Some(RoundMean(Mean(sum, count)))
  {
    var mag := Magnitude(sum, count);
    UnsignedRoundTrip(mag);
    SignedRoundTrip(sum < 0, Unsigned3(mag), mag);
  }

  /** A leading minus negates what the unsigned part reads as. */
  lemma SignedRoundTrip(negative: bool, u: string, mag: nat)
    requires ParseUnsigned3(u) == Some(mag) && |u| > 0 && IsDigit(u[0])
    ensures ParseFixed3((if negative then "-" else "") + u) == Some(if negative then -(mag as int) else mag)
  {
    if negative {
      assert ("-" + u)[1..] == u;
    } else {
      assert "" + u == u;
    }
  }

  /** A single reading prints exactly: `:.3f` of `milic / 1000` reads back as `milic`. */
  lemma FormatReadingExact(milli: int)
    ensures ParseFixed3(FormatMilli(milli, 1)) == Some(milli)
  {
    FormatMilliRoundTrip(milli, 1);
  }

  /** The rendering uses only `-`, digits and `.`, so never the CSV separator. */
  lemma FormatMilliCommaFree(sum: int, count: nat)
    requires count > 0
    ensures ',' !in FormatMilli(sum, count)
  {
    var mag := Magnitude(sum, count);
    var w := NatToDigits(mag / 1000);
    var f := Frac3(mag % 1000);
    var sign := if sum < 0 then "-" else "";
    var s := FormatMilli(sum, count);
    assert s == sign + w + "." + f;
    forall k | 0 <= k < |s| ensures s[k] != ',' {
      if k < |sign| {
      } else if k < |sign| + |w| {
        assert s[k] == w[k - |sign|];
      } else if k == |sign| + |w| {
      } else {
        assert s[k] == f[k - |sign| - |w| - 1];
      }
    }
  }

  /** `inicializar_log`'s header: the timestamp, one column per alias, then the three summary columns. */
  function Header(aliases: seq<string>): (h: seq<string>)
    ensures |h| == |aliases| + 4
  {
    ["timestamp_local"] + aliases + ["avg_c", "bomba_state", "consecutivo"]
  }

  /** A reading's column: empty when absent, `:.3f` otherwise. */
  function ReadingField(t: Option<int>): string {
    match t
    case None => ""
    case Some(milli) => FormatMilli(milli, 1)
  }

  /** `avg_c`: empty when there is no mean, `:.3f` of the exact mean otherwise. */
  function AvgField(avg: Option<Mean>): string {
    match avg
    case None => ""
    case Some(m) => if m.count > 0 then FormatMilli(m.sum, m.count) else ""
  }

  function PumpField(on: bool): string {
    if on then "ON" else "OFF"
  }

  /** `fila`: timestamp, one column per reading, mean, pump state and row number. */
  function Row(ts: string, lecturas: seq<Option<int>>, avg: Option<Mean>, pumpOn: bool, consecutivo: nat): (row: seq<string>)
    ensures |row| == |lecturas| + 4
  {
    [ts] + seq(|lecturas|, i requires 0 <= i < |lecturas| => ReadingField(lecturas[i]))
      + [AvgField(avg), PumpField(pumpOn), NatToDigits(consecutivo)]
  }

  /** `",".join(fila) + "\n"`. */
  function CsvLine(fields: seq<string>): string {
    Join(fields, ',') + "\n"
  }

  /** A row of three readings lines up with the header over `SENSOR_ALIASES`: 7 columns, the last the row number. */
  lemma RowMatchesHeader(ts: string, lecturas: seq<Option<int>>, avg: Option<Mean>, pumpOn: bool, consecutivo: nat)
    requires |lecturas| == |SensorAliases|
    ensures |Row(ts, lecturas, avg, pumpOn, consecutivo)| == |Header(SensorAliases)| == 7
    ensures Row(ts, lecturas, avg, pumpOn, consecutivo)[6] == NatToDigits(consecutivo)
  {
  }

  /**
   * What each column of a row says: an empty reading column exactly for an
   * absent reading, and otherwise the reading itself; an empty `avg_c`
   * exactly for an absent mean, and otherwise the mean to the nearest
   * millidegree; `ON` exactly when the pump is on; and the row number.
   */
  lemma RowFields(ts: string, lecturas: seq<Option<int>>, avg: Option<Mean>, pumpOn: bool, consecutivo: nat)
    requires avg.Some? ==> avg.value.count > 0
    ensures var row := Row(ts, lecturas, avg, pumpOn, consecutivo);
      && row[0] == ts
      && (forall i :: 0 <= i < |lecturas| ==>
            && (row[1 + i] == "" <==> lecturas[i].None?)
            && (lecturas[i].Some? ==> ParseFixed3(row[1 + i]) == lecturas[i]))
      && (row[|lecturas| + 1] == "" <==> avg.None?)
      && (avg.Some? ==> ParseFixed3(row[|lecturas| + 1]) == Some(RoundMean(avg.value)))
      && (row[|lecturas| + 2] == "ON" <==> pumpOn)
      && PyInt(row[|lecturas| + 3]) == Some(consecutivo as int)
  {
    var row := Row(ts, lecturas, avg, pumpOn, consecutivo);
    forall i | 0 <= i < |lecturas|
      ensures (row[1 + i] == "" <==> lecturas[i].None?)
      ensures lecturas[i].Some? ==> ParseFixed3(row[1 + i]) == lecturas[i]
    {
      assert row[1 + i] == ReadingField(lecturas[i]);
      if lecturas[i].Some? {
        FormatReadingExact(lecturas[i].value);
      }
    }
    if avg.Some? {
      FormatMilliRoundTrip(avg.value.sum, avg.value.count);
    }
    PyIntRoundTrip(consecutivo);
  }

  /** No column of a row contains a comma when the timestamp does not. */
  lemma RowCommaFree(ts: string, lecturas: seq<Option<int>>, avg: Option<Mean>, pumpOn: bool, consecutivo: nat)
    requires ',' !in ts
    ensures var row := Row(ts, lecturas, avg, pumpOn, consecutivo);
      forall k :: 0 <= k < |row| ==> ',' !in row[k]
  {
    var row := Row(ts, lecturas, avg, pumpOn, consecutivo);
    forall k | 0 <= k < |row| ensures ',' !in row[k] {
      if 1 <= k <= |lecturas| {
        if lecturas[k - 1].Some? {
          FormatMilliCommaFree(lecturas[k - 1].value, 1);
        }
      } else if k == |lecturas| + 1 {
        if avg.Some? && avg.value.count > 0 {
          FormatMilliCommaFree(avg.value.sum, avg.value.count);
        }
      } else if k == |lecturas| + 3 {
        assert IsDigits(row[k]);
        assert forall c :: c in row[k] ==> IsDigit(c);
      }
    }
  }

  /** A written line ends in its newline, and splitting the rest on commas gives back the row's columns. */
  lemma RowLineRoundTrip(ts: string, lecturas: seq<Option<int>>, avg: Option<Mean>, pumpOn: bool, consecutivo: nat)
    requires ',' !in ts
    ensures var line := CsvLine(Row(ts, lecturas, avg, pumpOn, consecutivo));
      && line[|line| - 1] == '\n'
      && SplitChar(line[..|line| - 1], ',') == Row(ts, lecturas, avg, pumpOn, consecutivo)
  {
    var row := Row(ts, lecturas, avg, pumpOn, consecutivo);
    RowCommaFree(ts, lecturas, avg, pumpOn, consecutivo);
    SplitJoin(row, ',');
    assert CsvLine(row)[..|CsvLine(row)| - 1] == Join(row, ',');
  }

  /** The header line over `SENSOR_ALIASES` splits back into its 7 column names. */
  lemma HeaderLineRoundTrip()
    ensures var line := CsvLine(Header(SensorAliases));
      && line[|line| - 1] == '\n'
      && SplitChar(line[..|line| - 1], ',') == Header(SensorAliases)
  {
    var h := Header(SensorAliases);
    assert h == ["timestamp_local", "sensor_1", "sensor_2", "sensor_3", "avg_c", "bomba_state", "consecutivo"];
    SplitJoin(h, ',');
    assert CsvLine(h)[..|CsvLine(h)| - 1] == Join(h, ',');
  }
}
