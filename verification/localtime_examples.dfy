/** Concrete inputs for the timestamp codec: a wire example, a zone suffix,
    missing quotes, a letter in a field, out-of-range calendar fields, leap
    days, and a year too wide for the layout. */
module LocalTimeExamples {
  import opened Wrappers
  import opened Decimal
  import opened LocalTime

  function TwoDigitText(n: nat): string
    requires n < 100
  {
    [DigitChar(n / 10), DigitChar(n % 10)]
  }

  function FourDigitText(n: nat): string
    requires n < 10000
  {
    [DigitChar(n / 1000), DigitChar(n / 100 % 10), DigitChar(n / 10 % 10), DigitChar(n % 10)]
  }

  /** The two-digit field `n` is spelled by its two decimal digits. */
  lemma TwoDigits(n: nat)
    requires n < 100
    ensures Pad(n, 2) == TwoDigitText(n)
  {
    assert Pow10(2) == 100;
  }

  /** A year below 10000 is spelled by its four decimal digits. */
  lemma FourDigits(n: nat)
    requires n < 10000
    ensures YearText(n) == FourDigitText(n)
  {
    assert Pow10(4) == 10000;
    var a, b, c := n / 10, n / 100, n / 1000;
    assert a / 10 == b && b / 10 == c && c / 10 == 0;
    assert FixedDigits(c, 1) == FixedDigits(c / 10, 0) + [DigitChar(c % 10)];
    assert FixedDigits(b, 2) == FixedDigits(c, 1) + [DigitChar(b % 10)];
    assert FixedDigits(a, 3) == FixedDigits(b, 2) + [DigitChar(a % 10)];
    assert FixedDigits(n, 4) == FixedDigits(a, 3) + [DigitChar(n % 10)];
  }

  /** The timestamp text of a record, digit by digit. */
  function SpelledText(t: DateTime): string
    requires Renderable(t) && FourDigitYear(t)
  {
    (FourDigitText(t.year) + "-" + TwoDigitText(t.month) + "-" + TwoDigitText(t.day))
    + ("T" + (TwoDigitText(t.hour) + ":" + TwoDigitText(t.minute) + ":" + TwoDigitText(t.second)))
  }

  lemma Spelled(t: DateTime)
    requires Renderable(t) && FourDigitYear(t)
    ensures Format(TimestampLayout, t) == SpelledText(t)
  {
    TimestampSpelledOut(t);
    FourDigits(t.year);
    TwoDigits(t.month);
    TwoDigits(t.day);
    TwoDigits(t.hour);
    TwoDigits(t.minute);
    TwoDigits(t.second);
  }

  /** The parser's verdict on `s`, the digit-by-digit text of `t`. */
  lemma Verdict(t: DateTime, s: string, verdict: Result<DateTime, ParseError>)
    requires Renderable(t) && FourDigitYear(t) && s == SpelledText(t)
    requires TimestampVerdict(t) == verdict
    ensures ParseTimestamp(s) == verdict
  {
    Spelled(t);
    ParseTimestampVerdict(t);
  }

  /** The JSON decoder's verdict on `data`, the quoted digit-by-digit text of `t`. */
  lemma QuotedVerdict(t: DateTime, s: string, data: string, verdict: Result<DateTime, ParseError>)
    requires Renderable(t) && FourDigitYear(t) && s == SpelledText(t) && data == "\"" + s + "\""
    requires TimestampVerdict(t) == verdict
    ensures UnmarshalJSON(data) == verdict
  {
    Spelled(t);
    QuotedFormat(t);
    UnmarshalJSONVerdict(t);
  }

  /** The formatter's text of `t` is `s`, its digit-by-digit text. */
  lemma Formatted(t: Time, s: string)
    requires FourDigitYear(t) && s == SpelledText(t)
    ensures FormatTimestamp(t) == s
  {
    Spelled(t);
  }

  lemma WireExampleTimestamp(t: Time)
    requires t == DateTime(2023, 1, 15, 10, 30, 0)
    ensures FormatTimestamp(t) == "2023-01-15T10:30:00"
  {
    Formatted(t, "2023-01-15T10:30:00");
  }

  /** `q`, the quoted text `text` of `t`, decodes to `t`. */
  lemma DecodesQuoted(t: Time, text: string, q: string)
    requires FourDigitYear(t) && text == SpelledText(t) && q == "\"" + text + "\""
    ensures UnmarshalJSON(q) == Success(t)
  {
    Formatted(t, text);
    UnmarshalMarshal(t);
  }

  /** The wire example decodes to its wall clock. */
  lemma DecodesWireExample(data: string)
    requires data == "\"2023-01-15T10:30:00\""
    ensures UnmarshalJSON(data) == Success(DateTime(2023, 1, 15, 10, 30, 0))
  {
    var t: Time := DateTime(2023, 1, 15, 10, 30, 0);
    var text := data[1..20];
    WireTextSpelled(text, t);
    assert data == "\"" + text + "\"";
    DecodesQuoted(t, text, data);
  }

  lemma WireTextSpelled(text: string, t: Time)
    requires text == "2023-01-15T10:30:00" && t == DateTime(2023, 1, 15, 10, 30, 0)
    ensures text == SpelledText(t)
  {
  }

  /** The zoned variant of the same instant is refused. */
  lemma RejectsZoneSuffix()
    ensures UnmarshalJSON("\"2023-01-15T10:30:00Z\"").Failure?
    ensures ParseTimestamp("2023-01-15T10:30:00Z").Failure?
  {
    var t: Time := DateTime(2023, 1, 15, 10, 30, 0);
    WireExampleTimestamp(t);
    ParseFormatTimestamp(t);
    TrailingTextRejected("2023-01-15T10:30:00", "Z");
  }

  /** The JSON form must be quoted. */
  lemma RejectsMissingQuotes()
    ensures UnmarshalJSON("2023-01-15T10:30:00") == Failure(Mismatch)
  {
  }

  /** A letter where a digit of the month belongs. */
  lemma RejectsNonDigitField()
    ensures ParseTimestamp("2023-0a-15T10:30:00").Failure?
    ensures UnmarshalJSON("\"2023-0a-15T10:30:00\"").Failure?
  {
    var s := "2023-0a-15T10:30:00";
    assert s[5..7][1] == 'a';
    var data := "\"2023-0a-15T10:30:00\"";
    assert data[1..20] == s;
  }

  // The calendar examples below name their bare text `s` and its quoted
  // form `data` as parameters pinned by `requires`, rather than writing the
  // literals into the `ensures`: a literal argument makes the verifier
  // unfold the parser on it character by character, which is far more
  // costly than the general verdict lemmas these examples go through.

  lemma RejectsMonth13(s: string, data: string)
    requires s == "2023-13-01T00:00:00" && data == "\"" + s + "\""
    ensures ParseTimestamp(s) == Failure(OutOfRange("month"))
    ensures UnmarshalJSON(data) == Failure(OutOfRange("month"))
  {
    Verdict(DateTime(2023, 13, 1, 0, 0, 0), s, Failure(OutOfRange("month")));
    QuotedVerdict(DateTime(2023, 13, 1, 0, 0, 0), s, data, Failure(OutOfRange("month")));
  }

  /** The month is reported before an impossible hour read after it. */
  lemma ReportsMonthBeforeHour(s: string, data: string)
    requires s == "2023-00-01T25:00:00" && data == "\"" + s + "\""
    ensures ParseTimestamp(s) == Failure(OutOfRange("month"))
    ensures UnmarshalJSON(data) == Failure(OutOfRange("month"))
  {
    Verdict(DateTime(2023, 0, 1, 25, 0, 0), s, Failure(OutOfRange("month")));
    QuotedVerdict(DateTime(2023, 0, 1, 25, 0, 0), s, data, Failure(OutOfRange("month")));
  }

  /** An impossible hour is reported before an impossible day. */
  lemma ReportsHourBeforeDay(s: string, data: string)
    requires s == "2023-04-31T24:00:00" && data == "\"" + s + "\""
    ensures ParseTimestamp(s) == Failure(OutOfRange("hour"))
    ensures UnmarshalJSON(data) == Failure(OutOfRange("hour"))
  {
    Verdict(DateTime(2023, 4, 31, 24, 0, 0), s, Failure(OutOfRange("hour")));
    QuotedVerdict(DateTime(2023, 4, 31, 24, 0, 0), s, data, Failure(OutOfRange("hour")));
  }

  lemma RejectsFebruary30(s: string, data: string)
    requires s == "2023-02-30T10:00:00" && data == "\"" + s + "\""
    ensures ParseTimestamp(s) == Failure(OutOfRange("day"))
    ensures UnmarshalJSON(data) == Failure(OutOfRange("day"))
  {
    Verdict(DateTime(2023, 2, 30, 10, 0, 0), s, Failure(OutOfRange("day")));
    QuotedVerdict(DateTime(2023, 2, 30, 10, 0, 0), s, data, Failure(OutOfRange("day")));
  }

  /** Leap days: 2024 and 2000 have one, 2023 and 2100 do not. */
  lemma LeapDay2024(s: string, data: string)
    requires s == "2024-02-29T00:00:00" && data == "\"" + s + "\""
    ensures ParseTimestamp(s) == Success(DateTime(2024, 2, 29, 0, 0, 0))
    ensures UnmarshalJSON(data) == Success(DateTime(2024, 2, 29, 0, 0, 0))
  {
    Verdict(DateTime(2024, 2, 29, 0, 0, 0), s, Success(DateTime(2024, 2, 29, 0, 0, 0)));
    QuotedVerdict(DateTime(2024, 2, 29, 0, 0, 0), s, data, Success(DateTime(2024, 2, 29, 0, 0, 0)));
  }

  lemma LeapDay2000(s: string, data: string)
    requires s == "2000-02-29T00:00:00" && data == "\"" + s + "\""
    ensures ParseTimestamp(s) == Success(DateTime(2000, 2, 29, 0, 0, 0))
    ensures UnmarshalJSON(data) == Success(DateTime(2000, 2, 29, 0, 0, 0))
  {
    Verdict(DateTime(2000, 2, 29, 0, 0, 0), s, Success(DateTime(2000, 2, 29, 0, 0, 0)));
    QuotedVerdict(DateTime(2000, 2, 29, 0, 0, 0), s, data, Success(DateTime(2000, 2, 29, 0, 0, 0)));
  }

  lemma NoLeapDay2023(s: string, data: string)
    requires s == "2023-02-29T00:00:00" && data == "\"" + s + "\""
    ensures ParseTimestamp(s) == Failure(OutOfRange("day"))
    ensures UnmarshalJSON(data) == Failure(OutOfRange("day"))
  {
    Verdict(DateTime(2023, 2, 29, 0, 0, 0), s, Failure(OutOfRange("day")));
    QuotedVerdict(DateTime(2023, 2, 29, 0, 0, 0), s, data, Failure(OutOfRange("day")));
  }

  lemma NoLeapDay2100(s: string, data: string)
    requires s == "2100-02-29T00:00:00" && data == "\"" + s + "\""
    ensures ParseTimestamp(s) == Failure(OutOfRange("day"))
    ensures UnmarshalJSON(data) == Failure(OutOfRange("day"))
  {
    Verdict(DateTime(2100, 2, 29, 0, 0, 0), s, Failure(OutOfRange("day")));
    QuotedVerdict(DateTime(2100, 2, 29, 0, 0, 0), s, data, Failure(OutOfRange("day")));
  }

  /** A five-digit year is written, but the text cannot be read back. */
  lemma FiveDigitYearIsLost()
    ensures ParseTimestamp(FormatTimestamp(DateTime(10000, 1, 1, 0, 0, 0))).Failure?
  {
    ParseFormatTimestamp(DateTime(10000, 1, 1, 0, 0, 0));
  }
}
