/** The "local time without zone" timestamp of the firefly API
    (`LocalTimeWithoutZone`): the wall clock of a Go `time.Time`, written
    with the Go layout `2006-01-02T15:04:05`, that is section 5.6 of
    RFC 3339 `full-date "T" partial-time` without `time-secfrac` and
    without `time-offset`. In JSON the text is wrapped in double quotes.

    A Go layout is a sequence of chunks: literal characters and the
    standard fields `2006` (year), `01` (month), `02` (day), `15` (hour),
    `04` (minute) and `05` (second). Formatting and parsing below walk the
    chunk sequence the way the time package's `Format` and `Parse` walk the
    layout string. */
module LocalTime {
  import opened Wrappers
  import opened Decimal

  /** The wall-clock fields of a `time.Time`; the zone, the instant it
      denotes and the sub-second part are not modelled. */
  datatype DateTime = DateTime(year: int, month: int, day: int, hour: int, minute: int, second: int)

  /** Gregorian leap years, as the time package's `isLeap` decides them. */
  predicate IsLeapYear(year: int) {
    year % 4 == 0 && (year % 100 != 0 || year % 400 == 0)
  }

  /** Number of days in `month` of `year` (the time package's `daysIn`). */
  function DaysIn(month: int, year: int): (n: int)
    requires 1 <= month <= 12
    ensures 28 <= n <= 31
    ensures n == 29 <==> month == 2 && IsLeapYear(year)
    ensures n == 28 <==> month == 2 && !IsLeapYear(year)
    ensures n == 30 <==> month in {4, 6, 9, 11}
  {
    if month == 2 then (if IsLeapYear(year) then 29 else 28)
    else if month in {4, 6, 9, 11} then 30
    else 31
  }

  /** What every Go `time.Time` satisfies: a real calendar day and a time
      of day without leap second. The year is unrestricted. */
  predicate Valid(t: DateTime) {
    && 1 <= t.month <= 12
    && 1 <= t.day <= DaysIn(t.month, t.year)
    && 0 <= t.hour < 24
    && 0 <= t.minute < 60
    && 0 <= t.second < 60
  }

  /** A `time.Time`, reduced to its wall clock. */
  type Time = t: DateTime | Valid(t) witness DateTime(1970, 1, 1, 0, 0, 0)

  /** The years the four-digit field `2006` can write and read back. */
  predicate FourDigitYear(t: DateTime) {
    0 <= t.year <= 9999
  }

  /** Records whose non-year fields fit the two-digit layout fields; the
      formatter is defined on these, which include every `Time`. */
  predicate Renderable(t: DateTime) {
    && 0 <= t.month < 100
    && 0 <= t.day < 100
    && 0 <= t.hour < 100
    && 0 <= t.minute < 100
    && 0 <= t.second < 100
  }

  /** One element of a Go layout. */
  datatype Chunk =
    | Literal(ch: char)
    | LongYear    // "2006"
    | ZeroMonth   // "01"
    | ZeroDay     // "02"
    | Hour        // "15"
    | ZeroMinute  // "04"
    | ZeroSecond  // "05"

  /** "2006-01-02": the RFC 3339 `full-date`. */
  const DateLayout: seq<Chunk> := [LongYear, Literal('-'), ZeroMonth, Literal('-'), ZeroDay]

  /** "15:04:05": the RFC 3339 `partial-time` without fraction. */
  const ClockLayout: seq<Chunk> := [Hour, Literal(':'), ZeroMinute, Literal(':'), ZeroSecond]

  /** `localTimeWithoutZoneFormat`, "2006-01-02T15:04:05". */
  const TimestampLayout: seq<Chunk> := DateLayout + [Literal('T')] + ClockLayout

  /** The layout the JSON decoder parses with: the same pattern between
      double quotes. */
  const QuotedLayout: seq<Chunk> := [Literal('"')] + TimestampLayout + [Literal('"')]

  /** Number of characters a field chunk reads. */
  function Width(c: Chunk): nat {
    match c
    case Literal(_) => 1
    case LongYear => 4
    case _ => 2
  }

  /** The field of `t` a chunk writes; zero for literals. */
  function FieldOf(t: DateTime, c: Chunk): int {
    match c
    case Literal(_) => 0
    case LongYear => t.year
    case ZeroMonth => t.month
    case ZeroDay => t.day
    case Hour => t.hour
    case ZeroMinute => t.minute
    case ZeroSecond => t.second
  }

  /** `t` with the field of chunk `c` replaced by `v`. */
  function With(t: DateTime, c: Chunk, v: int): DateTime {
    match c
    case Literal(_) => t
    case LongYear => t.(year := v)
    case ZeroMonth => t.(month := v)
    case ZeroDay => t.(day := v)
    case Hour => t.(hour := v)
    case ZeroMinute => t.(minute := v)
    case ZeroSecond => t.(second := v)
  }

  /** The name the time package puts in its "... out of range" errors. */
  function FieldName(c: Chunk): string {
    match c
    case Literal(_) => ""
    case LongYear => "year"
    case ZeroMonth => "month"
    case ZeroDay => "day"
    case Hour => "hour"
    case ZeroMinute => "minute"
    case ZeroSecond => "second"
  }

  /** The range check the time package makes as soon as it has read a
      field. The day is accepted here and validated against the month
      once the whole input is read. */
  predicate InFieldRange(c: Chunk, v: int) {
    match c
    case ZeroMonth => 1 <= v <= 12
    case Hour => 0 <= v < 24
    case ZeroMinute => 0 <= v < 60
    case ZeroSecond => 0 <= v < 60
    case _ => true
  }

  // ---------------------------------------------------------------------
  // Formatting

  /** The time package's `appendInt(b, year, 4)`: a `-` for negative
      years, then at least four digits. */
  function YearText(year: int): (s: string)
    ensures 0 <= year <= 9999 ==> |s| == 4 && AllDigits(s) && DigitsValue(s) == year
    ensures year < 0 ==> 5 <= |s| && s[0] == '-'
    ensures year < 0 ==> AllDigits(s[1..]) && DigitsValue(s[1..]) == -year && (5 < |s| ==> s[1] != '0')
    ensures 9999 < year ==> 5 <= |s| && AllDigits(s) && DigitsValue(s) == year && s[0] != '0'
  {
    if year < 0 then "-" + Pad(-year, 4) else Pad(year, 4)
  }

  function FormatChunk(c: Chunk, t: DateTime): string
    requires Renderable(t)
  {
    match c
    case Literal(ch) => [ch]
    case LongYear => YearText(t.year)
    case _ => Pad(FieldOf(t, c), 2)
  }

  /** `Time.Format(layout)`. */
  function Format(layout: seq<Chunk>, t: DateTime): string
    requires Renderable(t)
  {
    if layout == [] then [] else FormatChunk(layout[0], t) + Format(layout[1..], t)
  }

  lemma {:induction false} FormatAppend(a: seq<Chunk>, b: seq<Chunk>, t: DateTime)
    requires Renderable(t)
    ensures Format(a + b, t) == Format(a, t) + Format(b, t)
  {
    if a == [] {
      assert a + b == b;
    } else {
      assert (a + b)[0] == a[0];
      assert (a + b)[1..] == a[1..] + b;
      FormatAppend(a[1..], b, t);
    }
  }

  /** The shape of a formatted timestamp, character by character:
      `YYYY-MM-DDTHH:MM:SS` with digits everywhere but the separators. */
  predicate IsTimestampText(s: string) {
    && |s| == 19
    && s[4] == '-' && s[7] == '-' && s[10] == 'T' && s[13] == ':' && s[16] == ':'
    && AllDigits(s[0..4]) && AllDigits(s[5..7]) && AllDigits(s[8..10])
    && AllDigits(s[11..13]) && AllDigits(s[14..16]) && AllDigits(s[17..19])
  }

  /** `t.Format(localTimeWithoutZoneFormat)`: never fails; for four-digit
      years it is exactly 19 characters of the fixed shape, with each field
      readable back at its fixed position. */
  function FormatTimestamp(t: Time): (s: string)
    ensures FourDigitYear(t) ==> IsTimestampText(s)
    ensures FourDigitYear(t) ==>
      && DigitsValue(s[0..4]) == t.year && DigitsValue(s[5..7]) == t.month
      && DigitsValue(s[8..10]) == t.day && DigitsValue(s[11..13]) == t.hour
      && DigitsValue(s[14..16]) == t.minute && DigitsValue(s[17..19]) == t.second
    ensures t.year < 0 ==> 1 <= |s| && s[0] == '-'
    ensures 9999 < t.year ==> !IsTimestampText(s)
  {
    TimestampShape(t);
    Format(TimestampLayout, t)
  }

  lemma TimestampShape(t: Time)
    ensures var s := Format(TimestampLayout, t);
      && (FourDigitYear(t) ==> IsTimestampText(s))
      && (FourDigitYear(t) ==>
        && DigitsValue(s[0..4]) == t.year && DigitsValue(s[5..7]) == t.month
        && DigitsValue(s[8..10]) == t.day && DigitsValue(s[11..13]) == t.hour
        && DigitsValue(s[14..16]) == t.minute && DigitsValue(s[17..19]) == t.second)
      && (t.year < 0 ==> 1 <= |s| && s[0] == '-')
      && (9999 < t.year ==> !IsTimestampText(s))
  {
    var s := Format(TimestampLayout, t);
    TimestampSpelledOut(t);
    var y, mo, d := YearText(t.year), Pad(t.month, 2), Pad(t.day, 2);
    var h, mi, se := Pad(t.hour, 2), Pad(t.minute, 2), Pad(t.second, 2);
    assert s == (y + "-" + mo + "-" + d) + ("T" + (h + ":" + mi + ":" + se));
    if FourDigitYear(t) {
      FieldPositions(y, mo, d, h, mi, se);
    } else if 9999 < t.year {
      assert s[..|y|] == y;
      assert IsDigit(s[4]);
    } else {
      assert s[0] == y[0];
    }
  }

  /** Where the six fields of a four-digit-year timestamp sit in its text. */
  lemma FieldPositions(y: string, mo: string, d: string, h: string, mi: string, se: string)
    requires |y| == 4 && |mo| == 2 && |d| == 2 && |h| == 2 && |mi| == 2 && |se| == 2
    ensures var s := (y + "-" + mo + "-" + d) + ("T" + (h + ":" + mi + ":" + se));
      && |s| == 19 && s[4] == '-' && s[7] == '-' && s[10] == 'T' && s[13] == ':' && s[16] == ':'
      && s[0..4] == y && s[5..7] == mo && s[8..10] == d
      && s[11..13] == h && s[14..16] == mi && s[17..19] == se
  {
    var date := y + "-" + mo + "-" + d;
    var clock := h + ":" + mi + ":" + se;
    var s := date + ("T" + clock);
    assert |date| == 10 && date[0..4] == y && date[4] == '-' && date[5..7] == mo
      && date[7] == '-' && date[8..10] == d;
    assert |clock| == 8 && clock[0..2] == h && clock[2] == ':' && clock[3..5] == mi
      && clock[5] == ':' && clock[6..8] == se;
    assert s[0..10] == date && s[10] == 'T' && s[11..19] == clock;
    assert s[0..4] == y;
    assert s[5..7] == mo;
    assert s[8..10] == d;
    assert s[11..13] == h;
    assert s[14..16] == mi;
    assert s[17..19] == se;
  }

  /** Format of the timestamp layout, written out as one concatenation. */
  lemma TimestampSpelledOut(t: DateTime)
    requires Renderable(t)
    ensures Format(TimestampLayout, t) ==
      (YearText(t.year) + "-" + Pad(t.month, 2) + "-" + Pad(t.day, 2))
      + ("T" + (Pad(t.hour, 2) + ":" + Pad(t.minute, 2) + ":" + Pad(t.second, 2)))
  {
    DateSpelledOut(t);
    TimeOfDaySpelledOut(t);
    JoinAt(DateLayout, Literal('T'), ClockLayout, t);
  }

  /** Formatting a layout joined at one chunk. */
  lemma JoinAt(left: seq<Chunk>, mid: Chunk, right: seq<Chunk>, t: DateTime)
    requires Renderable(t)
    ensures Format(left + [mid] + right, t) == Format(left, t) + (FormatChunk(mid, t) + Format(right, t))
  {
    var l, m, r := Format(left, t), FormatChunk(mid, t), Format(right, t);
    FormatSingle(mid, t);
    FormatAppend(left, [mid], t);
    FormatAppend(left + [mid], right, t);
    Associative(l, m, r);
  }

  lemma FormatSingle(c: Chunk, t: DateTime)
    requires Renderable(t)
    ensures Format([c], t) == FormatChunk(c, t)
  {
    assert [c][1..] == [];
  }

  lemma Associative(a: string, b: string, c: string)
    ensures (a + b) + c == a + (b + c)
  {
  }

  lemma DateSpelledOut(t: DateTime)
    requires Renderable(t)
    ensures Format(DateLayout, t) ==
      YearText(t.year) + "-" + Pad(t.month, 2) + "-" + Pad(t.day, 2)
  {
    FormatFive(DateLayout, t);
    RegroupFive(YearText(t.year), "-", Pad(t.month, 2), "-", Pad(t.day, 2));
  }

  lemma TimeOfDaySpelledOut(t: DateTime)
    requires Renderable(t)
    ensures Format(ClockLayout, t) ==
      Pad(t.hour, 2) + ":" + Pad(t.minute, 2) + ":" + Pad(t.second, 2)
  {
    FormatFive(ClockLayout, t);
    RegroupFive(Pad(t.hour, 2), ":", Pad(t.minute, 2), ":", Pad(t.second, 2));
  }

  /** Format of a five-chunk layout, chunk by chunk. */
  lemma FormatFive(L: seq<Chunk>, t: DateTime)
    requires Renderable(t) && |L| == 5
    ensures Format(L, t) == FormatChunk(L[0], t) + (FormatChunk(L[1], t) + (FormatChunk(L[2], t)
      + (FormatChunk(L[3], t) + FormatChunk(L[4], t))))
  {
    var c0, c1, c2, c3, c4 := FormatChunk(L[0], t), FormatChunk(L[1], t), FormatChunk(L[2], t),
      FormatChunk(L[3], t), FormatChunk(L[4], t);
    assert L[4..][1..] == [];
    assert Format(L[4..], t) == c4;
    assert L[3..][1..] == L[4..];
    assert Format(L[3..], t) == c3 + c4;
    assert L[2..][1..] == L[3..];
    assert Format(L[2..], t) == c2 + (c3 + c4);
    assert L[1..][1..] == L[2..];
    assert Format(L[1..], t) == c1 + (c2 + (c3 + c4));
  }

  lemma RegroupFive(a: string, b: string, c: string, d: string, e: string)
    ensures a + (b + (c + (d + e))) == a + b + c + d + e
  {
  }

  // ---------------------------------------------------------------------
  // Parsing

  /** Why the time package rejects an input. */
  datatype ParseError =
    | Mismatch                  // the input does not follow the layout here
    | ExtraText                 // input is left after the last chunk
    | OutOfRange(field: string) // "<field> out of range"

  /** The record parsing starts from: year 0, January 1, midnight, the
      values a layout that omits a field leaves in it. */
  const Origin: DateTime := DateTime(0, 1, 1, 0, 0, 0)

  /** What the scanner guarantees of the fields it has filled in: four-digit
      year, the immediate range checks passed, any two-digit day. */
  predicate Scanned(t: DateTime) {
    && FourDigitYear(t)
    && 1 <= t.month <= 12
    && 0 <= t.day < 100
    && 0 <= t.hour < 24
    && 0 <= t.minute < 60
    && 0 <= t.second < 60
  }

  /** `a` keeps the value of `acc` in every field no chunk of `layout` writes. */
  predicate KeepsUnwritten(layout: seq<Chunk>, acc: DateTime, a: DateTime) {
    && (LongYear !in layout ==> a.year == acc.year)
    && (ZeroMonth !in layout ==> a.month == acc.month)
    && (ZeroDay !in layout ==> a.day == acc.day)
    && (Hour !in layout ==> a.hour == acc.hour)
    && (ZeroMinute !in layout ==> a.minute == acc.minute)
    && (ZeroSecond !in layout ==> a.second == acc.second)
  }

  /** The scanning loop of `time.Parse`: match literals, read each field at
      its fixed width, range-check it at once, and demand that nothing is
      left at the end. */
  function ParseChunks(layout: seq<Chunk>, s: string, acc: DateTime): (r: Result<DateTime, ParseError>)
    ensures r.Success? ==> KeepsUnwritten(layout, acc, r.value)
    ensures r.Success? && Scanned(acc) ==> Scanned(r.value)
  {
    if layout == [] then
      if s == [] then Success(acc) else Failure(ExtraText)
    else
      var c := layout[0];
      if c.Literal? then
        if |s| > 0 && s[0] == c.ch then ParseChunks(layout[1..], s[1..], acc) else Failure(Mismatch)
      else
        var w := Width(c);
        assert Pow10(2) == 100 && Pow10(4) == 10000;
        if |s| < w || !AllDigits(s[..w]) then Failure(Mismatch)
        else
          var v := DigitsValue(s[..w]);
          if !InFieldRange(c, v) then Failure(OutOfRange(FieldName(c)))
          else ParseChunks(layout[1..], s[w..], With(acc, c, v))
  }

  /** `time.Parse(layout, s)` reduced to the wall clock: scan, then check the
      day against the month and year. */
  function Parse(layout: seq<Chunk>, s: string): (r: Result<Time, ParseError>)
    ensures r.Success? ==> FourDigitYear(r.value)
  {
    match ParseChunks(layout, s, Origin)
    case Failure(e) => Failure(e)
    case Success(t) =>
      if 1 <= t.day <= DaysIn(t.month, t.year) then Success(t) else Failure(OutOfRange("day"))
  }

  /** The name of the first field chunk of `layout` whose value in `t` fails
      the immediate range check, if any. */
  function FirstRangeError(layout: seq<Chunk>, t: DateTime): (r: Option<string>)
    ensures r.None? <==> forall i | 0 <= i < |layout| :: InFieldRange(layout[i], FieldOf(t, layout[i]))
  {
    if layout == [] then None
    else if !InFieldRange(layout[0], FieldOf(t, layout[0])) then Some(FieldName(layout[0]))
    else FirstRangeError(layout[1..], t)
  }

  /** `acc` with every field that `layout` writes taken from `t`. */
  function Assign(layout: seq<Chunk>, t: DateTime, acc: DateTime): DateTime {
    DateTime(
      if LongYear in layout then t.year else acc.year,
      if ZeroMonth in layout then t.month else acc.month,
      if ZeroDay in layout then t.day else acc.day,
      if Hour in layout then t.hour else acc.hour,
      if ZeroMinute in layout then t.minute else acc.minute,
      if ZeroSecond in layout then t.second else acc.second)
  }

  /** A field chunk writes exactly `Width(c)` digits denoting the field. */
  lemma FieldText(c: Chunk, t: DateTime)
    requires !c.Literal? && Renderable(t) && FourDigitYear(t)
    ensures var text := FormatChunk(c, t);
      |text| == Width(c) && AllDigits(text) && DigitsValue(text) == FieldOf(t, c)
  {
    assert Pow10(2) == 100;
  }

  lemma AssignLiteral(c: Chunk, rest: seq<Chunk>, t: DateTime, acc: DateTime)
    requires c.Literal?
    ensures Assign([c] + rest, t, acc) == Assign(rest, t, acc)
  {
  }

  lemma AssignField(c: Chunk, rest: seq<Chunk>, t: DateTime, acc: DateTime)
    requires !c.Literal?
    ensures Assign([c] + rest, t, acc) == Assign(rest, t, With(acc, c, FieldOf(t, c)))
  {
  }

  /** Scanning what the formatter wrote, for any layout: it reads back every
      field it wrote, unless a field fails its range check first, in which
      case the first such field is reported. */
  lemma {:induction false} ScanFormatted(layout: seq<Chunk>, t: DateTime, acc: DateTime)
    requires Renderable(t) && FourDigitYear(t)
    ensures ParseChunks(layout, Format(layout, t), acc) ==
      match FirstRangeError(layout, t)
      case Some(f) => Failure(OutOfRange(f))
      case None => Success(Assign(layout, t, acc))
  {
    if layout == [] {
      assert Assign(layout, t, acc) == acc;
    } else {
      var c, rest := layout[0], layout[1..];
      assert layout == [c] + rest;
      var s := Format(layout, t);
      var head := FormatChunk(c, t);
      assert s == head + Format(rest, t);
      if c.Literal? {
        assert s[1..] == Format(rest, t);
        ScanFormatted(rest, t, acc);
        AssignLiteral(c, rest, t, acc);
      } else {
        var w := Width(c);
        FieldText(c, t);
        assert s[..w] == head && s[w..] == Format(rest, t);
        if InFieldRange(c, FieldOf(t, c)) {
          ScanFormatted(rest, t, With(acc, c, FieldOf(t, c)));
          AssignField(c, rest, t, acc);
        }
      }
    }
  }

  /** No field chunk occurs twice in `layout`. */
  predicate NoRepeatedFields(layout: seq<Chunk>) {
    forall i, j | 0 <= i < j < |layout| :: layout[i].Literal? || layout[i] != layout[j]
  }

  /** The one spelling of a field value: writing back the value of `d`
      gives `d`. */
  lemma FieldReadBack(c: Chunk, d: string, a: DateTime)
    requires !c.Literal? && Scanned(a)
    requires |d| == Width(c) && AllDigits(d) && FieldOf(a, c) == DigitsValue(d)
    ensures FormatChunk(c, a) == d
  {
    FixedDigitsOfValue(d);
    assert Pow10(2) == 100 && Pow10(4) == 10000;
  }

  lemma TailNoRepeats(layout: seq<Chunk>)
    requires NoRepeatedFields(layout) && layout != []
    ensures NoRepeatedFields(layout[1..])
    ensures !layout[0].Literal? ==> layout[0] !in layout[1..]
  {
    var rest := layout[1..];
    forall i, j | 0 <= i < j < |rest|
      ensures rest[i].Literal? || rest[i] != rest[j]
    {
      assert rest[i] == layout[i + 1] && rest[j] == layout[j + 1];
    }
    forall k | 0 <= k < |rest|
      ensures layout[0].Literal? || rest[k] != layout[0]
    {
      assert rest[k] == layout[k + 1];
    }
  }

  /** A field that the rest of the layout does not write keeps its value. */
  lemma KeptField(c: Chunk, rest: seq<Chunk>, acc: DateTime, a: DateTime)
    requires !c.Literal? && c !in rest && KeepsUnwritten(rest, acc, a)
    ensures FieldOf(a, c) == FieldOf(acc, c)
  {
  }

  /** Formatting what the scanner read gives back the input: in a layout
      where every field occurs once, a string is accepted only in the one
      spelling the formatter produces. */
  lemma {:induction false} FormatScanned(layout: seq<Chunk>, s: string, acc: DateTime)
    requires NoRepeatedFields(layout) && Scanned(acc)
    requires ParseChunks(layout, s, acc).Success?
    ensures Format(layout, ParseChunks(layout, s, acc).value) == s
    decreases |layout|, 1
  {
    if layout != [] {
      TailNoRepeats(layout);
      if layout[0].Literal? {
        FormatScannedLiteral(layout, s, acc);
      } else {
        FormatScannedField(layout, s, acc);
      }
    }
  }

  lemma {:induction false} FormatScannedLiteral(layout: seq<Chunk>, s: string, acc: DateTime)
    requires NoRepeatedFields(layout) && Scanned(acc)
    requires layout != [] && layout[0].Literal?
    requires ParseChunks(layout, s, acc).Success?
    ensures Format(layout, ParseChunks(layout, s, acc).value) == s
    decreases |layout|, 0
  {
    var a := ParseChunks(layout, s, acc).value;
    var c, rest := layout[0], layout[1..];
    TailNoRepeats(layout);
    ScanLiteralStep(layout, s, acc);
    FormatScanned(rest, s[1..], acc);
    FormatCons(layout, a);
    assert s == [c.ch] + s[1..];
  }

  /** One step of the scan over a literal chunk. */
  lemma ScanLiteralStep(layout: seq<Chunk>, s: string, acc: DateTime)
    requires layout != [] && layout[0].Literal?
    requires ParseChunks(layout, s, acc).Success?
    ensures |s| > 0 && s[0] == layout[0].ch
    ensures ParseChunks(layout[1..], s[1..], acc) == ParseChunks(layout, s, acc)
  {
  }

  lemma {:induction false} FormatScannedField(layout: seq<Chunk>, s: string, acc: DateTime)
    requires NoRepeatedFields(layout) && Scanned(acc)
    requires layout != [] && !layout[0].Literal?
    requires ParseChunks(layout, s, acc).Success?
    ensures Format(layout, ParseChunks(layout, s, acc).value) == s
    decreases |layout|, 0
  {
    var a := ParseChunks(layout, s, acc).value;
    var c, rest := layout[0], layout[1..];
    TailNoRepeats(layout);
    var w := Width(c);
    ScanFieldStep(layout, s, acc);
    var d := s[..w];
    var acc' := With(acc, c, DigitsValue(d));
    FormatScanned(rest, s[w..], acc');
    KeptField(c, rest, acc', a);
    FieldReadBack(c, d, a);
    FormatCons(layout, a);
    assert s == d + s[w..];
  }

  /** One step of the scan over a field chunk. */
  lemma ScanFieldStep(layout: seq<Chunk>, s: string, acc: DateTime)
    requires layout != [] && !layout[0].Literal? && Scanned(acc)
    requires ParseChunks(layout, s, acc).Success?
    ensures Width(layout[0]) <= |s| && AllDigits(s[..Width(layout[0])])
    ensures var w := Width(layout[0]);
      var acc' := With(acc, layout[0], DigitsValue(s[..w]));
      Scanned(acc') && ParseChunks(layout[1..], s[w..], acc') == ParseChunks(layout, s, acc)
  {
    assert Pow10(2) == 100 && Pow10(4) == 10000;
  }

  lemma FormatCons(layout: seq<Chunk>, t: DateTime)
    requires layout != [] && Renderable(t)
    ensures Format(layout, t) == FormatChunk(layout[0], t) + Format(layout[1..], t)
  {
  }

  /** Every field of the wall clock occurs in `layout`. */
  predicate WritesAllFields(layout: seq<Chunk>) {
    && LongYear in layout && ZeroMonth in layout && ZeroDay in layout
    && Hour in layout && ZeroMinute in layout && ZeroSecond in layout
  }

  lemma ValidFieldsInRange(layout: seq<Chunk>, t: Time)
    ensures FirstRangeError(layout, t) == None
  {
    forall i | 0 <= i < |layout|
      ensures InFieldRange(layout[i], FieldOf(t, layout[i]))
    {
    }
  }

  /** For a layout that writes every field, parsing the formatter's text of
      a `Time` with a four-digit year gives the `Time` back. */
  lemma ParseFormatted(layout: seq<Chunk>, t: Time)
    requires WritesAllFields(layout) && FourDigitYear(t)
    ensures Parse(layout, Format(layout, t)) == Success(t)
  {
    ScanFormatted(layout, t, Origin);
    ValidFieldsInRange(layout, t);
    assert Assign(layout, t, Origin) == t;
  }

  /** For a layout without repeated fields, the formatter's text of what
      `Parse` accepted is the input itself. */
  lemma FormatParsed(layout: seq<Chunk>, s: string)
    requires NoRepeatedFields(layout) && Parse(layout, s).Success?
    ensures Format(layout, Parse(layout, s).value) == s
  {
    assert ParseChunks(layout, s, Origin) == Success(Parse(layout, s).value);
    FormatScanned(layout, s, Origin);
  }

  // ---------------------------------------------------------------------
  // The timestamp layout and its JSON form

  lemma {:induction false} FirstRangeErrorAppend(a: seq<Chunk>, b: seq<Chunk>, t: DateTime)
    ensures FirstRangeError(a + b, t) ==
      if FirstRangeError(a, t).Some? then FirstRangeError(a, t) else FirstRangeError(b, t)
  {
    if a == [] {
      assert a + b == b;
    } else {
      assert (a + b)[0] == a[0];
      assert (a + b)[1..] == a[1..] + b;
      FirstRangeErrorAppend(a[1..], b, t);
    }
  }

  lemma DateRangeError(t: DateTime)
    ensures FirstRangeError(DateLayout, t) == if 1 <= t.month <= 12 then None else Some("month")
  {
    var L := DateLayout;
    assert L[4..] == [ZeroDay] && L[4..][1..] == [];
    assert FirstRangeError(L[4..], t) == None;
    assert L[3..] == [Literal('-')] + L[4..];
    assert FirstRangeError(L[3..], t) == None;
    assert L[2..] == [ZeroMonth] + L[3..];
    assert FirstRangeError(L[2..], t) == if 1 <= t.month <= 12 then None else Some("month");
    assert L[1..] == [Literal('-')] + L[2..];
    assert L == [LongYear] + L[1..];
  }

  lemma ClockRangeError(t: DateTime)
    ensures FirstRangeError(ClockLayout, t) ==
      if !(0 <= t.hour < 24) then Some("hour")
      else if !(0 <= t.minute < 60) then Some("minute")
      else if !(0 <= t.second < 60) then Some("second")
      else None
  {
    var L := ClockLayout;
    assert L[4..] == [ZeroSecond] && L[4..][1..] == [];
    var sec := if 0 <= t.second < 60 then None else Some("second");
    assert FirstRangeError(L[4..], t) == sec;
    assert L[3..] == [Literal(':')] + L[4..];
    assert FirstRangeError(L[3..], t) == sec;
    assert L[2..] == [ZeroMinute] + L[3..];
    var min := if 0 <= t.minute < 60 then sec else Some("minute");
    assert FirstRangeError(L[2..], t) == min;
    assert L[1..] == [Literal(':')] + L[2..];
    assert FirstRangeError(L[1..], t) == min;
    assert L == [Hour] + L[1..];
  }

  lemma TimestampRangeError(t: DateTime)
    ensures FirstRangeError(TimestampLayout, t) ==
      if !(1 <= t.month <= 12) then Some("month")
      else if !(0 <= t.hour < 24) then Some("hour")
      else if !(0 <= t.minute < 60) then Some("minute")
      else if !(0 <= t.second < 60) then Some("second")
      else None
  {
    FirstRangeErrorAppend(DateLayout + [Literal('T')], ClockLayout, t);
    FirstRangeErrorAppend(DateLayout, [Literal('T')], t);
    DateRangeError(t);
    ClockRangeError(t);
  }

  /** The timestamp layout writes all six fields, each once. */
  lemma TimestampLayoutFields()
    ensures NoRepeatedFields(TimestampLayout) && WritesAllFields(TimestampLayout)
  {
    var L := TimestampLayout;
    assert L == [LongYear, Literal('-'), ZeroMonth, Literal('-'), ZeroDay, Literal('T'),
                 Hour, Literal(':'), ZeroMinute, Literal(':'), ZeroSecond];
    assert L[0] == LongYear && L[2] == ZeroMonth && L[4] == ZeroDay;
    assert L[6] == Hour && L[8] == ZeroMinute && L[10] == ZeroSecond;
  }

  lemma QuotedLayoutFields()
    ensures NoRepeatedFields(QuotedLayout) && WritesAllFields(QuotedLayout)
    ensures forall t: DateTime :: FirstRangeError(QuotedLayout, t) == FirstRangeError(TimestampLayout, t)
  {
    var L := QuotedLayout;
    assert L == [Literal('"'), LongYear, Literal('-'), ZeroMonth, Literal('-'), ZeroDay, Literal('T'),
                 Hour, Literal(':'), ZeroMinute, Literal(':'), ZeroSecond, Literal('"')];
    assert L[1] == LongYear && L[3] == ZeroMonth && L[5] == ZeroDay;
    assert L[7] == Hour && L[9] == ZeroMinute && L[11] == ZeroSecond;
    forall t: DateTime
      ensures FirstRangeError(QuotedLayout, t) == FirstRangeError(TimestampLayout, t)
    {
      FirstRangeErrorAppend([Literal('"')] + TimestampLayout, [Literal('"')], t);
      FirstRangeErrorAppend([Literal('"')], TimestampLayout, t);
    }
  }

  /** What parsing the timestamp text of `t` yields when `t`'s fields fit
      the layout's widths but need not form a real date: the first of month,
      hour, minute, second (in reading order) that is out of range is
      reported, and the day is checked against month and year only after
      the whole text is read. */
  function TimestampVerdict(t: DateTime): Result<DateTime, ParseError> {
    if !(1 <= t.month <= 12) then Failure(OutOfRange("month"))
    else if !(0 <= t.hour < 24) then Failure(OutOfRange("hour"))
    else if !(0 <= t.minute < 60) then Failure(OutOfRange("minute"))
    else if !(0 <= t.second < 60) then Failure(OutOfRange("second"))
    else if !(1 <= t.day <= DaysIn(t.month, t.year)) then Failure(OutOfRange("day"))
    else Success(t)
  }

  /** Calendar validation and error precedence of the timestamp parser. */
  lemma ParseTimestampVerdict(t: DateTime)
    requires Renderable(t) && FourDigitYear(t)
    ensures Parse(TimestampLayout, Format(TimestampLayout, t)) == TimestampVerdict(t)
  {
    ScanFormatted(TimestampLayout, t, Origin);
    TimestampRangeError(t);
    TimestampLayoutFields();
  }

  /** `time.Parse(localTimeWithoutZoneFormat, s)`, the reader of the
      `received_after` query value: whatever it accepts is a 19-character
      timestamp text, and it is the formatter's own spelling of the result. */
  function ParseTimestamp(s: string): (r: Result<Time, ParseError>)
    ensures r.Success? ==> IsTimestampText(s) && FormatTimestamp(r.value) == s
  {
    var r := Parse(TimestampLayout, s);
    if r.Success? then
      ParsedTimestampText(s);
      r
    else r
  }

  lemma ParsedTimestampText(s: string)
    requires Parse(TimestampLayout, s).Success?
    ensures var t := Parse(TimestampLayout, s).value;
      IsTimestampText(s) && FormatTimestamp(t) == s
  {
    var t := Parse(TimestampLayout, s).value;
    TimestampLayoutFields();
    FormatParsed(TimestampLayout, s);
    assert FormatTimestamp(t) == s;
  }

  /** Round trip: the formatter's text parses back to the same wall clock
      exactly when the year has four digits. */
  lemma ParseFormatTimestamp(t: Time)
    ensures ParseTimestamp(FormatTimestamp(t)) == Success(t) <==> FourDigitYear(t)
  {
    if FourDigitYear(t) {
      TimestampLayoutFields();
      ParseFormatted(TimestampLayout, t);
    }
  }

  /** Nothing may follow the seconds: a zone designator such as `Z`, an
      offset or any other suffix makes an accepted text rejected. */
  lemma TrailingTextRejected(s: string, suffix: string)
    requires ParseTimestamp(s).Success? && suffix != []
    ensures ParseTimestamp(s + suffix).Failure?
  {
  }

  /** `LocalTimeWithoutZone.MarshalJSON`: never fails; the timestamp text
      between double quotes, 21 characters for four-digit years. */
  function MarshalJSON(t: Time): (b: string)
    ensures 2 <= |b| && b[0] == '"' && b[|b| - 1] == '"'
    ensures b[1..|b| - 1] == FormatTimestamp(t)
    ensures FourDigitYear(t) ==> |b| == 21 && IsTimestampText(b[1..20])
  {
    var b := "\"" + FormatTimestamp(t) + "\"";
    assert b[1..|b| - 1] == FormatTimestamp(t);
    b
  }

  lemma MarshalIsQuotedFormat(t: Time)
    ensures MarshalJSON(t) == Format(QuotedLayout, t)
  {
    QuotedFormat(t);
  }

  /** The quoted layout writes the timestamp text between two quotes, for
      any record, valid date or not. */
  lemma QuotedFormat(t: DateTime)
    requires Renderable(t)
    ensures Format(QuotedLayout, t) == "\"" + Format(TimestampLayout, t) + "\""
  {
    FormatAppend([Literal('"')] + TimestampLayout, [Literal('"')], t);
    FormatAppend([Literal('"')], TimestampLayout, t);
  }

  /** `LocalTimeWithoutZone.UnmarshalJSON`: parses with the quoted layout
      and returns the parse error instead of a value. Input without the
      opening quote is rejected at once; whatever is accepted is exactly
      what `MarshalJSON` writes for the result. */
  function UnmarshalJSON(data: string): (r: Result<Time, ParseError>)
    ensures (|data| == 0 || data[0] != '"') ==> r == Failure(Mismatch)
    ensures r.Success? ==> MarshalJSON(r.value) == data && |data| == 21
    ensures r.Success? ==> FourDigitYear(r.value) && data[20] == '"' && IsTimestampText(data[1..20])
  {
    var r := Parse(QuotedLayout, data);
    assert QuotedLayout[0] == Literal('"');
    if r.Success? then
      QuotedLayoutFields();
      FormatParsed(QuotedLayout, data);
      MarshalIsQuotedFormat(r.value);
      r
    else r
  }

  /** Calendar validation and error precedence of the JSON decoder: the
      quoted text of a rendered record gets the same verdict as the
      unquoted text gets from the query reader. */
  lemma UnmarshalJSONVerdict(t: DateTime)
    requires Renderable(t) && FourDigitYear(t)
    ensures UnmarshalJSON(Format(QuotedLayout, t)) == TimestampVerdict(t)
  {
    ScanFormatted(QuotedLayout, t, Origin);
    QuotedLayoutFields();
    TimestampRangeError(t);
  }

  /** JSON round trip: `UnmarshalJSON(MarshalJSON(t))` restores the wall
      clock exactly when the year has four digits. */
  lemma UnmarshalMarshal(t: Time)
    ensures UnmarshalJSON(MarshalJSON(t)) == Success(t) <==> FourDigitYear(t)
  {
    MarshalIsQuotedFormat(t);
    if FourDigitYear(t) {
      QuotedLayoutFields();
      ParseFormatted(QuotedLayout, t);
    }
  }
}
