/**
 * `dateFormat` (frontend/src/utils/helper.js): renders a timestamp as
 * `YYYY-MM-DD h:MM AM|PM` on a 12-hour clock. The decomposition of the value
 * by JavaScript's `Date` in local time is an input: the year, 0-based month,
 * day, hours and minutes, or `None` for an invalid date.
 */
module DateFormat {
  import opened Wrappers
  import opened JsText
  import opened Numerals
  import opened Json

  /** The fields `getFullYear`, `getMonth`, `getDate`, `getHours`, `getMinutes` return. */
  datatype DateFields = DateFields(year: int, month: int, day: int, hours: int, minutes: int)

  /** The ranges `Date` guarantees for a valid date; `month` is 0-based. */
  predicate InRange(f: DateFields)
  {
    0 <= f.month < 12 && 1 <= f.day <= 31 && 0 <= f.hours < 24 && 0 <= f.minutes < 60
  }

  /** `padStart(2, "0")`. */
  function PadStart2(s: string): (r: string)
    ensures |s| >= 2 ==> r == s
    ensures |s| < 2 ==> |r| == 2 && r[2 - |s|..] == s && forall i :: 0 <= i < 2 - |s| ==> r[i] == '0'
    decreases 2 - |s|
  {
    if |s| >= 2 then s else PadStart2("0" + s)
  }

  /** `String(n).padStart(2, "0")` for a two-digit field. */
  function TwoDigits(n: nat): (r: string)
    requires n < 100
    ensures |r| == 2 && AllDigits(r, 10)
  {
    ShortNumeral(n);
    PadStart2(NatToString(n))
  }

  /** Numbers below 100 render as one or two digits. */
  lemma ShortNumeral(n: nat)
    requires n < 100
    ensures n < 10 ==> NatToString(n) == [DigitChar(n)]
    ensures n >= 10 ==> |NatToString(n)| == 2
  {
  }

  /** The value of a two-digit string. */
  lemma TwoDigitValue(r: string)
    requires |r| == 2 && AllDigits(r, 10)
    ensures RadixValue(r, 10) == (r[0] as int - '0' as int) * 10 + (r[1] as int - '0' as int)
  {
    var a := r[..1];
    assert DigitValue(r[0], 10).Some? && DigitValue(r[1], 10).Some?;
    assert IsAsciiDigit(r[0]) && IsAsciiDigit(r[1]);
    assert r[..|r| - 1] == a && a[..|a| - 1] == [] && a[|a| - 1] == r[0];
    assert AllDigits(a, 10);
    assert RadixValue(a, 10) == r[0] as int - '0' as int;
  }

  /** A zero-padded field reads back as its value. */
  lemma TwoDigitsParse(n: nat)
    requires n < 100
    ensures ParseInt(TwoDigits(n)) == Some(n)
  {
    var r := TwoDigits(n);
    if n < 10 {
      assert r[0] == '0' && r[1] == DigitChar(n) by {
        ShortNumeral(n);
      }
      PaddedDigitParse(r, n);
    } else {
      assert r == IntToString(n) by {
        ShortNumeral(n);
      }
      IntToStringParses(n);
    }
  }

  /** A single digit behind a padding zero reads as the digit. */
  lemma PaddedDigitParse(r: string, n: nat)
    requires n < 10 && |r| == 2 && r[0] == '0' && r[1] == DigitChar(n)
    ensures ParseInt(r) == Some(n)
  {
    assert AllDigits(r, 10) by {
      assert DigitValue(r[0], 10).Some? && DigitValue(r[1], 10).Some?;
    }
    ParseIntDecimal(r);
    TwoDigitValue(r);
  }

  /** `hours >= 12 ? "PM" : "AM"`. */
  function Meridiem(hours: int): (r: string)
    ensures r == "AM" || r == "PM"
  {
    if hours >= 12 then "PM" else "AM"
  }

  /** `hours % 12 || 12`: the hour on a 12-hour clock, where 0 and 12 both show as 12. */
  function Hour12(hours: nat): (r: nat)
    requires hours < 24
    ensures 1 <= r <= 12
    ensures r % 12 == hours % 12
  {
    if hours % 12 == 0 then 12 else hours % 12
  }

  /** The 24-hour value a 12-hour reading with its meridiem denotes. */
  function To24(hour12: int, pm: bool): int
  {
    if pm then (if hour12 == 12 then 12 else hour12 + 12)
    else (if hour12 == 12 then 0 else hour12)
  }

  /** The 12-hour clock loses nothing: the hour and the meridiem give back the 24-hour value. */
  lemma ClockRoundTrip(hours: nat)
    requires hours < 24
    ensures To24(Hour12(hours), Meridiem(hours) == "PM") == hours
    ensures Meridiem(hours) == "AM" <==> hours < 12
    ensures hours == 0 || hours == 12 ==> Hour12(hours) == 12
  {
  }

  /** The rendering of a valid date. */
  function Display(f: DateFields): (r: string)
    requires InRange(f)
    ensures |r| >= 15
  {
    IntToString(f.year) + "-" + TwoDigits(f.month + 1) + "-" + TwoDigits(f.day)
    + " " + IntToString(Hour12(f.hours)) + ":" + TwoDigits(f.minutes) + " " + Meridiem(f.hours)
  }

  /** What an invalid date renders as: every field is NaN, and the hour falls back to 12. */
  const InvalidDateText := "NaN-NaN-NaN 12:NaN AM"

  /**
   * `dateFormat(date)`: a falsy value renders as the empty string; any other
   * value renders through its decomposition `fields`.
   */
  function FormatDate(date: Value, fields: Option<DateFields>): (r: string)
    requires fields.Some? ==> InRange(fields.value)
    ensures r == "" <==> IsFalsy(date)
    ensures !IsFalsy(date) && fields.None? ==> r == InvalidDateText
    ensures !IsFalsy(date) && fields.Some? ==> ReadDisplay(r) == fields
  {
    if IsFalsy(date) then ""
    else match fields
      case None => InvalidDateText
      case Some(f) => DisplayRoundTrip(f); Display(f)
  }

  /** The six pieces of a rendered date. */
  datatype Pieces = Pieces(year: string, month: string, day: string, hour: string, minutes: string, ampm: string)

  /**
   * Cuts a rendered date into its pieces, working from the end of the string:
   * the meridiem, the two minute digits, the one- or two-digit hour, then day,
   * month and a year of any length.
   */
  function Split(s: string): Option<Pieces>
  {
    var n := |s|;
    if n < 15 then None
    else
      var hourLen := if s[n - 8] == ' ' then 1 else 2;
      var rest := s[..n - 7 - hourLen];
      Some(Pieces(rest[..|rest| - 6], rest[|rest| - 5..|rest| - 3], rest[|rest| - 2..],
                  s[n - 6 - hourLen..n - 6], s[n - 5..n - 3], s[n - 2..]))
  }

  /** Reads the fields back from a rendered date. */
  function ReadDisplay(s: string): Option<DateFields>
  {
    match Split(s)
    case None => None
    case Some(p) => ReadFields(p)
  }

  /** Parses the six pieces of a rendered date. */
  function ReadFields(p: Pieces): Option<DateFields>
  {
    Assemble(ParseInt(p.year), ParseInt(p.month), ParseInt(p.day), ParseInt(p.hour), ParseInt(p.minutes), p.ampm)
  }

  /** The fields from the numbers read, when every piece is a number and the meridiem is AM or PM. */
  function Assemble(y: Option<int>, mo: Option<int>, d: Option<int>, h: Option<int>, mi: Option<int>, ampm: string)
    : Option<DateFields>
  {
    if y.None? || mo.None? || d.None? || h.None? || mi.None? then None
    else if ampm != "AM" && ampm != "PM" then None
    else Some(DateFields(y.value, mo.value - 1, d.value, To24(h.value, ampm == "PM"), mi.value))
  }

  /** The hour is one or two digits. */
  lemma HourText(h: nat)
    requires 1 <= h <= 12
    ensures var t := IntToString(h); |t| == 1 || (|t| == 2 && t[0] != ' ')
  {
    ShortNumeral(h);
  }

  /** Where the pieces of `date + " " + hour + ":" + minutes + " " + meridiem` lie, counted from the end. */
  lemma SplitClock(rest: string, h: string, mi: string, ap: string)
    requires |mi| == 2 && |ap| == 2 && |rest| >= 6
    requires |h| == 1 || (|h| == 2 && h[0] != ' ')
    ensures var s := rest + " " + h + ":" + mi + " " + ap; var n := |s|;
      && n == |rest| + |h| + 7
      && (s[n - 8] == ' ' <==> |h| == 1)
      && s[..n - 7 - |h|] == rest
      && s[n - 6 - |h|..n - 6] == h
      && s[n - 5..n - 3] == mi
      && s[n - 2..] == ap
  {
    var s := rest + " " + h + ":" + mi + " " + ap;
    var n := |s|;
    assert s[n - 8] == if |h| == 1 then ' ' else h[0];
  }

  /** Where the pieces of `year + "-" + month + "-" + day` lie, counted from the end. */
  lemma SplitDate(y: string, mo: string, d: string)
    requires |mo| == 2 && |d| == 2
    ensures var rest := y + "-" + mo + "-" + d;
      && |rest| == |y| + 6
      && rest[..|rest| - 6] == y
      && rest[|rest| - 5..|rest| - 3] == mo
      && rest[|rest| - 2..] == d
  {
  }

  /** The reader finds each piece where the renderer put it. */
  lemma ReadPieces(y: string, mo: string, d: string, h: string, mi: string, ap: string)
    requires |y| >= 1 && |mo| == 2 && |d| == 2 && |mi| == 2 && |ap| == 2
    requires |h| == 1 || (|h| == 2 && h[0] != ' ')
    ensures Split(y + "-" + mo + "-" + d + " " + h + ":" + mi + " " + ap) == Some(Pieces(y, mo, d, h, mi, ap))
  {
    var rest := y + "-" + mo + "-" + d;
    assert y + "-" + mo + "-" + d + " " + h + ":" + mi + " " + ap == rest + " " + h + ":" + mi + " " + ap;
    SplitDate(y, mo, d);
    SplitClock(rest, h, mi, ap);
  }

  /** The pieces a valid date renders as. */
  function DisplayPieces(f: DateFields): Pieces
    requires InRange(f)
  {
    Pieces(IntToString(f.year), TwoDigits(f.month + 1), TwoDigits(f.day),
           IntToString(Hour12(f.hours)), TwoDigits(f.minutes), Meridiem(f.hours))
  }

  lemma DisplaySplits(f: DateFields)
    requires InRange(f)
    ensures Split(Display(f)) == Some(DisplayPieces(f))
  {
    var p := DisplayPieces(f);
    HourText(Hour12(f.hours));
    ReadPieces(p.year, p.month, p.day, p.hour, p.minutes, p.ampm);
    assert Display(f) == p.year + "-" + p.month + "-" + p.day + " " + p.hour + ":" + p.minutes + " " + p.ampm;
  }

  lemma PiecesRead(f: DateFields)
    requires InRange(f)
    ensures ReadFields(DisplayPieces(f)) == Some(f)
  {
    var p := DisplayPieces(f);
    DateNumbersRead(f);
    ClockNumbersRead(f);
    AssembleDisplayed(f);
  }

  lemma DateNumbersRead(f: DateFields)
    requires InRange(f)
    ensures var p := DisplayPieces(f);
      ParseInt(p.year) == Some(f.year) && ParseInt(p.month) == Some(f.month + 1) && ParseInt(p.day) == Some(f.day)
  {
    IntToStringParses(f.year);
    MonthDayRead(f.month + 1, f.day);
  }

  lemma MonthDayRead(m: nat, d: nat)
    requires m < 100 && d < 100
    ensures ParseInt(TwoDigits(m)) == Some(m) && ParseInt(TwoDigits(d)) == Some(d)
  {
    TwoDigitsParse(m);
    TwoDigitsParse(d);
  }

  lemma ClockNumbersRead(f: DateFields)
    requires InRange(f)
    ensures var p := DisplayPieces(f);
      ParseInt(p.hour) == Some(Hour12(f.hours)) && ParseInt(p.minutes) == Some(f.minutes)
  {
    IntToStringParses(Hour12(f.hours));
    TwoDigitsParse(f.minutes);
  }

  lemma AssembleDisplayed(f: DateFields)
    requires InRange(f)
    ensures Assemble(Some(f.year), Some(f.month + 1), Some(f.day), Some(Hour12(f.hours)), Some(f.minutes),
                     Meridiem(f.hours)) == Some(f)
  {
    ClockRoundTrip(f.hours);
  }

  /** A valid date's rendering determines the date: every field reads back. */
  lemma DisplayRoundTrip(f: DateFields)
    requires InRange(f)
    ensures ReadDisplay(Display(f)) == Some(f)
  {
    DisplaySplits(f);
    PiecesRead(f);
  }
}
