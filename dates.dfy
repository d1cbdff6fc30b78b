/**
 * Calendar dates as the app writes them: the ISO form "YYYY-MM-DD" kept in a
 * saved draft and read back from it, and the "DD-Mon-YYYY" form printed in
 * the report.
 */
module Dates {
  import opened Wrappers
  import opened Records
  import opened NumText

  predicate IsLeapYear(y: int)
  {
    y % 4 == 0 && (y % 100 != 0 || y % 400 == 0)
  }

  function DaysInMonth(y: int, m: int): (n: int)
    requires 1 <= m <= 12
    ensures 28 <= n <= 31
  {
    if m == 2 then (if IsLeapYear(y) then 29 else 28)
    else if m == 4 || m == 6 || m == 9 || m == 11 then 30
    else 31
  }

  /** The dates a calendar date value can hold: years 1 to 9999, real months and days. */
  predicate ValidDate(t: Date)
  {
    1 <= t.year <= 9999 && 1 <= t.month <= 12 && 1 <= t.day <= DaysInMonth(t.year, t.month)
  }

  /** Two digits, zero-padded. */
  function Pad2(n: nat): (s: string)
    requires n < 100
    ensures |s| == 2 && AllDigits(s)
  {
    [DigitChar(n / 10), DigitChar(n % 10)]
  }

  /** Four digits, zero-padded. */
  function Pad4(n: nat): (s: string)
    requires n < 10000
    ensures |s| == 4 && AllDigits(s)
  {
    [DigitChar(n / 10 / 10 / 10), DigitChar(n / 10 / 10 % 10), DigitChar(n / 10 % 10), DigitChar(n % 10)]
  }

  /** The ISO text of a date, as stored in a saved draft. */
  function IsoDate(t: Date): (s: string)
    requires ValidDate(t)
    ensures |s| == 10 && s[4] == '-' && s[7] == '-'
  {
    Pad4(t.year) + "-" + Pad2(t.month) + "-" + Pad2(t.day)
  }

  /** Reads an ISO date text; a text of another shape, or naming a day the calendar lacks, is refused. */
  function ParseIsoDate(s: string): (r: Option<Date>)
    ensures r.Some? ==> ValidDate(r.value)
  {
    if |s| == 10 && s[4] == '-' && s[7] == '-'
       && AllDigits(s[..4]) && AllDigits(s[5..7]) && AllDigits(s[8..])
    then
      var t := Date(ParseNat(s[..4]), ParseNat(s[5..7]), ParseNat(s[8..]));
      if ValidDate(t) then Some(t) else None
    else None
  }

  lemma ParsePad2(n: nat)
    requires n < 100
    ensures ParseNat(Pad2(n)) == n
  {
    ParseNatTwoDigits(n / 10, n % 10);
  }

  lemma ParsePad4(n: nat)
    requires n < 10000
    ensures ParseNat(Pad4(n)) == n
  {
    var s := Pad4(n);
    assert s[..3][..2] == [DigitChar(n / 10 / 10 / 10), DigitChar(n / 10 / 10 % 10)];
    ParseNatTwoDigits(n / 10 / 10 / 10, n / 10 / 10 % 10);
    assert s[..3][..|s[..3]| - 1] == s[..2];
    assert ParseNat(s[..3]) == (n / 10 / 10 / 10 * 10 + n / 10 / 10 % 10) * 10 + n / 10 % 10;
    assert s[..|s| - 1] == s[..3];
  }

  /** Reading the ISO text of a date gives the date back. */
  lemma IsoDateRoundTrip(t: Date)
    requires ValidDate(t)
    ensures ParseIsoDate(IsoDate(t)) == Some(t)
  {
    var s := IsoDate(t);
    assert s[..4] == Pad4(t.year);
    assert s[5..7] == Pad2(t.month);
    assert s[8..] == Pad2(t.day);
    ParsePad4(t.year);
    ParsePad2(t.month);
    ParsePad2(t.day);
  }

  /** A text that reads as a date is that date's ISO text: the form is unique. */
  lemma ParseIsoDateExact(s: string)
    requires ParseIsoDate(s).Some?
    ensures IsoDate(ParseIsoDate(s).value) == s
  {
    var t := ParseIsoDate(s).value;
    TwoDigitsCanonical(s[5..7]);
    TwoDigitsCanonical(s[8..]);
    FourDigitsCanonical(s[..4]);
    assert s == s[..4] + "-" + s[5..7] + "-" + s[8..];
  }

  lemma TwoDigitsCanonical(s: string)
    requires |s| == 2 && AllDigits(s)
    ensures ParseNat(s) < 100 && Pad2(ParseNat(s)) == s
  {
    var d1, d2 := DigitValue(s[0]), DigitValue(s[1]);
    assert s == [DigitChar(d1), DigitChar(d2)];
    ParseNatTwoDigits(d1, d2);
  }

  lemma FourDigitsCanonical(s: string)
    requires |s| == 4 && AllDigits(s)
    ensures ParseNat(s) < 10000 && Pad4(ParseNat(s)) == s
  {
    var d1, d2, d3, d4 := DigitValue(s[0]), DigitValue(s[1]), DigitValue(s[2]), DigitValue(s[3]);
    assert s == [DigitChar(d1), DigitChar(d2), DigitChar(d3), DigitChar(d4)];
    ParseNatTwoDigits(d1, d2);
    assert s[..2] == [DigitChar(d1), DigitChar(d2)];
    assert s[..3][..2] == s[..2];
    assert ParseNat(s[..3]) == (d1 * 10 + d2) * 10 + d3;
    assert s[..3] == s[..|s| - 1];
    assert ParseNat(s) == ((d1 * 10 + d2) * 10 + d3) * 10 + d4;
    DivBy10((d1 * 10 + d2) * 10 + d3, d4);
    DivBy10(d1 * 10 + d2, d3);
    DivBy10(d1, d2);
  }


  const MonthAbbrevs: seq<string> :=
    ["Jan", "Feb", "Mar", "Apr", "May", "Jun", "Jul", "Aug", "Sep", "Oct", "Nov", "Dec"]

  /** The date as printed in the report: day, abbreviated month and year, e.g. "05-Mar-2026". */
  function DayMonthYear(t: Date): (s: string)
    requires ValidDate(t)
    ensures |s| == 11 && s[2] == '-' && s[6] == '-' && s[3..6] == MonthAbbrevs[t.month - 1]
  {
    Pad2(t.day) + "-" + MonthAbbrevs[t.month - 1] + "-" + Pad4(t.year)
  }

  /** The printed form tells dates apart: different dates never print alike. */
  lemma DayMonthYearInjective(t: Date, u: Date)
    requires ValidDate(t) && ValidDate(u) && DayMonthYear(t) == DayMonthYear(u)
    ensures t == u
  {
    var s := DayMonthYear(t);
    assert s[..2] == Pad2(t.day) && DayMonthYear(u)[..2] == Pad2(u.day);
    assert s[7..] == Pad4(t.year) && DayMonthYear(u)[7..] == Pad4(u.year);
    ParsePad2(t.day);
    ParsePad2(u.day);
    ParsePad4(t.year);
    ParsePad4(u.year);
    assert MonthAbbrevs[t.month - 1] == MonthAbbrevs[u.month - 1];
  }

  lemma DateExample()
    ensures IsoDate(Date(2026, 3, 5)) == "2026-03-05"
    ensures DayMonthYear(Date(2026, 3, 5)) == "05-Mar-2026"
  {
  }
}
