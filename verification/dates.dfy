/** Calendar dates as the screens handle them: record dates in `DD-MM-YYYY`, date-input
    values in ISO `YYYY-MM-DD`, and the default report range "first of this month through
    today". A date is a (year, month, day) triple compared lexicographically; time of day
    and time zones are not modelled. */
module Dates {
  import opened Options
  import opened Text

  datatype Date = Date(year: int, month: int, day: int)

  /** Chronological order on triples. */
  predicate Le(a: Date, b: Date)
  {
    a.year < b.year
    || (a.year == b.year && a.month < b.month)
    || (a.year == b.year && a.month == b.month && a.day <= b.day)
  }

  predicate Lt(a: Date, b: Date) { Le(a, b) && a != b }

  /** What a clock reading (`new Date()`) yields: a non-negative year, month 1-12, day 1-31. */
  predicate IsClockDate(d: Date)
  {
    d.year >= 0 && 1 <= d.month <= 12 && 1 <= d.day <= 31
  }

  /** A clock date whose year has exactly four digits, as ISO `YYYY-MM-DD` needs. */
  predicate IsFourDigitYear(d: Date)
  {
    IsClockDate(d) && 1000 <= d.year <= 9999
  }

  /** `${year}-${pad2(month)}-${pad2(day)}`, the string a date input holds. */
  function FormatIso(d: Date): (s: string)
    requires IsClockDate(d)
    ensures IsFourDigitYear(d) ==> |s| == 10 && s[4] == '-' && s[7] == '-'
    ensures forall i :: 0 <= i < |s| ==> IsAsciiDigit(s[i]) || s[i] == '-'
  {
    DecimalString(d.year) + "-" + PadTwo(d.month) + "-" + PadTwo(d.day)
  }

  /** `slice(0, 10)` of a timestamp that starts with a four-digit-year ISO date is that date. */
  lemma IsoDateOfTimestamp(d: Date, time: string)
    requires IsFourDigitYear(d)
    ensures Prefix(FormatIso(d) + time, 10) == FormatIso(d)
  {
    Utf16LengthOfBmp(FormatIso(d));
    PrefixOfAppend(FormatIso(d), time, 10);
  }

  /** `new Date(s)` for a date-input value: exactly `YYYY-MM-DD` with month 1-12 and day
      1-31 is a date; anything else is an invalid date (`None`). */
  function ParseIso(s: string): (r: Option<Date>)
    ensures r.Some? ==> IsClockDate(r.value)
  {
    if |s| == 10 && s[4] == '-' && s[7] == '-'
       && AllDigits(s[..4]) && AllDigits(s[5..7]) && AllDigits(s[8..])
    then
      var y := DecimalValue(s[..4]);
      var m := DecimalValue(s[5..7]);
      var d := DecimalValue(s[8..]);
      if 1 <= m <= 12 && 1 <= d <= 31 then Some(Date(y, m, d)) else None
    else None
  }

  /** A formatted date reads back as the same date. */
  lemma IsoRoundTrip(d: Date)
    requires IsFourDigitYear(d)
    ensures ParseIso(FormatIso(d)) == Some(d)
  {
    var s := FormatIso(d);
    DecimalRoundTrip(d.year);
    assert s[..4] == DecimalString(d.year);
    assert s[5..7] == PadTwo(d.month);
    assert s[8..] == PadTwo(d.day);
  }

  /** How the return-order screen reads a record's `DD-MM-YYYY` date:
      `parts = date.split('-')` then `new Date(parts[2], parts[1] - 1, parts[0])`.
      Each field goes through `Number`: white space around it is ignored and a blank field
      is 0. A missing field or one `Number` does not read as a whole number makes the date
      invalid (`None`); a year 0-99 is taken as 1900-1999, as the `Date` constructor does. */
  function ParseDayMonthYear(s: string): (r: Option<Date>)
    ensures r.Some? ==> r.value.year >= 100 && r.value.month >= 0 && r.value.day >= 0
  {
    var parts := Split(s, '-');
    if |parts| < 3 then None
    else
      var day := ParseNatural(parts[0]);
      var month := ParseNatural(parts[1]);
      var year := ParseNatural(parts[2]);
      if day.None? || month.None? || year.None? then None
      else Some(Date(if year.value <= 99 then 1900 + year.value else year.value, month.value, day.value))
  }

  /** The `DD-MM-YYYY` form the backend sends for return orders. */
  function FormatDayMonthYear(d: Date): string
    requires IsClockDate(d)
  {
    PadTwo(d.day) + "-" + PadTwo(d.month) + "-" + DecimalString(d.year)
  }

  /** A record date the backend wrote in `DD-MM-YYYY` (year 100 or later) parses back to itself. */
  lemma DayMonthYearRoundTrip(d: Date)
    requires IsClockDate(d) && d.year >= 100
    ensures ParseDayMonthYear(FormatDayMonthYear(d)) == Some(d)
  {
    var parts := [PadTwo(d.day), PadTwo(d.month), DecimalString(d.year)];
    assert Join(parts, '-') == FormatDayMonthYear(d) by {
      assert Join(parts[1..], '-') == PadTwo(d.month) + "-" + DecimalString(d.year) by {
        assert parts[1..][1..] == [DecimalString(d.year)];
      }
    }
    assert forall i, j :: 0 <= i < |parts| && 0 <= j < |parts[i]| ==> IsAsciiDigit(parts[i][j]);
    JoinSplit(parts, '-');
    DecimalRoundTrip(d.year);
  }

  /** A record date is valid exactly when `split('-')` gives at least three parts and
      `Number` reads each of the first three as a whole number. */
  lemma DayMonthYearValid(s: string)
    ensures ParseDayMonthYear(s).Some? <==>
              var parts := Split(s, '-');
              |parts| >= 3 && IsWholeNumeral(parts[0]) && IsWholeNumeral(parts[1]) && IsWholeNumeral(parts[2])
  {
    var parts := Split(s, '-');
    if |parts| >= 3 {
      var day, month, year := ParseNatural(parts[0]), ParseNatural(parts[1]), ParseNatural(parts[2]);
      assert ParseDayMonthYear(s).Some? <==> day.Some? && month.Some? && year.Some?;
      ParseNaturalAccepts(parts[0]);
      ParseNaturalAccepts(parts[1]);
      ParseNaturalAccepts(parts[2]);
    }
  }

  /** Three fields free of `-`, joined with `-`, split back into those fields. */
  lemma SplitThreeFields(a: string, b: string, c: string)
    requires forall j :: 0 <= j < |a| ==> a[j] != '-'
    requires forall j :: 0 <= j < |b| ==> b[j] != '-'
    requires forall j :: 0 <= j < |c| ==> c[j] != '-'
    ensures Split(a + "-" + b + "-" + c, '-') == [a, b, c]
  {
    var parts := [a, b, c];
    var tail := parts[1..];
    assert tail == [b, c] && tail[1..] == [c];
    assert Join(tail, '-') == b + ['-'] + c;
    assert Join(parts, '-') == a + ['-'] + (b + ['-'] + c);
    assert a + "-" + b + "-" + c == a + ['-'] + (b + ['-'] + c);
    forall i, j | 0 <= i < |parts| && 0 <= j < |parts[i]| ensures parts[i][j] != '-'
    {
      if i == 0 { assert parts[i] == a; } else if i == 1 { assert parts[i] == b; } else { assert parts[i] == c; }
    }
    JoinSplit(parts, '-');
  }

  /** A field of white space and digits holds no `-`. */
  lemma PaddedDigitsHaveNoDash(w1: string, digits: string, w2: string)
    requires AllWhitespace(w1) && AllWhitespace(w2) && AllDigits(digits)
    ensures var day := w1 + digits + w2; forall j :: 0 <= j < |day| ==> day[j] != '-'
  {
    var day := w1 + digits + w2;
    forall j | 0 <= j < |day| ensures day[j] != '-'
    {
      if j < |w1| { assert day[j] == w1[j]; }
      else if j < |w1| + |digits| { assert day[j] == digits[j - |w1|]; }
      else { assert day[j] == w2[j - |w1| - |digits|]; }
    }
  }

  /** The day field goes through `Number`: white space around it is skipped, and a blank
      day reads as 0 (so `"-06-2024"` is day 0 of June, which `Date` turns into 31 May). */
  lemma DayFieldReadByNumber(w1: string, digits: string, w2: string, month: nat, year: nat)
    requires AllWhitespace(w1) && AllWhitespace(w2) && AllDigits(digits)
    requires 1 <= month <= 12 && year >= 100
    ensures ParseDayMonthYear(w1 + digits + w2 + "-" + PadTwo(month) + "-" + DecimalString(year))
            == Some(Date(year, month, DecimalValue(digits)))
  {
    var day := w1 + digits + w2;
    var s := day + "-" + PadTwo(month) + "-" + DecimalString(year);
    PaddedDigitsHaveNoDash(w1, digits, w2);
    SplitThreeFields(day, PadTwo(month), DecimalString(year));
    ParseNaturalIgnoresWhitespace(w1, digits, w2);
    DecimalRoundTrip(year);
    assert Split(s, '-') == [day, PadTwo(month), DecimalString(year)];
  }

  /** Values of the two date inputs. */
  datatype DateRange = DateRange(startDate: string, endDate: string)

  /** Report range used when a date is missing: day 01 of the current month through today,
      written `YYYY-MM-DD` with month and day padded to two digits. */
  function CurrentMonthRange(today: Date): (r: DateRange)
    requires IsClockDate(today)
    ensures r.startDate != "" && r.endDate != ""
    ensures IsFourDigitYear(today) ==>
              && ParseIso(r.startDate) == Some(Date(today.year, today.month, 1))
              && ParseIso(r.endDate) == Some(today)
              && r.startDate[..8] == r.endDate[..8]
              && r.startDate[8..] == "01"
  {
    var first := Date(today.year, today.month, 1);
    var r := DateRange(FormatIso(first), FormatIso(today));
    if IsFourDigitYear(today) then
      IsoRoundTrip(first);
      IsoRoundTrip(today);
      assert r.startDate[8..] == PadTwo(1);
      r
    else r
  }
}
