// Points in time, their RFC 3339 text (section 5.6) and why comparing the text is
// comparing the times (section 5.1).  Go's time package is the library underneath; what is
// modelled is how sk8l uses it: UTC, whole seconds in the text, unset times as "".
module Rfc3339 {
  import opened Common
  import opened Strings

  type Nanos = n: nat | n < 1_000_000_000

  // An instant in UTC, counted from 0000-01-01T00:00:00Z of the proleptic Gregorian calendar.
  datatype Time = Time(sec: nat, nsec: Nanos)

  const DAY := 86_400

  // Go's zero time, 0001-01-01T00:00:00Z: year 0 is a leap year.
  const ZERO_TIME := Time(366 * DAY, 0)

  predicate IsZero(t: Time) { t == ZERO_TIME }

  function Truncate(t: Time): Time { Time(t.sec, 0) }

  // ---------- the calendar ----------

  datatype Civil = Civil(year: nat, month: nat, day: nat, hour: nat, minute: nat, second: nat)

  predicate Leap(y: nat) { y % 4 == 0 && (y % 100 != 0 || y % 400 == 0) }

  function DaysInYear(y: nat): nat { if Leap(y) then 366 else 365 }

  function DaysInMonth(y: nat, m: nat): nat
    requires 1 <= m <= 12
  {
    if m == 2 then (if Leap(y) then 29 else 28)
    else if m == 4 || m == 6 || m == 9 || m == 11 then 30
    else 31
  }

  function DaysBeforeYear(y: nat): nat {
    if y == 0 then 0 else DaysBeforeYear(y - 1) + DaysInYear(y - 1)
  }

  function DaysBeforeMonth(y: nat, m: nat): nat
    requires 1 <= m <= 13
  {
    if m == 1 then 0 else DaysBeforeMonth(y, m - 1) + DaysInMonth(y, m - 1)
  }

  predicate Valid(c: Civil) {
    && 1 <= c.month <= 12
    && 1 <= c.day <= DaysInMonth(c.year, c.month)
    && c.hour < 24 && c.minute < 60 && c.second < 60
  }

  function Seconds(c: Civil): nat
    requires Valid(c)
  {
    (DaysBeforeYear(c.year) + DaysBeforeMonth(c.year, c.month) + c.day - 1) * DAY
    + c.hour * 3600 + c.minute * 60 + c.second
  }

  function FindYear(days: nat, y: nat): (r: (nat, nat))
    ensures r.1 < DaysInYear(r.0) && r.0 >= y
    ensures DaysBeforeYear(r.0) + r.1 == DaysBeforeYear(y) + days
    decreases days
  {
    if days < DaysInYear(y) then (y, days) else FindYear(days - DaysInYear(y), y + 1)
  }

  function FindMonth(y: nat, days: nat, m: nat): (r: (nat, nat))
    requires 1 <= m <= 12 && DaysBeforeMonth(y, m) + days < DaysInYear(y)
    ensures m <= r.0 <= 12 && r.1 < DaysInMonth(y, r.0)
    ensures DaysBeforeMonth(y, r.0) + r.1 == DaysBeforeMonth(y, m) + days
    decreases 12 - m
  {
    YearIsTwelveMonths(y);
    if days < DaysInMonth(y, m) then (m, days) else
      assert m < 12;
      FindMonth(y, days - DaysInMonth(y, m), m + 1)
  }

  lemma YearIsTwelveMonths(y: nat)
    ensures DaysBeforeMonth(y, 13) == DaysInYear(y)
  {
    assert DaysBeforeMonth(y, 2) == 31;
    assert DaysBeforeMonth(y, 3) == 31 + DaysInMonth(y, 2);
    assert DaysBeforeMonth(y, 5) == DaysBeforeMonth(y, 3) + 61;
    assert DaysBeforeMonth(y, 7) == DaysBeforeMonth(y, 5) + 61;
    assert DaysBeforeMonth(y, 9) == DaysBeforeMonth(y, 7) + 62;
    assert DaysBeforeMonth(y, 11) == DaysBeforeMonth(y, 9) + 61;
  }

  // The UTC date and time of day of an instant.
  function CivilOf(sec: nat): (c: Civil)
    ensures Valid(c) && Seconds(c) == sec
  {
    var (y, dayOfYear) := FindYear(sec / DAY, 0);
    var (m, d) := FindMonth(y, dayOfYear, 1);
    var rest := sec % DAY;
    Civil(y, m, d + 1, rest / 3600, rest % 3600 / 60, rest % 60)
  }

  // ---------- the Gregorian calendar ----------

  // How many multiples of n there are below y, 0 included.
  function Multiples(y: nat, n: nat): nat
    requires n > 0
  {
    (y + n - 1) / n
  }

  lemma OneMultipleMore(y: nat, n: nat)
    requires n > 0
    ensures Multiples(y + 1, n) == Multiples(y, n) + if y % n == 0 then 1 else 0
  {
    var q, r := y / n, y % n;
    assert y == q * n + r;
    if r == 0 {
      QuotientIs(y + n, n, q + 1, 0);
      QuotientIs(y + n - 1, n, q, n - 1);
    } else {
      QuotientIs(y + n, n, q + 1, r);
      QuotientIs(y + n - 1, n, q + 1, r - 1);
    }
  }

  lemma QuotientIs(x: nat, n: nat, q: nat, r: nat)
    requires r < n && x == q * n + r
    ensures x / n == q && x % n == r
  {
    var d := x / n - q;
    assert x == (x / n) * n + x % n;
    assert d * n == r - x % n;
    ScaledAway(d, n);
  }

  lemma ScaledAway(d: int, n: nat)
    ensures d >= 1 ==> d * n >= n
    ensures d <= -1 ==> d * n + n <= 0
  {
  }

  lemma MultiplesNest(y: nat)
    ensures y % 400 == 0 ==> y % 100 == 0
    ensures y % 100 == 0 ==> y % 4 == 0
  {
    if y % 400 == 0 { QuotientIs(y, 100, 4 * (y / 400), 0); }
    if y % 100 == 0 { QuotientIs(y, 4, 25 * (y / 100), 0); }
  }

  // The days before a year, by the rule of leap years: every fourth, not every hundredth, but
  // every four-hundredth.
  function DaysBefore(y: nat): int {
    365 * y + Multiples(y, 4) - Multiples(y, 100) + Multiples(y, 400)
  }

  lemma {:induction false} DaysOfYears(y: nat)
    ensures DaysBeforeYear(y) == DaysBefore(y)
  {
    if y > 0 {
      DaysOfYears(y - 1);
      OneMultipleMore(y - 1, 4);
      OneMultipleMore(y - 1, 100);
      OneMultipleMore(y - 1, 400);
      MultiplesNest(y - 1);
    }
  }

  // The days before each month; after February a leap year has one more.
  lemma MonthStarts(y: nat)
    ensures var leap := DaysBeforeYear(y + 1) - DaysBeforeYear(y) - 365;
      && 0 <= leap <= 1
      && DaysBeforeMonth(y, 1) == 0 && DaysBeforeMonth(y, 2) == 31 && DaysBeforeMonth(y, 3) == 59 + leap
      && DaysBeforeMonth(y, 4) == 90 + leap && DaysBeforeMonth(y, 5) == 120 + leap
      && DaysBeforeMonth(y, 6) == 151 + leap && DaysBeforeMonth(y, 7) == 181 + leap
      && DaysBeforeMonth(y, 8) == 212 + leap && DaysBeforeMonth(y, 9) == 243 + leap
      && DaysBeforeMonth(y, 10) == 273 + leap && DaysBeforeMonth(y, 11) == 304 + leap
      && DaysBeforeMonth(y, 12) == 334 + leap && DaysBeforeMonth(y, 13) == 365 + leap
  {
    assert DaysBeforeMonth(y, 2) == 31;
    assert DaysBeforeMonth(y, 3) == 31 + DaysInMonth(y, 2);
    assert DaysBeforeMonth(y, 5) == DaysBeforeMonth(y, 4) + 30;
    assert DaysBeforeMonth(y, 7) == DaysBeforeMonth(y, 6) + 30;
    assert DaysBeforeMonth(y, 9) == DaysBeforeMonth(y, 8) + 31;
    assert DaysBeforeMonth(y, 11) == DaysBeforeMonth(y, 10) + 31;
    assert DaysBeforeMonth(y, 13) == DaysBeforeMonth(y, 12) + 31;
  }

  lemma ClockFields(seconds: nat)
    requires seconds < 86_400
    ensures seconds / 3600 < 24 && seconds % 3600 / 60 < 60
    ensures seconds / 3600 * 3600 + seconds % 3600 / 60 * 60 + seconds % 60 == seconds
  {
  }

  lemma SecondsOfFirstDay(y: nat, seconds: nat, c: Civil)
    requires seconds < 86_400
    requires c == Civil(y, 1, 1, seconds / 3600, seconds % 3600 / 60, seconds % 60)
    ensures Valid(c) && Seconds(c) == DaysBefore(y) * 86_400 + seconds
  {
    ClockFields(seconds);
    DaysOfYears(y);
    assert DaysBeforeMonth(y, 1) == 0;
  }

  // The instants of the first day of a year.
  lemma FirstDay(y: nat, seconds: nat, instant: nat)
    requires seconds < 86_400 && instant == DaysBefore(y) * 86_400 + seconds
    ensures CivilOf(instant) == Civil(y, 1, 1, seconds / 3600, seconds % 3600 / 60, seconds % 60)
  {
    var c := Civil(y, 1, 1, seconds / 3600, seconds % 3600 / 60, seconds % 60);
    SecondsOfFirstDay(y, seconds, c);
    DatesOrderLikeSeconds(CivilOf(instant), c);
  }

  // The Unix epoch.
  lemma UnixEpoch(instant: nat)
    requires instant == 62_167_219_200
    ensures CivilOf(instant) == Civil(1970, 1, 1, 0, 0, 0)
  {
    assert DaysBefore(1970) == 719_528;
    FirstDay(1970, 0, instant);
  }

  // Go's zero time.
  lemma ZeroTimeIsYearOne(instant: nat)
    requires instant == ZERO_TIME.sec
    ensures CivilOf(instant) == Civil(1, 1, 1, 0, 0, 0)
  {
    assert DaysBefore(1) == 366;
    FirstDay(1, 0, instant);
  }

  // ---------- dates order field by field ----------

  predicate ClockLess(a: Civil, b: Civil) {
    a.hour < b.hour || (a.hour == b.hour && (
      a.minute < b.minute || (a.minute == b.minute && a.second < b.second)))
  }

  predicate CivilLess(a: Civil, b: Civil) {
    a.year < b.year || (a.year == b.year && (
      a.month < b.month || (a.month == b.month && (
        a.day < b.day || (a.day == b.day && ClockLess(a, b))))))
  }

  lemma {:induction false} LaterYear(y: nat, z: nat)
    requires y < z
    ensures DaysBeforeYear(y) + DaysInYear(y) <= DaysBeforeYear(z)
  {
    if y + 1 < z { LaterYear(y, z - 1); }
  }

  lemma {:induction false} LaterMonth(y: nat, m: nat, n: nat)
    requires 1 <= m < n <= 13
    ensures DaysBeforeMonth(y, m) + DaysInMonth(y, m) <= DaysBeforeMonth(y, n)
  {
    if m + 1 < n { LaterMonth(y, m, n - 1); }
  }

  lemma EarlierDateIsEarlier(a: Civil, b: Civil)
    requires Valid(a) && Valid(b) && CivilLess(a, b)
    ensures Seconds(a) < Seconds(b)
  {
    YearIsTwelveMonths(a.year);
    LaterMonth(a.year, a.month, 13);
    if a.year < b.year {
      LaterYear(a.year, b.year);
    } else if a.month < b.month {
      LaterMonth(a.year, a.month, b.month);
    }
  }

  lemma DatesOrderLikeSeconds(a: Civil, b: Civil)
    requires Valid(a) && Valid(b)
    ensures CivilLess(a, b) <==> Seconds(a) < Seconds(b)
    ensures a == b <==> Seconds(a) == Seconds(b)
  {
    if CivilLess(a, b) {
      EarlierDateIsEarlier(a, b);
    } else if CivilLess(b, a) {
      EarlierDateIsEarlier(b, a);
    } else {
      assert a == b;
    }
  }

  // ---------- the text ----------

  // Go pads the year to four digits and lets it grow beyond them.
  function YearText(y: nat): string {
    if y < 10_000 then Digits(y, 4) else YearText(y / 10) + [DigitChar(y % 10)]
  }

  // YYYY-MM-DDTHH:MM:SSZ, built from the right.
  function SecondText(c: Civil): string { Digits(c.second, 2) + "Z" }
  function MinuteText(c: Civil): string { Digits(c.minute, 2) + (":" + SecondText(c)) }
  function HourText(c: Civil): string { Digits(c.hour, 2) + (":" + MinuteText(c)) }
  function DayText(c: Civil): string { Digits(c.day, 2) + ("T" + HourText(c)) }
  function MonthText(c: Civil): string { Digits(c.month, 2) + ("-" + DayText(c)) }
  function CivilText(c: Civil): string { YearText(c.year) + ("-" + MonthText(c)) }

  // t.UTC().Format(time.RFC3339)
  function Format(t: Time): string { CivilText(CivilOf(t.sec)) }

  // mapper.TimeToString
  function TimeToString(t: Option<Time>): string {
    if t.None? || IsZero(t.value) then "" else Format(t.value)
  }

  // The years RFC 3339 can write: four digits.
  predicate FourDigitYear(t: Time) { CivilOf(t.sec).year < 10_000 }

  // The layout of the UTC form: separators and runs of digits.
  predicate Shaped(s: string) {
    && |s| == 20
    && s[4] == '-' && s[7] == '-' && s[10] == 'T' && s[13] == ':' && s[16] == ':' && s[19] == 'Z'
    && AllDigits(s[0..4]) && AllDigits(s[5..7]) && AllDigits(s[8..10])
    && AllDigits(s[11..13]) && AllDigits(s[14..16]) && AllDigits(s[17..19])
  }

  function FieldsOf(s: string): Civil
    requires Shaped(s)
  {
    Civil(Number(s[0..4]), Number(s[5..7]), Number(s[8..10]), Number(s[11..13]), Number(s[14..16]), Number(s[17..19]))
  }

  // time.Parse(time.RFC3339, s) on the UTC form that Format writes.
  function Parse(s: string): Option<Time> {
    if Shaped(s) && Valid(FieldsOf(s)) then Some(Time(Seconds(FieldsOf(s)), 0)) else None
  }

  lemma Pow10Values()
    ensures Pow10(2) == 100 && Pow10(4) == 10_000
  {
    assert Pow10(1) == 10 && Pow10(3) == 10 * Pow10(2);
  }

  lemma CutField(s: string, field: string, sep: char, rest: string)
    requires s == field + ([sep] + rest)
    ensures s[..|field|] == field && s[|field|] == sep && s[|field| + 1..] == rest
  {
  }

  lemma FixedWidth(c: Civil)
    requires Valid(c) && c.year < 10_000
    ensures var s := CivilText(c);
      && |s| == 20
      && s[0..4] == Digits(c.year, 4) && s[5..7] == Digits(c.month, 2) && s[8..10] == Digits(c.day, 2)
      && s[11..13] == Digits(c.hour, 2) && s[14..16] == Digits(c.minute, 2) && s[17..19] == Digits(c.second, 2)
      && s[4] == '-' && s[7] == '-' && s[10] == 'T' && s[13] == ':' && s[16] == ':' && s[19] == 'Z'
  {
    var s := CivilText(c);
    CutField(s, Digits(c.year, 4), '-', MonthText(c));
    CutField(MonthText(c), Digits(c.month, 2), '-', DayText(c));
    assert s[8..] == DayText(c) by { assert s[8..] == s[5..][3..]; }
    CutField(DayText(c), Digits(c.day, 2), 'T', HourText(c));
    assert s[11..] == HourText(c) by { assert s[11..] == s[8..][3..]; }
    CutField(HourText(c), Digits(c.hour, 2), ':', MinuteText(c));
    assert s[14..] == MinuteText(c) by { assert s[14..] == s[11..][3..]; }
    CutField(MinuteText(c), Digits(c.minute, 2), ':', SecondText(c));
    assert s[17..] == SecondText(c) by { assert s[17..] == s[14..][3..]; }
    TwoCharSlices(s);
  }

  lemma TwoCharSlices(s: string)
    requires |s| == 20
    ensures s[5..7] == s[5..][..2] && s[8..10] == s[8..][..2] && s[11..13] == s[11..][..2]
    ensures s[14..16] == s[14..][..2] && s[17..19] == s[17..][..2]
    ensures s[7] == s[5..][2] && s[10] == s[8..][2] && s[13] == s[11..][2]
    ensures s[16] == s[14..][2] && s[19] == s[17..][2]
  {
  }

  lemma FieldsOfText(c: Civil)
    requires Valid(c) && c.year < 10_000
    ensures Shaped(CivilText(c)) && FieldsOf(CivilText(c)) == c
  {
    FixedWidth(c);
    Pow10Values();
    SmallDays(c);
  }

  lemma SmallDays(c: Civil)
    requires Valid(c)
    ensures c.month < 100 && c.day < 100
  {
  }

  // Parsing a printed time gives it back, truncated to seconds.
  lemma ParsePrinted(t: Time)
    requires FourDigitYear(t)
    ensures Parse(Format(t)) == Some(Truncate(t))
  {
    FieldsOfText(CivilOf(t.sec));
  }

  lemma PasteField(s: string, k: nat, w: nat)
    requires k + w < |s|
    ensures s[k..] == s[k..k + w] + ([s[k + w]] + s[k + w + 1..])
  {
  }

  lemma PrintedFields(s: string)
    requires Shaped(s)
    ensures var c := FieldsOf(s);
      && c.year < 10_000 && s[0..4] == YearText(c.year)
      && s[5..7] == Digits(c.month, 2) && s[8..10] == Digits(c.day, 2)
      && s[11..13] == Digits(c.hour, 2) && s[14..16] == Digits(c.minute, 2) && s[17..19] == Digits(c.second, 2)
  {
    Pow10Values();
    NumberBound(s[0..4]);
    DigitsOfNumber(s[0..4]); DigitsOfNumber(s[5..7]); DigitsOfNumber(s[8..10]);
    DigitsOfNumber(s[11..13]); DigitsOfNumber(s[14..16]); DigitsOfNumber(s[17..19]);
  }

  lemma ClockPieces(s: string, c: Civil)
    requires |s| == 20 && s[13] == ':' && s[16] == ':' && s[19] == 'Z'
    requires s[11..13] == Digits(c.hour, 2) && s[14..16] == Digits(c.minute, 2) && s[17..19] == Digits(c.second, 2)
    ensures s[11..] == HourText(c)
  {
    PasteField(s, 17, 2);
    assert s[20..] == "" && "Z" + "" == "Z";
    assert s[17..] == SecondText(c);
    PasteField(s, 14, 2);
    assert s[14..] == MinuteText(c);
    PasteField(s, 11, 2);
  }

  lemma DatePieces(s: string, c: Civil)
    requires |s| == 20 && s[4] == '-' && s[7] == '-' && s[10] == 'T' && s[11..] == HourText(c)
    requires s[0..4] == YearText(c.year) && s[5..7] == Digits(c.month, 2) && s[8..10] == Digits(c.day, 2)
    ensures s == CivilText(c)
  {
    PasteField(s, 8, 2);
    assert s[8..] == DayText(c);
    PasteField(s, 5, 2);
    assert s[5..] == MonthText(c);
    PasteField(s, 0, 4);
    assert s[0..] == s;
  }

  lemma TextOfFields(s: string)
    requires Shaped(s)
    ensures CivilText(FieldsOf(s)) == s && FieldsOf(s).year < 10_000
  {
    PrintedFields(s);
    ClockPieces(s, FieldsOf(s));
    DatePieces(s, FieldsOf(s));
  }

  // Whatever parses is the text of the time it parses to.
  lemma PrintParsed(s: string)
    requires Parse(s).Some?
    ensures FourDigitYear(Parse(s).value) && Format(Parse(s).value) == s
  {
    var c := FieldsOf(s);
    TextOfFields(s);
    DatesOrderLikeSeconds(CivilOf(Seconds(c)), c);
  }

  lemma FieldsOrder(a: nat, b: nat, w: nat, sep: string, x: string, y: string)
    requires a < Pow10(w) && b < Pow10(w)
    ensures StrLess(Digits(a, w) + (sep + x), Digits(b, w) + (sep + y)) <==> a < b || (a == b && StrLess(x, y))
  {
    StrLessFields(sep, sep, x, y);
    StrLessFields(Digits(a, w), Digits(b, w), sep + x, sep + y);
    DigitStringsOrderNumerically(Digits(a, w), Digits(b, w));
  }

  lemma ClockTextOrder(a: Civil, b: Civil)
    requires Valid(a) && Valid(b)
    ensures StrLess(HourText(a), HourText(b)) <==> ClockLess(a, b)
  {
    assert Pow10(2) == 100 by { Pow10Values(); }
    assert StrLess(SecondText(a), SecondText(b)) <==> a.second < b.second by {
      FieldsOrder(a.second, b.second, 2, "Z", "", "");
      assert "Z" + "" == "Z";
    }
    FieldsOrder(a.minute, b.minute, 2, ":", SecondText(a), SecondText(b));
    FieldsOrder(a.hour, b.hour, 2, ":", MinuteText(a), MinuteText(b));
  }

  lemma MonthTextOrder(a: Civil, b: Civil)
    requires Valid(a) && Valid(b)
    ensures StrLess(MonthText(a), MonthText(b)) <==>
      a.month < b.month || (a.month == b.month && (a.day < b.day || (a.day == b.day && ClockLess(a, b))))
  {
    assert Pow10(2) == 100 by { Pow10Values(); }
    SmallDays(a);
    SmallDays(b);
    ClockTextOrder(a, b);
    FieldsOrder(a.day, b.day, 2, "T", HourText(a), HourText(b));
    FieldsOrder(a.month, b.month, 2, "-", DayText(a), DayText(b));
  }

  lemma TextOrder(a: Civil, b: Civil)
    requires Valid(a) && Valid(b) && a.year < 10_000 && b.year < 10_000
    ensures StrLess(CivilText(a), CivilText(b)) <==> CivilLess(a, b)
  {
    assert Pow10(4) == 10_000 by { Pow10Values(); }
    MonthTextOrder(a, b);
    FieldsOrder(a.year, b.year, 4, "-", MonthText(a), MonthText(b));
  }

  // Printed times order as strings exactly as the instants order, to the second.
  lemma FormatOrdersChronologically(a: Time, b: Time)
    requires FourDigitYear(a) && FourDigitYear(b)
    ensures StrLess(Format(a), Format(b)) <==> a.sec < b.sec
    ensures Format(a) == Format(b) <==> a.sec == b.sec
  {
    var ca, cb := CivilOf(a.sec), CivilOf(b.sec);
    TextOrder(ca, cb);
    DatesOrderLikeSeconds(ca, cb);
    ParsePrinted(a); ParsePrinted(b);
  }

  // A year of five digits or more does not fit the layout.
  lemma WideYearsDoNotParse(t: Time)
    requires !FourDigitYear(t)
    ensures Parse(Format(t)) == None
  {
    var c := CivilOf(t.sec);
    assert |YearText(c.year / 10)| >= 4 by { YearTextIsItsNumber(c.year / 10); }
    assert |MonthText(c)| == 15;
  }

  // Parsing gives the time that was printed, for a set time of a four-digit year, and nothing else.
  lemma ParseOfText(t: Time)
    ensures Parse(TimeToString(Some(t))) ==
      if !IsZero(t) && FourDigitYear(t) then Some(Time(t.sec, 0)) else None
  {
    if FourDigitYear(t) { ParsePrinted(t); } else { WideYearsDoNotParse(t); }
  }

  // ---------- optional times ----------

  predicate Unset(t: Option<Time>) { t.None? || IsZero(t.value) }

  // Unset times first, then by whole seconds.
  predicate Before(a: Option<Time>, b: Option<Time>) {
    !Unset(b) && (Unset(a) || a.value.sec < b.value.sec)
  }

  predicate Writable(t: Option<Time>) { t.Some? ==> FourDigitYear(t.value) }

  lemma FormatIsNotEmpty(t: Time)
    ensures Format(t) != ""
  {
    assert |CivilText(CivilOf(t.sec))| >= 1;
  }

  // The string order of TimeToString is the chronological order with unset times first.
  lemma TimeToStringOrdersChronologically(a: Option<Time>, b: Option<Time>)
    requires Writable(a) && Writable(b)
    ensures StrLess(TimeToString(a), TimeToString(b)) <==> Before(a, b)
    ensures TimeToString(a) == TimeToString(b) <==> !Before(a, b) && !Before(b, a)
  {
    if !Unset(a) && !Unset(b) {
      FormatOrdersChronologically(a.value, b.value);
    }
    if !Unset(a) { FormatIsNotEmpty(a.value); }
    if !Unset(b) { FormatIsNotEmpty(b.value); }
  }

  // Parse-then-compare, with Go's zero time for text that does not parse.
  function ParseOrZero(s: string): Time {
    match Parse(s)
    case Some(t) => t
    case None => ZERO_TIME
  }

  // The string sort and the parse-then-compare sorts order printed times by one relation.
  lemma TwoSortsOneOrder(a: Time, b: Time)
    requires FourDigitYear(a) && FourDigitYear(b)
    ensures StrLess(Format(a), Format(b)) <==> ParseOrZero(Format(a)).sec < ParseOrZero(Format(b)).sec
  {
    ParsePrinted(a); ParsePrinted(b);
    FormatOrdersChronologically(a, b);
  }

  lemma YearDigits()
    ensures Digits(2000, 4)[0] == '2' && Digits(1000, 4)[0] == '1'
  {
    assert Digits(2, 1) == Digits(0, 0) + ['2'] && Digits(1, 1) == Digits(0, 0) + ['1'];
    assert Digits(20, 2) == Digits(2, 1) + ['0'] && Digits(10, 2) == Digits(1, 1) + ['0'];
    assert Digits(200, 3) == Digits(20, 2) + ['0'] && Digits(100, 3) == Digits(10, 2) + ['0'];
    assert Digits(2000, 4) == Digits(200, 3) + ['0'] && Digits(1000, 4) == Digits(100, 3) + ['0'];
  }

  // A fifth year digit breaks it: the year 10000 sorts before the year 2000.
  lemma FiveDigitYearsSortWrongly(a: Civil, b: Civil)
    requires a.year == 2000 && b.year == 10_000
    ensures CivilLess(a, b) && StrLess(CivilText(b), CivilText(a))
  {
    YearDigits();
    assert YearText(10_000) == Digits(1000, 4) + [DigitChar(0)];
    assert CivilText(a)[0] == Digits(2000, 4)[0] && CivilText(b)[0] == Digits(1000, 4)[0];
  }

  // ---------- years of any number of digits ----------

  lemma {:induction false} YearTextIsItsNumber(y: nat)
    ensures AllDigits(YearText(y)) && Number(YearText(y)) == y && |YearText(y)| >= 4
  {
    Pow10Values();
    if y >= 10_000 {
      YearTextIsItsNumber(y / 10);
      assert YearText(y)[..|YearText(y)| - 1] == YearText(y / 10);
    }
  }

  function DropDigits(y: nat, n: nat): nat {
    if n == 0 then y else DropDigits(y / 10, n - 1)
  }

  // The leading digits of a year are the year without its other digits.
  lemma {:induction false} LeadingDigits(y: nat, k: nat)
    requires 4 <= k <= |YearText(y)|
    ensures YearText(y)[..k] == YearText(DropDigits(y, |YearText(y)| - k))
  {
    YearTextIsItsNumber(y);
    if k < |YearText(y)| {
      LeadingDigits(y / 10, k);
      assert YearText(y)[..k] == YearText(y / 10)[..k];
    } else {
      assert YearText(y)[..k] == YearText(y);
    }
  }

  lemma {:induction false} LaterYearIsAsWide(y: nat, z: nat)
    requires y <= z
    ensures |YearText(y)| <= |YearText(z)|
  {
    if y >= 10_000 {
      LaterYearIsAsWide(y / 10, z / 10);
    } else {
      YearTextIsItsNumber(z);
    }
  }

  // y is at most the leading digits of z, as many as y has.
  predicate AtMostLeading(y: nat, z: nat) {
    |YearText(y)| <= |YearText(z)| && y <= DropDigits(z, |YearText(z)| - |YearText(y)|)
  }

  // Years of one width order as times do.
  lemma SameWidthOrder(a: Civil, b: Civil)
    requires Valid(a) && Valid(b) && |YearText(a.year)| == |YearText(b.year)|
    ensures StrLess(CivilText(a), CivilText(b)) <==> CivilLess(a, b)
  {
    YearTextIsItsNumber(a.year);
    YearTextIsItsNumber(b.year);
    MonthTextOrder(a, b);
    StrLessFields("-", "-", MonthText(a), MonthText(b));
    StrLessFields(YearText(a.year), YearText(b.year), "-" + MonthText(a), "-" + MonthText(b));
    DigitStringsOrderNumerically(YearText(a.year), YearText(b.year));
  }

  // A dash comes before any digit.
  lemma DashBeforeDigit(y: string, z: string, x: string, x': string)
    requires |y| < |z| && IsDigit(z[|y|])
    ensures StrLess(y + ("-" + x), z + x') <==> StrLess(y, z[..|y|]) || y == z[..|y|]
  {
    var k := |y|;
    assert z + x' == z[..k] + (z[k..] + x');
    StrLessFields(y, z[..k], "-" + x, z[k..] + x');
    assert ("-" + x)[0] == '-' && (z[k..] + x')[0] == z[k];
  }

  lemma YearAgainstLead(y: nat, lead: nat, text: string)
    requires text == YearText(lead) && |YearText(y)| == |text|
    ensures StrLess(YearText(y), text) || YearText(y) == text <==> y <= lead
  {
    YearTextIsItsNumber(y);
    YearTextIsItsNumber(lead);
    DigitStringsOrderNumerically(YearText(y), text);
  }

  lemma WiderYearIff(y: nat, z: nat, lead: nat)
    requires |YearText(y)| < |YearText(z)| && lead == DropDigits(z, |YearText(z)| - |YearText(y)|)
    ensures IsDigit(YearText(z)[|YearText(y)|])
    ensures StrLess(YearText(y), YearText(z)[..|YearText(y)|]) || YearText(y) == YearText(z)[..|YearText(y)|] <==> y <= lead
  {
    YearTextIsItsNumber(y);
    YearTextIsItsNumber(z);
    LeadingDigits(z, |YearText(y)|);
    YearAgainstLead(y, lead, YearText(z)[..|YearText(y)|]);
  }

  // A wider year compares by its leading digits.
  lemma WiderYearOrder(a: Civil, b: Civil)
    requires |YearText(a.year)| < |YearText(b.year)|
    ensures StrLess(CivilText(a), CivilText(b)) <==> AtMostLeading(a.year, b.year)
  {
    WiderYearIff(a.year, b.year, DropDigits(b.year, |YearText(b.year)| - |YearText(a.year)|));
    DashBeforeDigit(YearText(a.year), YearText(b.year), MonthText(a), "-" + MonthText(b));
  }

  lemma SameWidthAtMost(y: nat, z: nat)
    requires |YearText(y)| == |YearText(z)|
    ensures AtMostLeading(y, z) <==> y <= z
  {
  }

  lemma DatesOrderIff(a: Civil, b: Civil)
    requires Valid(a) && Valid(b) && CivilLess(a, b)
    ensures StrLess(CivilText(a), CivilText(b)) <==> AtMostLeading(a.year, b.year)
  {
    LaterYearIsAsWide(a.year, b.year);
    if |YearText(a.year)| < |YearText(b.year)| {
      WiderYearOrder(a, b);
    } else {
      SameWidthOrder(a, b);
      SameWidthAtMost(a.year, b.year);
    }
  }

  // For any two times, the earlier one's text comes first if and only if its year is at most
  // the leading digits, as many as it has itself, of the later one's year.  With equally wide
  // years that is always so.
  lemma FormatOrdersIff(a: Time, b: Time)
    requires a.sec < b.sec
    ensures StrLess(Format(a), Format(b)) <==> AtMostLeading(CivilOf(a.sec).year, CivilOf(b.sec).year)
  {
    DatesOrderLikeSeconds(CivilOf(a.sec), CivilOf(b.sec));
    DatesOrderIff(CivilOf(a.sec), CivilOf(b.sec));
  }
}
