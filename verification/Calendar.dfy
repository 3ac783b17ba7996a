// Civil dates as YYYY-MM-DD strings, as calendar dates and as day numbers: the validators of
// src/time-off-request/dto/submit-request.dto.ts and countBusinessDays of
// src/time-off-request/time-off-request.service.ts.
//
// Every other module speaks of day numbers; StringOrderIsDayOrder and AcceptsIff say why that loses nothing.
module Calendar {
  import opened Entities
  import opened WorkDays

  datatype Date = Date(year: nat, month: nat, day: nat)

  // ---- Day numbers (ECMA-262 sections 21.4.1.3 to 21.4.1.5 and 21.4.1.28) ---------------------------------

  function DayFromYear(y: int): int {
    365 * (y - 1970) + (y - 1969) / 4 - (y - 1901) / 100 + (y - 1601) / 400
  }

  predicate Leap(y: int) {
    y % 4 == 0 && (y % 100 != 0 || y % 400 == 0)
  }

  // Days of the year before the month begins.
  function DaysBefore(y: int, month: nat): nat
    requires 1 <= month <= 13
  {
    [0, 31, 59, 90, 120, 151, 181, 212, 243, 273, 304, 334, 365][month - 1] + if Leap(y) && month > 2 then 1 else 0
  }

  function DaysInMonth(y: int, month: nat): (days: nat)
    requires 1 <= month <= 12
    ensures month == 2 ==> days == if y % 4 == 0 && (y % 100 != 0 || y % 400 == 0) then 29 else 28
    ensures month == 4 || month == 6 || month == 9 || month == 11 ==> days == 30
    ensures month in {1, 3, 5, 7, 8, 10, 12} ==> days == 31
  {
    DaysBefore(y, month + 1) - DaysBefore(y, month)
  }

  // A year, a month and a day of the month that may overflow into the next.
  predicate Written(x: Date) {
    1 <= x.month <= 12 && 1 <= x.day <= 31
  }

  predicate Real(x: Date) {
    Written(x) && x.day <= DaysInMonth(x.year, x.month)
  }

  function DayNumber(x: Date): int
    requires Written(x)
  {
    DayFromYear(x.year) + DaysBefore(x.year, x.month) + x.day - 1
  }

  function FirstOfNextMonth(x: Date): Date
    requires Written(x)
  {
    if x.month < 12 then Date(x.year, x.month + 1, 1) else Date(x.year + 1, 1, 1)
  }

  // setUTCDate(getUTCDate() + 1)
  function NextDay(x: Date): (next: Date)
    requires Real(x)
    ensures Real(next)
  {
    if x.day < DaysInMonth(x.year, x.month) then x.(day := x.day + 1) else FirstOfNextMonth(x)
  }

  lemma By4(y: int)
    ensures (y - 1968) / 4 == (y - 1969) / 4 + if y % 4 == 0 then 1 else 0
  {
  }

  lemma By100(y: int)
    ensures (y - 1900) / 100 == (y - 1901) / 100 + if y % 100 == 0 then 1 else 0
  {
  }

  lemma By400(y: int)
    ensures (y - 1600) / 400 == (y - 1601) / 400 + if y % 400 == 0 then 1 else 0
    ensures y % 400 == 0 ==> y % 100 == 0
    ensures y % 100 == 0 ==> y % 4 == 0
  {
  }

  lemma YearHasItsDays(y: int)
    ensures DayFromYear(y + 1) == DayFromYear(y) + DaysBefore(y, 13)
  {
    By4(y);
    By100(y);
    By400(y);
  }

  lemma NextDayIsOneMore(x: Date)
    requires Real(x)
    ensures DayNumber(NextDay(x)) == DayNumber(x) + 1
  {
    YearHasItsDays(x.year);
  }

  // Where the line of days is fixed: 1970-01-01 is day 0, a Thursday, and 2026-05-01 a Friday.
  lemma KnownDays()
    ensures DayNumber(Date(1970, 1, 1)) == 0 && WeekDay(0) == 4
    ensures DayNumber(Date(2026, 5, 1)) == 20574 && WeekDay(20574) == 5
  {
  }

  // What Date makes of February 30.
  function Normalise(x: Date): (n: Date)
    requires Written(x)
    ensures Real(n) && n.year <= x.year + 1
  {
    var last := DaysInMonth(x.year, x.month);
    if x.day <= last then x else FirstOfNextMonth(x).(day := x.day - last)
  }

  lemma NormaliseKeepsTheDay(x: Date)
    requires Written(x)
    ensures DayNumber(Normalise(x)) == DayNumber(x)
    ensures Normalise(x) == x <==> Real(x)
  {
    YearHasItsDays(x.year);
  }

  // ---- Date order is day order ----------------------------------------------------------------------------

  predicate Before(a: Date, b: Date) {
    || a.year < b.year
    || (a.year == b.year && (a.month < b.month || (a.month == b.month && a.day < b.day)))
  }

  lemma {:induction false} LaterYearStartsLater(y: int, z: int)
    requires y <= z
    ensures DayFromYear(z) >= DayFromYear(y)
    decreases z - y
  {
    hide DayFromYear;
    if y < z {
      YearHasItsDays(z - 1);
      LaterYearStartsLater(y, z - 1);
    }
  }

  lemma EarlierIsSmaller(a: Date, b: Date)
    requires Real(a) && Real(b) && Before(a, b)
    ensures DayNumber(a) < DayNumber(b)
  {
    hide DayFromYear;
    if a.year < b.year {
      YearHasItsDays(a.year);
      LaterYearStartsLater(a.year + 1, b.year);
    }
  }

  lemma DateOrderIsDayOrder(a: Date, b: Date)
    requires Real(a) && Real(b)
    ensures Before(a, b) <==> DayNumber(a) < DayNumber(b)
    ensures a == b <==> DayNumber(a) == DayNumber(b)
  {
    hide DayNumber;
    if Before(a, b) {
      EarlierIsSmaller(a, b);
    } else if Before(b, a) {
      EarlierIsSmaller(b, a);
    }
  }

  // ---- Strings --------------------------------------------------------------------------------------------

  function Digit(n: nat): char
    requires n < 10
  {
    '0' + n as char
  }

  function Pad(n: nat, width: nat): (s: string)
    ensures |s| == width
    ensures forall c :: c in s ==> '0' <= c <= '9'
  {
    if width == 0 then "" else Pad(n / 10, width - 1) + [Digit(n % 10)]
  }

  // toISOString().slice(0, 10), for the years 0000 to 9999
  function Iso(x: Date): (s: string)
    ensures |s| == 10
  {
    Pad(x.year, 4) + "-" + Pad(x.month, 2) + "-" + Pad(x.day, 2)
  }

  // `<` on strings
  predicate Less(s: string, t: string) {
    t != "" && (s == "" || s[0] < t[0] || (s[0] == t[0] && Less(s[1..], t[1..])))
  }

  lemma {:induction false} LessByParts(a: string, b: string, s: string, t: string)
    requires |a| == |b|
    ensures Less(a + s, b + t) <==> Less(a, b) || (a == b && Less(s, t))
  {
    if a == "" {
      assert a + s == s && b + t == t;
    } else {
      assert (a + s)[1..] == a[1..] + s && (b + t)[1..] == b[1..] + t;
      LessByParts(a[1..], b[1..], s, t);
      assert a == [a[0]] + a[1..] && b == [b[0]] + b[1..];
    }
  }

  function Pow10(n: nat): nat {
    if n == 0 then 1 else 10 * Pow10(n - 1)
  }

  lemma {:induction false} PadOrder(m: nat, n: nat, width: nat)
    requires m < Pow10(width) && n < Pow10(width)
    ensures Less(Pad(m, width), Pad(n, width)) <==> m < n
    ensures Pad(m, width) == Pad(n, width) <==> m == n
  {
    if width > 0 {
      PadOrder(m / 10, n / 10, width - 1);
      var s, t := [Digit(m % 10)], [Digit(n % 10)];
      assert s[1..] == "" && t[1..] == "";
      LessByParts(Pad(m / 10, width - 1), Pad(n / 10, width - 1), s, t);
      assert Pad(m, width)[width - 1] == s[0] && Pad(n, width)[width - 1] == t[0];
      assert Pad(m, width)[..width - 1] == Pad(m / 10, width - 1) &&
        Pad(n, width)[..width - 1] == Pad(n / 10, width - 1);
    }
  }

  lemma Widths()
    ensures Pow10(4) == 10000 && Pow10(2) == 100
  {
    assert Pow10(1) == 10 && Pow10(3) == 1000;
  }

  // Comparing the strings of two dates compares the dates.
  lemma IsoOrder(a: Date, b: Date)
    requires Written(a) && Written(b) && a.year < 10000 && b.year < 10000
    ensures Less(Iso(a), Iso(b)) <==> Before(a, b)
    ensures Iso(a) == Iso(b) <==> a == b
  {
    hide Less, Pad, Pow10;
    Widths();
    PadOrder(a.year, b.year, 4);
    PadOrder(a.month, b.month, 2);
    PadOrder(a.day, b.day, 2);
    var (y, m, d) := (Pad(a.year, 4), Pad(a.month, 2), Pad(a.day, 2));
    var (y', m', d') := (Pad(b.year, 4), Pad(b.month, 2), Pad(b.day, 2));
    assert Iso(a) == y + ("-" + (m + ("-" + d))) && Iso(b) == y' + ("-" + (m' + ("-" + d')));
    LessByParts(y, y', "-" + (m + ("-" + d)), "-" + (m' + ("-" + d')));
    LessByParts("-", "-", m + ("-" + d), m' + ("-" + d'));
    LessByParts(m, m', "-" + d, "-" + d');
    LessByParts("-", "-", d, d');
    LessIrreflexive("-");
    assert Iso(a)[..4] == y && Iso(b)[..4] == y' && Iso(a)[5..7] == m && Iso(b)[5..7] == m';
    assert Iso(a)[8..] == d && Iso(b)[8..] == d';
  }

  lemma {:induction false} LessIrreflexive(s: string)
    ensures !Less(s, s)
  {
    if s != "" {
      LessIrreflexive(s[1..]);
    }
  }

  // ---- The validators -------------------------------------------------------------------------------------

  predicate IsDigit(c: char) {
    '0' <= c <= '9'
  }

  function DigitValue(c: char): (n: nat)
    requires IsDigit(c)
    ensures n < 10 && Digit(n) == c
  {
    c as int - '0' as int
  }

  function Value(s: string): (n: nat)
    requires forall c :: c in s ==> IsDigit(c)
  {
    if s == "" then 0
    else
      var last := s[|s| - 1];
      assert last in s;
      10 * Value(s[..|s| - 1]) + DigitValue(last)
  }

  // Digits and dashes in their places.
  predicate Shaped(s: string) {
    && |s| == 10 && s[4] == '-' && s[7] == '-'
    && forall i :: 0 <= i < 10 && i != 4 && i != 7 ==> IsDigit(s[i])
  }

  // split('-').map(Number)
  function Fields(s: string): Date
    requires Shaped(s)
  {
    Date(Value(s[..4]), Value(s[5..7]), Value(s[8..]))
  }

  // DATE_PATTERN: month 0[1-9] or 1[0-2], day 0[1-9], [12]\d or 3[01].
  predicate Matches(s: string) {
    && Shaped(s)
    && ((s[5] == '0' && s[6] != '0') || (s[5] == '1' && s[6] <= '2'))
    && ((s[8] == '0' && s[9] != '0') || s[8] == '1' || s[8] == '2' || (s[8] == '3' && s[9] <= '1'))
  }

  lemma TenTimes(n: nat, d: nat)
    requires d < 10
    ensures (10 * n + d) / 10 == n && (10 * n + d) % 10 == d
  {
  }

  lemma {:induction false} PadOfValue(s: string)
    requires forall c :: c in s ==> IsDigit(c)
    ensures Value(s) < Pow10(|s|) && Pad(Value(s), |s|) == s
  {
    if s != "" {
      var n := |s| - 1;
      PadOfValue(s[..n]);
      assert s[n] in s;
      var d := DigitValue(s[n]);
      TenTimes(Value(s[..n]), d);
      assert s == s[..n] + [Digit(d)];
    }
  }

  lemma TwoDigits(s: string)
    requires |s| == 2 && IsDigit(s[0]) && IsDigit(s[1])
    ensures (forall c :: c in s ==> IsDigit(c)) && Value(s) == 10 * DigitValue(s[0]) + DigitValue(s[1])
  {
    assert s[..1] == [s[0]] && s[..1][..0] == "";
    assert Value(s[..1]) == DigitValue(s[0]);
  }

  lemma FieldsPrintBack(s: string)
    requires Shaped(s)
    ensures Fields(s).year < 10000 && Iso(Fields(s)) == s
  {
    hide Value, Pad, Pow10;
    Widths();
    PadOfValue(s[..4]);
    PadOfValue(s[5..7]);
    PadOfValue(s[8..]);
    assert s[4..5] == "-" && s[7..8] == "-";
    assert Iso(Fields(s)) == s[..4] + "-" + s[5..7] + "-" + s[8..];
  }

  // The pattern admits the strings of written dates and nothing else.
  lemma MatchesIffWritten(s: string)
    ensures Matches(s) <==> Shaped(s) && Written(Fields(s))
    ensures Shaped(s) ==> Fields(s).year < 10000 && Iso(Fields(s)) == s
  {
    hide Value, Iso;
    if Shaped(s) {
      FieldsPrintBack(s);
      TwoDigits(s[5..7]);
      TwoDigits(s[8..]);
    }
  }

  lemma IsoParts(x: Date)
    ensures var s := Iso(x);
            && s[..4] == Pad(x.year, 4) && s[5..7] == Pad(x.month, 2) && s[8..] == Pad(x.day, 2)
            && s[4] == '-' && s[7] == '-' && Shaped(s)
  {
    hide Pad;
    var s, y, m, d := Iso(x), Pad(x.year, 4), Pad(x.month, 2), Pad(x.day, 2);
    forall i | 0 <= i < 10 && i != 4 && i != 7 ensures IsDigit(s[i]) {
      if i < 4 {
        assert s[i] == y[i] && y[i] in y;
      } else if i < 7 {
        assert s[i] == m[i - 5] && m[i - 5] in m;
      } else {
        assert s[i] == d[i - 8] && d[i - 8] in d;
      }
    }
  }

  lemma IsoIsShaped(x: Date)
    requires x.year < 10000 && Written(x)
    ensures Shaped(Iso(x)) && Fields(Iso(x)) == x
  {
    hide Value, Pad, Pow10, Iso;
    IsoParts(x);
    Widths();
    ValueOfPad(x.year, 4);
    ValueOfPad(x.month, 2);
    ValueOfPad(x.day, 2);
  }

  lemma {:induction false} ValueOfPad(n: nat, width: nat)
    requires n < Pow10(width)
    ensures Value(Pad(n, width)) == n
  {
    if width > 0 {
      ValueOfPad(n / 10, width - 1);
      assert Pad(n, width)[..width - 1] == Pad(n / 10, width - 1);
    }
  }

  // RealCalendarDateConstraint: the date that `new Date` makes of the string prints as the string.
  predicate RealCalendarDate(s: string) {
    Matches(s) && (MatchesIffWritten(s); Iso(Normalise(Fields(s))) == s)
  }

  const MAX_REQUEST_RANGE_DAYS := 365

  function UtcMidnight(s: string): int
    requires Matches(s)
  {
    MatchesIffWritten(s);
    DayNumber(Fields(s))
  }

  // EndDateAfterStartDateConstraint, on strings that pass the pattern
  predicate EndDateAfterStartDate(startDate: string, endDate: string)
    requires Matches(startDate) && Matches(endDate)
  {
    !Less(endDate, startDate) && UtcMidnight(endDate) - UtcMidnight(startDate) + 1 <= MAX_REQUEST_RANGE_DAYS
  }

  predicate AcceptsDates(startDate: string, endDate: string) {
    RealCalendarDate(startDate) && RealCalendarDate(endDate) && EndDateAfterStartDate(startDate, endDate)
  }

  // The validator lets through exactly the dates of the years 0000 to 9999 whose day is one of their month.
  lemma ValidIffReal(s: string)
    ensures RealCalendarDate(s) <==>
      exists x: Date ::
        && x.year < 10000 && 1 <= x.month <= 12 && 1 <= x.day
        && x.day <= (if x.month == 2 then if x.year % 4 == 0 && (x.year % 100 != 0 || x.year % 400 == 0) then 29 else 28
                     else if x.month == 4 || x.month == 6 || x.month == 9 || x.month == 11 then 30 else 31)
        && Iso(x) == s
  {
    hide Less, Pad, DayFromYear, DaysBefore, Leap;
    MatchesIffWritten(s);
    if Matches(s) {
      var x := Fields(s);
      NormaliseKeepsTheDay(x);
      if Iso(Normalise(x)) == s {
        IsoOfNormalised(x);
      }
    }
    if x: Date :| x.year < 10000 && Real(x) && Iso(x) == s {
      IsoIsShaped(x);
      NormaliseKeepsTheDay(x);
    }
  }

  lemma RealIsAccepted(x: Date)
    requires x.year < 10000 && Real(x)
    ensures RealCalendarDate(Iso(x))
  {
    hide Iso, DaysInMonth;
    MatchesIffWritten(Iso(x));
    IsoIsShaped(x);
    NormaliseKeepsTheDay(x);
  }

  // December has 31 days, so nothing overflows into another year.
  lemma IsoOfNormalised(x: Date)
    requires Written(x) && x.year < 10000
    ensures Normalise(x).year == x.year && (Iso(Normalise(x)) == Iso(x) ==> Normalise(x) == x)
  {
    IsoOrder(Normalise(x), x);
  }

  lemma RealFields(s: string)
    requires RealCalendarDate(s)
    ensures Shaped(s) && Real(Fields(s)) && Fields(s).year < 10000 && Iso(Fields(s)) == s
  {
    MatchesIffWritten(s);
    IsoOfNormalised(Fields(s));
    NormaliseKeepsTheDay(Fields(s));
  }

  // For real dates, comparing strings is comparing day numbers: what submit's overlap query, its range check
  // and its past-date check rely on.
  lemma StringOrderIsDayOrder(s: string, t: string)
    requires RealCalendarDate(s) && RealCalendarDate(t)
    ensures Less(s, t) <==> UtcMidnight(s) < UtcMidnight(t)
    ensures s == t <==> UtcMidnight(s) == UtcMidnight(t)
  {
    hide Less, Iso, DayNumber, Normalise;
    RealFields(s);
    RealFields(t);
    IsoOrder(Fields(s), Fields(t));
    DateOrderIsDayOrder(Fields(s), Fields(t));
  }

  lemma AcceptsIff(startDate: string, endDate: string)
    ensures AcceptsDates(startDate, endDate) <==>
      && RealCalendarDate(startDate) && RealCalendarDate(endDate)
      && UtcMidnight(startDate) <= UtcMidnight(endDate) < UtcMidnight(startDate) + 365
  {
    hide Less, UtcMidnight, Matches, Normalise;
    if RealCalendarDate(startDate) && RealCalendarDate(endDate) {
      StringOrderIsDayOrder(endDate, startDate);
    }
  }

  // ---- countBusinessDays ----------------------------------------------------------------------------------

  // Date.UTC reads the years 0 to 99 as 1900 to 1999.
  function UtcYear(y: nat): nat {
    if y <= 99 then 1900 + y else y
  }

  function FromUtc(x: Date): Date
    requires Written(x)
  {
    Normalise(x.(year := UtcYear(x.year)))
  }

  function HolidayDays(holidays: set<string>): set<int> {
    set s | s in holidays && RealCalendarDate(s) :: UtcMidnight(s)
  }

  lemma HolidayIffListed(x: Date, holidays: set<string>)
    requires Real(x) && x.year < 10000
    ensures Iso(x) in holidays <==> DayNumber(x) in HolidayDays(holidays)
  {
    hide Less, DayNumber, Normalise, Iso;
    RealIsAccepted(x);
    RealFields(Iso(x));
    IsoIsShaped(x);
    forall s | s in holidays && RealCalendarDate(s) && UtcMidnight(s) == DayNumber(x) ensures s == Iso(x) {
      StringOrderIsDayOrder(s, Iso(x));
    }
  }

  lemma NotAfterLastYear(x: Date, end: Date)
    requires Real(x) && Real(end) && DayNumber(x) <= DayNumber(end)
    ensures x.year <= end.year
  {
    DateOrderIsDayOrder(x, end);
    DateOrderIsDayOrder(end, x);
  }

  method CountBusinessDays(startDate: string, endDate: string, holidays: set<string>) returns (r: Option<nat>)
    requires RealCalendarDate(startDate) && RealCalendarDate(endDate)
    ensures r.None? <==> Less(endDate, startDate)
    ensures r.Some? ==> Written(Fields(startDate)) && Written(Fields(endDate))
    ensures r.Some? ==>
              r.value == WorkingDays(DayNumber(FromUtc(Fields(startDate))), DayNumber(FromUtc(Fields(endDate))) + 1,
                                     HolidayDays(holidays))
  {
    hide Less, DayNumber, Normalise, Iso, NextDay, RealCalendarDate, Leap;
    if Less(endDate, startDate) {
      return None;
    }
    RealFields(startDate);
    RealFields(endDate);
    var count := 0;
    var cursor := FromUtc(Fields(startDate));
    var end := FromUtc(Fields(endDate));
    ghost var first := DayNumber(cursor);
    EndStaysInRange(Fields(endDate));
    while DayNumber(cursor) <= DayNumber(end)
      invariant Real(cursor) && (first <= DayNumber(cursor) <= DayNumber(end) + 1 || DayNumber(cursor) == first)
      invariant count == WorkingDays(first, DayNumber(cursor), HolidayDays(holidays))
      decreases DayNumber(end) - DayNumber(cursor)
    {
      NotAfterLastYear(cursor, end);
      var dow := WeekDay(DayNumber(cursor));
      var isoDate := Iso(cursor);
      HolidayIffListed(cursor, holidays);
      if dow != 0 && dow != 6 && isoDate !in holidays {
        count := count + 1;
      }
      NextDayIsOneMore(cursor);
      cursor := NextDay(cursor);
    }
    r := Some(count);
  }

  lemma EndStaysInRange(x: Date)
    requires Real(x) && x.year < 10000
    ensures FromUtc(x).year < 10000
  {
    IsoOfNormalised(x.(year := UtcYear(x.year)));
  }

  // From year 100 on Date.UTC means the year it is given, and the count is that of the days themselves ...
  lemma CountsTheDaysThemselves(s: string)
    requires RealCalendarDate(s) && Fields(s).year >= 100
    ensures Written(Fields(s)) && DayNumber(FromUtc(Fields(s))) == UtcMidnight(s)
  {
    RealFields(s);
    NormaliseKeepsTheDay(Fields(s));
  }

  // ... and before it never: the day counted is that of 1900 years later, whatever the date.
  lemma OtherDaysBeforeYear100(s: string)
    requires RealCalendarDate(s) && Fields(s).year < 100
    ensures Written(Fields(s)) && DayNumber(FromUtc(Fields(s))) > UtcMidnight(s) + 600000
    ensures var x := Fields(s);
            DayNumber(FromUtc(x)) == DayNumber(Date(1900 + x.year, x.month, 1)) + x.day - 1
  {
    hide Less, Iso;
    RealFields(s);
    var x := Fields(s);
    NormaliseKeepsTheDay(x.(year := UtcYear(x.year)));
  }

  // ---- How many ---------------------------------------------------------------------------------------------

  // The days from Monday to Friday that are no holidays.
  function DaysToCount(a: int, b: int, holidays: set<int>): set<int> {
    set d | a <= d < b && 1 <= (d + 4) % 7 <= 5 && d !in holidays
  }

  lemma {:induction false} CountsWeekdays(a: int, b: int, holidays: set<int>)
    ensures WorkingDays(a, b, holidays) == |DaysToCount(a, b, holidays)|
    decreases b - a
  {
    if b <= a {
      assert DaysToCount(a, b, holidays) == {};
    } else {
      CountsWeekdays(a, b - 1, holidays);
      var before := DaysToCount(a, b - 1, holidays);
      assert b - 1 !in before;
      assert DaysToCount(a, b, holidays) == before + if Works(b - 1, holidays) then {b - 1} else {};
    }
  }

  lemma {:induction false} SplitsAnywhere(a: int, b: int, c: int, holidays: set<int>)
    requires a <= b <= c
    ensures WorkingDays(a, c, holidays) == WorkingDays(a, b, holidays) + WorkingDays(b, c, holidays)
    decreases c - b
  {
    if b < c {
      SplitsAnywhere(a, b, c - 1, holidays);
    }
  }

  // Working days of whole weeks and of the begun week before `day`; day -3 is a Monday.
  function Elapsed(day: int): int {
    5 * ((day + 3) / 7) + if (day + 3) % 7 < 5 then (day + 3) % 7 else 5
  }

  // The loop against its closed form.
  lemma {:induction false} ClosedForm(a: int, b: int)
    requires a <= b
    ensures WorkingDays(a, b, {}) == Elapsed(b) - Elapsed(a)
    decreases b - a
  {
    if a < b {
      ClosedForm(a, b - 1);
      var w := b - 1 + 3;
      assert WeekDay(b - 1) == (w % 7 + 1) % 7;
    }
  }

  lemma CloseToFiveSevenths(a: int, b: int)
    requires a <= b
    ensures var n := b - a;
            5 * (n / 7) + n % 7 - 2 <= WorkingDays(a, b, {}) <= 5 * (n / 7) + n % 7
  {
    ClosedForm(a, b);
  }

  // An accepted range has at most 261 of them (and submit refuses a range that has none).
  lemma AcceptedDays(startDate: string, endDate: string)
    requires AcceptsDates(startDate, endDate)
    ensures WorkingDays(UtcMidnight(startDate), UtcMidnight(endDate) + 1, {}) <= 261
  {
    hide WorkingDays, UtcMidnight;
    AcceptsIff(startDate, endDate);
    CloseToFiveSevenths(UtcMidnight(startDate), UtcMidnight(endDate) + 1);
  }
}
