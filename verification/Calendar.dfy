/** The proleptic Gregorian calendar as section 21.4.1 of ECMA-262 computes it from day numbers,
    and the dates the admin analytics print. */
module Calendar {
  import opened Results
  import opened Text

  datatype Date = Date(year: int, month: int, day: int)

  // ---- section 21.4.1 of ECMA-262 ---------------------------------------------------------------

  const MS_PER_DAY := 86_400_000

  /** The largest time value, a hundred million days from 1970 either way. */
  const MAX_TIME := 8_640_000_000_000_000

  predicate IsTime(t: int) {
    -MAX_TIME <= t <= MAX_TIME
  }

  /** The day number of a time value; 0 is the first of January 1970. */
  function DayNumber(t: int): int {
    t / MS_PER_DAY
  }

  function DayFromYear(y: int): int {
    365 * (y - 1970) + (y - 1969) / 4 - (y - 1901) / 100 + (y - 1601) / 400
  }

  function DaysInYear(y: int): int {
    if y % 4 != 0 then 365
    else if y % 100 != 0 then 366
    else if y % 400 != 0 then 365
    else 366
  }

  predicate InLeapYear(y: int) {
    DaysInYear(y) == 366
  }

  lemma DayFromNextYear(y: int)
    ensures DayFromYear(y + 1) == DayFromYear(y) + DaysInYear(y)
  {
    EveryFourth(y);
    EveryHundredth(y);
    EveryFourHundredth(y);
    assert y % 400 == 0 ==> y % 100 == 0 && y % 4 == 0;
    assert y % 100 == 0 ==> y % 4 == 0;
  }

  lemma EveryFourth(y: int)
    ensures (y + 1 - 1969) / 4 == (y - 1969) / 4 + if y % 4 == 0 then 1 else 0
  {
  }

  lemma EveryHundredth(y: int)
    ensures (y + 1 - 1901) / 100 == (y - 1901) / 100 + if y % 100 == 0 then 1 else 0
  {
  }

  lemma EveryFourHundredth(y: int)
    ensures (y + 1 - 1601) / 400 == (y - 1601) / 400 + if y % 400 == 0 then 1 else 0
  {
  }

  lemma DayFromYearBounds(y: int)
    ensures y >= 1970 ==> 365 * (y - 1970) <= DayFromYear(y) <= 366 * (y - 1970)
    ensures y < 1970 ==> 366 * (y - 1970) <= DayFromYear(y) <= 365 * (y - 1970)
  {
  }

  /** The year a day falls in: the largest whose first day is not later. */
  function YearOf(day: int): (y: int)
    ensures DayFromYear(y) <= day < DayFromYear(y + 1)
  {
    var low := if day >= 0 then 1970 + day / 366 else 1970 + day / 365;
    DayFromYearBounds(low);
    SearchYear(day, low)
  }

  function SearchYear(day: int, low: int): (y: int)
    requires DayFromYear(low) <= day
    ensures DayFromYear(y) <= day < DayFromYear(y + 1)
    decreases day - DayFromYear(low)
  {
    DayFromNextYear(low);
    if DayFromYear(low + 1) <= day then SearchYear(day, low + 1) else low
  }

  /** The day within the year on which a month (counted from 0) begins. */
  function MonthStart(month: int, leap: bool): int
    requires 0 <= month <= 12
  {
    var shift := if leap && month >= 2 then 1 else 0;
    [0, 31, 59, 90, 120, 151, 181, 212, 243, 273, 304, 334, 365][month] + shift
  }

  function MonthOf(dayInYear: int, leap: bool): (month: int)
    requires 0 <= dayInYear < MonthStart(12, leap)
    ensures 0 <= month < 12
    ensures MonthStart(month, leap) <= dayInYear < MonthStart(month + 1, leap)
  {
    if dayInYear < MonthStart(1, leap) then 0
    else if dayInYear < MonthStart(2, leap) then 1
    else if dayInYear < MonthStart(3, leap) then 2
    else if dayInYear < MonthStart(4, leap) then 3
    else if dayInYear < MonthStart(5, leap) then 4
    else if dayInYear < MonthStart(6, leap) then 5
    else if dayInYear < MonthStart(7, leap) then 6
    else if dayInYear < MonthStart(8, leap) then 7
    else if dayInYear < MonthStart(9, leap) then 8
    else if dayInYear < MonthStart(10, leap) then 9
    else if dayInYear < MonthStart(11, leap) then 10
    else 11
  }

  function DateOf(day: int): Date {
    var year := YearOf(day);
    DayFromNextYear(year);
    var leap := InLeapYear(year);
    var dayInYear := day - DayFromYear(year);
    var month := MonthOf(dayInYear, leap);
    Date(year, month + 1, dayInYear - MonthStart(month, leap) + 1)
  }

  // ---- the calendar as people know it ---------------------------------------------------------------

  predicate Leap(year: int) {
    year % 4 == 0 && (year % 100 != 0 || year % 400 == 0)
  }

  function DaysInMonth(year: int, month: int): int {
    if month == 2 then (if Leap(year) then 29 else 28)
    else if month in {4, 6, 9, 11} then 30
    else 31
  }

  predicate IsDate(date: Date) {
    1 <= date.month <= 12 && 1 <= date.day <= DaysInMonth(date.year, date.month)
  }

  function NextDate(date: Date): Date {
    if date.day < DaysInMonth(date.year, date.month) then date.(day := date.day + 1)
    else if date.month < 12 then Date(date.year, date.month + 1, 1)
    else Date(date.year + 1, 1, 1)
  }

  lemma YearIsUnique(day: int, y: int)
    requires DayFromYear(y) <= day < DayFromYear(y + 1)
    ensures YearOf(day) == y
  {
    YearsDoNotOverlap(day, YearOf(day), y);
  }

  lemma YearsDoNotOverlap(day: int, y: int, z: int)
    requires DayFromYear(y) <= day < DayFromYear(y + 1)
    requires DayFromYear(z) <= day < DayFromYear(z + 1)
    ensures y == z
  {
  }

  lemma MonthStartsAscend(m: int, n: int, leap: bool)
    requires 0 <= m <= n <= 12
    ensures MonthStart(m, leap) <= MonthStart(n, leap)
  {
  }

  lemma MonthIsUnique(dayInYear: int, leap: bool, month: int)
    requires 0 <= month < 12
    requires 0 <= MonthStart(month, leap) <= dayInYear < MonthStart(month + 1, leap) <= MonthStart(12, leap)
    ensures MonthOf(dayInYear, leap) == month
  {
  }

  /** Within a year, the date is given by its month's first day. */
  lemma DateFrom(day: int, year: int, month: int)
    requires 0 <= month < 12
    requires MonthStart(month, InLeapYear(year)) <= day - DayFromYear(year) < MonthStart(month + 1, InLeapYear(year))
    ensures DateOf(day) == Date(year, month + 1, day - DayFromYear(year) - MonthStart(month, InLeapYear(year)) + 1)
  {
    var leap := InLeapYear(year);
    MonthStartsAscend(0, month, leap);
    MonthStartsAscend(month + 1, 12, leap);
    assert YearOf(day) == year by {
      DayFromNextYear(year);
      YearIsUnique(day, year);
    }
    MonthIsUnique(day - DayFromYear(year), leap, month);
  }

  lemma MonthLengths(year: int, month: int)
    requires 0 <= month < 12
    ensures MonthStart(month + 1, InLeapYear(year)) == MonthStart(month, InLeapYear(year)) + DaysInMonth(year, month + 1)
  {
  }

  lemma DateOfIsDate(day: int)
    ensures IsDate(DateOf(day))
  {
  }

  /** A day number for each date. */
  function DayOf(date: Date): int
    requires 1 <= date.month <= 12
  {
    DayFromYear(date.year) + MonthStart(date.month - 1, InLeapYear(date.year)) + date.day - 1
  }

  lemma DateOfInvertsDayOf(date: Date, day: int)
    requires IsDate(date) && DayOf(date) == day
    ensures DateOf(day) == date
  {
    MonthLengths(date.year, date.month - 1);
    DateFrom(day, date.year, date.month - 1);
  }

  lemma DayOfNextDate(date: Date)
    requires IsDate(date)
    ensures IsDate(NextDate(date)) && DayOf(NextDate(date)) == DayOf(date) + 1
  {
    MonthLengths(date.year, date.month - 1);
    if date.month == 12 {
      DayFromNextYear(date.year);
    }
  }

  lemma DayOfInvertsDateOf(day: int)
    ensures IsDate(DateOf(day)) && DayOf(DateOf(day)) == day
  {
    DateOfIsDate(day);
  }

  lemma DayZero()
    ensures DateOf(0) == Date(1970, 1, 1)
  {
    DateOfInvertsDayOf(Date(1970, 1, 1), 0);
  }

  /** Day numbers count the days of the calendar from the first of January 1970: the date after any
      day's is the next date, over months, leap days and years. */
  lemma DateOfCountsDays(day: int)
    ensures DateOf(day + 1) == NextDate(DateOf(day))
  {
    DayOfInvertsDateOf(day);
    NextDateIsNextDay(day, DateOf(day));
  }

  lemma NextDateIsNextDay(day: int, date: Date)
    requires IsDate(date) && DayOf(date) == day
    ensures DateOf(day + 1) == NextDate(date)
  {
    DayOfNextDate(date);
    DateOfInvertsDayOf(NextDate(date), day + 1);
  }

  lemma DateOfIsInjective(day: int, day': int)
    requires DateOf(day) == DateOf(day')
    ensures day == day'
  {
    DayOfInvertsDateOf(day);
    DayOfInvertsDateOf(day');
  }

  // ---- clock times ----------------------------------------------------------------------------------------

  /** Every millisecond of a date falls on that date, from midnight to the last before the next. */
  lemma DateOfClockTime(date: Date, hour: int, minute: int, second: int, ms: int)
    requires IsDate(date)
    requires 0 <= hour < 24 && 0 <= minute < 60 && 0 <= second < 60 && 0 <= ms < 1000
    ensures var t := ((24 * DayOf(date) + hour) * 60 + minute) * 60_000 + second * 1000 + ms;
      DayNumber(t) == DayOf(date) && DateOf(DayNumber(t)) == date
  {
    var day := DayOf(date);
    DayNumberOfClockTime(day, hour, minute, second, ms);
    DateOfInvertsDayOf(date, day);
  }

  lemma DayNumberOfClockTime(day: int, hour: int, minute: int, second: int, ms: int)
    requires 0 <= hour < 24 && 0 <= minute < 60 && 0 <= second < 60 && 0 <= ms < 1000
    ensures DayNumber(((24 * day + hour) * 60 + minute) * 60_000 + second * 1000 + ms) == day
  {
  }

  lemma DayNumberExactly(t: int, day: int)
    ensures DayNumber(t) == day <==> day * 24 * 3600 * 1000 <= t < (day + 1) * 24 * 3600 * 1000
  {
  }

  // ---- printed dates ------------------------------------------------------------------------------------

  function Pad2(n: nat): string {
    if n < 10 then "0" + DecimalNat(n) else DecimalNat(n)
  }

  /** Year, month and day of the month, the year without padding. */
  function Print(date: Date): string
    requires IsDate(date)
  {
    Decimal(date.year) + "-" + Pad2(date.month) + "-" + Pad2(date.day)
  }

  lemma Pad2IsInjective(m: nat, n: nat)
    requires m < 100 && n < 100
    ensures |Pad2(m)| == 2
    ensures Pad2(m) == Pad2(n) ==> m == n
  {
    assert DecimalNat(m) == if m < 10 then [Digit(m)] else [Digit(m / 10)] + [Digit(m % 10)];
    assert DecimalNat(n) == if n < 10 then [Digit(n)] else [Digit(n / 10)] + [Digit(n % 10)];
    if Pad2(m) == Pad2(n) {
      assert Pad2(m)[0] == Pad2(n)[0] && Pad2(m)[1] == Pad2(n)[1];
    }
  }

  lemma PartsAreEqual(y: string, m: string, d: string, y': string, m': string, d': string)
    requires |m| == |m'| == |d| == |d'| == 2
    requires y + "-" + m + "-" + d == y' + "-" + m' + "-" + d'
    ensures y == y' && m == m' && d == d'
  {
    var s, s' := y + "-" + m + "-" + d, y' + "-" + m' + "-" + d';
    var n := |s|;
    assert y == s[..n - 6] && y' == s'[..n - 6];
    assert m == s[n - 5..n - 3] && m' == s'[n - 5..n - 3];
    assert d == s[n - 2..] && d' == s'[n - 2..];
  }

  /** Printed dates are equal only for equal dates. */
  lemma PrintIsInjective(d: Date, e: Date)
    requires IsDate(d) && IsDate(e) && Print(d) == Print(e)
    ensures d == e
  {
    Pad2IsInjective(d.month, e.month);
    Pad2IsInjective(d.day, e.day);
    Pad2IsInjective(e.month, d.month);
    Pad2IsInjective(e.day, d.day);
    PartsAreEqual(Decimal(d.year), Pad2(d.month), Pad2(d.day), Decimal(e.year), Pad2(e.month), Pad2(e.day));
    DecimalIsInjective(d.year, e.year);
  }

  /** The text isoDay gives for a day number. */
  function PrintDay(day: int): string {
    DateOfIsDate(day);
    Print(DateOf(day))
  }

  lemma PrintDayIsInjective(day: int, day': int)
    ensures PrintDay(day) == PrintDay(day') ==> day == day'
  {
    if PrintDay(day) == PrintDay(day') {
      DateOfIsDate(day);
      DateOfIsDate(day');
      PrintIsInjective(DateOf(day), DateOf(day'));
      DateOfIsInjective(day, day');
    }
  }

  /** A printed date reads back: the year as it is written, a hyphen, two digits of the month, a
      hyphen, and two digits of the day of the month. */
  lemma PrintReadsBack(date: Date)
    requires IsDate(date)
    ensures var s, n := Print(date), |Print(date)|;
      && n > 6 && s[..n - 6] == Decimal(date.year)
      && s[n - 6] == '-' && ParseDigits(s[n - 5..n - 3]) == Some(date.month)
      && s[n - 3] == '-' && ParseDigits(s[n - 2..]) == Some(date.day)
  {
    Pad2ReadsBack(date.month);
    Pad2ReadsBack(date.day);
    var y, m, d := Decimal(date.year), Pad2(date.month), Pad2(date.day);
    var s, n := Print(date), |Print(date)|;
    assert s == y + "-" + m + "-" + d;
    assert s[..n - 6] == y && s[n - 5..n - 3] == m && s[n - 2..] == d;
  }

  lemma Pad2ReadsBack(n: nat)
    requires n < 100
    ensures |Pad2(n)| == 2 && ParseDigits(Pad2(n)) == Some(n)
  {
    Pad2IsInjective(n, n);
    ParseDigitsInvertsDecimal(n);
    if n < 10 {
      DigitsAreArabic(0);
      ParseDigitsByPosition("0", DecimalNat(n));
    }
  }
}
