/**
  Commit dates: a day count since 1970-01-01 as a date of the proleptic Gregorian
  calendar (the leap-year rule of Appendix C of RFC 3339), over all integers. The
  source's floor divisions are by positive constants, where Dafny's division agrees.
*/
module Calendar {

  datatype Date = Date(year: int, month: int, day: int)

  predicate IsLeap(year: int) {
    year % 4 == 0 && (year % 100 != 0 || year % 400 == 0)
  }

  function DaysInMonth(year: int, month: int): int {
    if month == 2 then (if IsLeap(year) then 29 else 28)
    else if month == 4 || month == 6 || month == 9 || month == 11 then 30
    else 31
  }

  predicate IsDate(date: Date) {
    1 <= date.month <= 12 && 1 <= date.day <= DaysInMonth(date.year, date.month)
  }

  function NextDay(date: Date): Date {
    if date.day < DaysInMonth(date.year, date.month) then date.(day := date.day + 1)
    else if date.month < 12 then Date(date.year, date.month + 1, 1)
    else Date(date.year + 1, 1, 1)
  }

  // ----- The source's arithmetic -----

  function YearOfEra(dayOfEra: int): int {
    (dayOfEra - dayOfEra / 1460 + dayOfEra / 36524 - dayOfEra / 146096) / 365
  }

  function StartOfYear(yearOfEra: int): int {
    365 * yearOfEra + yearOfEra / 4 - yearOfEra / 100
  }

  function CivilFromDays(daysSinceEpoch: int): Date {
    var shifted := daysSinceEpoch + 719468;
    var era := shifted / 146097;
    var dayOfEra := shifted - era * 146097;
    var yearOfEra := YearOfEra(dayOfEra);
    var dayOfYear := dayOfEra - StartOfYear(yearOfEra);
    var monthPrime := (5 * dayOfYear + 2) / 153;
    var day := dayOfYear - (153 * monthPrime + 2) / 5 + 1;
    var month := monthPrime + (if monthPrime < 10 then 3 else -9);
    Date(yearOfEra + era * 400 + (if month <= 2 then 1 else 0), month, day)
  }

  // ----- An independent day count -----

  /** Days before 1 January of `year`, counted from 1 January of year 1. */
  function DaysBeforeYear(year: int): int {
    365 * (year - 1) + (year - 1) / 4 - (year - 1) / 100 + (year - 1) / 400
  }

  function DaysBeforeMonth(year: int, month: int): int
    decreases month
  {
    if month <= 1 then 0 else DaysBeforeMonth(year, month - 1) + DaysInMonth(year, month - 1)
  }

  /** The inverse: days since 1970-01-01, by counting years, months and days. */
  function DaysFromCivil(date: Date): int {
    DaysBeforeYear(date.year) + DaysBeforeMonth(date.year, date.month) + date.day - 1 - 719162
  }

  // ----- One era -----

  /** The day of the year, counted from 1 March, that ends in a leap day only when the February is a leap year's. */
  predicate EndsInLeapDay(yearOfEra: int) {
    (yearOfEra + 1) % 4 == 0 && ((yearOfEra + 1) % 100 != 0 || yearOfEra == 399)
  }

  /** A day of the era, split into centuries, groups of four years, years and days. */
  lemma SplitEra(doe: int) returns (century: int, four: int, one: int, rest: int)
    requires 0 <= doe <= 146096
    ensures doe == 36524 * century + 1461 * four + 365 * one + rest
    ensures 0 <= century <= 3 && 0 <= four <= 24 && 0 <= one <= 3 && 0 <= rest <= 365
    ensures rest == 365 ==> one == 3 && (four == 24 ==> century == 3)
  {
    century := if doe / 36524 <= 3 then doe / 36524 else 3;
    var inCentury := doe - 36524 * century;
    four := inCentury / 1461;
    var inFour := inCentury - 1461 * four;
    one := if inFour / 365 <= 3 then inFour / 365 else 3;
    rest := inFour - 365 * one;
  }

  lemma CorrectionsCancel(doe: int, century: int, four: int, one: int, rest: int)
    requires doe == 36524 * century + 1461 * four + 365 * one + rest && 0 <= doe <= 146096
    requires 0 <= century <= 3 && 0 <= four <= 24 && 0 <= one <= 3 && 0 <= rest <= 365
    requires rest == 365 ==> one == 3 && (four == 24 ==> century == 3)
    ensures doe / 36524 - doe / 146096 == century
    ensures
      var remainder := 24 * century + four + 365 * one + rest;
      doe / 1460 == 25 * century + four + (if remainder >= 1460 then 1 else 0)
  {
    if century == 3 && four == 24 && one == 3 && rest == 365 {
      assert doe == 146096;
    } else {
      assert 36524 * century <= doe < 36524 * (century + 1);
    }
  }

  /** The year the source's corrections find is the one that holds the day. */
  lemma YearOfEraHoldsDay(doe: int)
    requires 0 <= doe <= 146096
    ensures
      var yoe := YearOfEra(doe);
      && 0 <= yoe <= 399
      && 0 <= doe - StartOfYear(yoe) <= (if EndsInLeapDay(yoe) then 365 else 364)
  {
    var century, four, one, rest := SplitEra(doe);
    CorrectionsCancel(doe, century, four, one, rest);
    var yoe := 100 * century + 4 * four + one;
    YearIsFound(doe, century, four, one, rest);
    assert yoe / 4 == 25 * century + four;
    assert yoe / 100 == century;
    assert StartOfYear(yoe) == doe - rest;
  }

  lemma YearIsFound(doe: int, century: int, four: int, one: int, rest: int)
    requires doe == 36524 * century + 1461 * four + 365 * one + rest
    requires 0 <= century <= 3 && 0 <= four <= 24 && 0 <= one <= 3 && 0 <= rest <= 365
    requires rest == 365 ==> one == 3
    requires doe / 36524 - doe / 146096 == century
    requires doe / 1460 == 25 * century + four + (if 24 * century + four + 365 * one + rest >= 1460 then 1 else 0)
    ensures YearOfEra(doe) == 100 * century + 4 * four + one
  {
    var carry := if 24 * century + four + 365 * one + rest >= 1460 then 1 else 0;
    assert doe - doe / 1460 + doe / 36524 - doe / 146096 == 365 * (100 * century + 4 * four + one) + (rest - carry);
  }

  // ----- One year, from 1 March -----

  function StartOfMonth(monthPrime: int): int {
    (153 * monthPrime + 2) / 5
  }

  lemma MonthHoldsDay(dayOfYear: int)
    requires 0 <= dayOfYear <= 365
    ensures
      var mp := (5 * dayOfYear + 2) / 153;
      0 <= mp <= 11 && StartOfMonth(mp) <= dayOfYear && (mp < 11 ==> dayOfYear < StartOfMonth(mp + 1))
  {
  }

  // ----- Valid dates, both ways -----

  function DateOf(era: int, yoe: int, doy: int, mp: int): Date {
    var month := mp + (if mp < 10 then 3 else -9);
    Date(yoe + era * 400 + (if month <= 2 then 1 else 0), month, doy - StartOfMonth(mp) + 1)
  }

  lemma CivilIsADateOf(n: int) returns (era: int, yoe: int, doy: int, mp: int)
    ensures n + 719468 == era * 146097 + StartOfYear(yoe) + doy
    ensures 0 <= yoe <= 399 && 0 <= doy <= (if EndsInLeapDay(yoe) then 365 else 364)
    ensures 0 <= mp <= 11 && StartOfMonth(mp) <= doy && (mp < 11 ==> doy < StartOfMonth(mp + 1))
    ensures CivilFromDays(n) == DateOf(era, yoe, doy, mp)
  {
    hide YearOfEra, EndsInLeapDay, StartOfYear;
    era := (n + 719468) / 146097;
    var doe := n + 719468 - era * 146097;
    YearOfEraHoldsDay(doe);
    yoe := YearOfEra(doe);
    doy := doe - StartOfYear(yoe);
    MonthHoldsDay(doy);
    mp := (5 * doy + 2) / 153;
  }

  /** Every day number gives a date of the calendar, and counting that date's days gives the number back. */
  lemma CivilIsADate(n: int)
    ensures IsDate(CivilFromDays(n))
    ensures DaysFromCivil(CivilFromDays(n)) == n
  {
    hide *;
    var era, yoe, doy, mp := CivilIsADateOf(n);
    DateOfIsADate(era, yoe, doy, mp);
    DateOfCountsBack(era, yoe, doy, mp);
  }

  lemma DateOfIsADate(era: int, yoe: int, doy: int, mp: int)
    requires 0 <= yoe <= 399 && 0 <= doy <= (if EndsInLeapDay(yoe) then 365 else 364)
    requires 0 <= mp <= 11 && StartOfMonth(mp) <= doy && (mp < 11 ==> doy < StartOfMonth(mp + 1))
    ensures IsDate(DateOf(era, yoe, doy, mp))
  {
    hide EndsInLeapDay, IsLeap;
    LeapInEra(era, yoe + 1);
    LeapDayEndsFebruary(yoe);
  }

  lemma LeapDayEndsFebruary(yoe: int)
    requires 0 <= yoe <= 399
    ensures EndsInLeapDay(yoe) <==> IsLeap(yoe + 1)
  {
  }

  lemma DateOfCountsBack(era: int, yoe: int, doy: int, mp: int)
    requires 0 <= yoe <= 399 && 0 <= mp <= 11
    ensures DaysFromCivil(DateOf(era, yoe, doy, mp)) == era * 146097 + StartOfYear(yoe) + doy - 719468
  {
    hide StartOfMonth, StartOfYear, DaysBeforeYear, DaysBeforeMonth, IsLeap;
    var date := DateOf(era, yoe, doy, mp);
    LeapInEra(era, yoe);
    MonthsCount(date.year, date.month);
    YearsCount(era, yoe);
  }

  lemma LeapInEra(era: int, year: int)
    ensures IsLeap(year + era * 400) == IsLeap(year)
  {
    var shifted := year + era * 400;
    assert shifted / 4 == year / 4 + era * 100;
    assert shifted / 100 == year / 100 + era * 4;
    assert shifted / 400 == year / 400 + era;
  }

  /** The table of days before each month, against the source's formula for months counted from March. */
  lemma {:induction false} MonthsCount(year: int, month: int)
    requires 1 <= month <= 12
    ensures DaysBeforeMonth(year, month) ==
            if month <= 2 then StartOfMonth(month + 9) - 306
            else StartOfMonth(month - 3) + 59 + (if IsLeap(year) then 1 else 0)
  {
    hide IsLeap;
    if month > 1 {
      MonthsCount(year, month - 1);
    }
  }

  /** The days before a year of an era, against the source's formula for years counted from March. */
  lemma YearsCount(era: int, yoe: int)
    requires 0 <= yoe <= 399
    ensures DaysBeforeYear(yoe + 1 + era * 400) == era * 146097 + StartOfYear(yoe)
    ensures DaysBeforeYear(yoe + era * 400) + (if IsLeap(yoe) then 1 else 0) == era * 146097 + StartOfYear(yoe) - 365
  {
    EraShifts(era, yoe + 1);
    EraShifts(era, yoe);
    YearBefore(yoe);
  }

  lemma YearBefore(year: int)
    ensures DaysBeforeYear(year + 1) == DaysBeforeYear(year) + 365 + (if IsLeap(year) then 1 else 0)
  {
    assert year / 4 == (year - 1) / 4 + (if year % 4 == 0 then 1 else 0);
    assert year / 100 == (year - 1) / 100 + (if year % 100 == 0 then 1 else 0);
    assert year / 400 == (year - 1) / 400 + (if year % 400 == 0 then 1 else 0);
    HundredsAreFours(year);
  }

  lemma MultipleDivides(k: int, n: int)
    requires n == 4 || n == 100
    ensures (n * k) % n == 0
  {
    if n == 4 {
      assert (4 * k) % 4 == 0;
    } else {
      assert (100 * k) % 100 == 0;
    }
  }

  lemma HundredsAreFours(year: int)
    ensures year % 100 == 0 ==> year % 4 == 0
    ensures year % 400 == 0 ==> year % 100 == 0
  {
    if year % 100 == 0 {
      MultipleDivides(25 * (year / 100), 4);
    }
    if year % 400 == 0 {
      MultipleDivides(4 * (year / 400), 100);
    }
  }

  lemma EraShifts(era: int, year: int)
    ensures DaysBeforeYear(year + era * 400) == DaysBeforeYear(year) + era * 146097
  {
    var y := year - 1;
    assert (y + era * 400) / 4 == y / 4 + era * 100;
    assert (y + era * 400) / 100 == y / 100 + era * 4;
    assert (y + era * 400) / 400 == y / 400 + era;
  }

  // ----- The calendar's order -----

  predicate Before(a: Date, b: Date) {
    || a.year < b.year
    || (a.year == b.year && a.month < b.month)
    || (a.year == b.year && a.month == b.month && a.day < b.day)
  }

  lemma {:induction false} YearsInOrder(a: int, b: int)
    requires a <= b
    ensures DaysBeforeYear(a) <= DaysBeforeYear(b)
    decreases b - a
  {
    hide DaysBeforeYear;
    if a < b {
      YearBefore(a);
      YearsInOrder(a + 1, b);
    }
  }

  lemma {:induction false} MonthsInOrder(year: int, a: int, b: int)
    requires 1 <= a <= b
    ensures DaysBeforeMonth(year, a) <= DaysBeforeMonth(year, b)
    decreases b
  {
    if a < b {
      MonthsInOrder(year, a, b - 1);
    }
  }

  /** A date counts at least as many days as its year and month begin with, and fewer than the next ones do. */
  lemma DateInItsMonth(date: Date)
    requires IsDate(date)
    ensures DaysBeforeMonth(date.year, date.month) <= DaysBeforeMonth(date.year, date.month) + date.day - 1
         < DaysBeforeMonth(date.year, date.month + 1)
  {
  }

  lemma DateInItsYear(date: Date)
    requires IsDate(date)
    ensures DaysBeforeYear(date.year) - 719162 <= DaysFromCivil(date) < DaysBeforeYear(date.year + 1) - 719162
  {
    hide IsLeap, DaysBeforeYear;
    DateInItsMonth(date);
    MonthsInOrder(date.year, 1, date.month);
    MonthsInOrder(date.year, date.month + 1, 13);
    MonthsCount(date.year, 12);
    YearBefore(date.year);
  }

  /** Counting days agrees with the order of dates. */
  lemma CountingKeepsOrder(a: Date, b: Date)
    requires IsDate(a) && IsDate(b)
    ensures Before(a, b) <==> DaysFromCivil(a) < DaysFromCivil(b)
  {
    hide DaysBeforeYear, DaysBeforeMonth, IsLeap, DaysInMonth;
    if Before(a, b) {
      EarlierCountsLess(a, b);
    } else if a != b {
      EarlierCountsLess(b, a);
    }
  }

  lemma EarlierCountsLess(a: Date, b: Date)
    requires IsDate(a) && IsDate(b) && Before(a, b)
    ensures DaysFromCivil(a) < DaysFromCivil(b)
  {
    hide DaysBeforeYear, DaysBeforeMonth, IsLeap;
    if a.year < b.year {
      hide DaysFromCivil;
      DateInItsYear(a);
      DateInItsYear(b);
      YearsInOrder(a.year + 1, b.year);
    } else if a.month < b.month {
      DateInItsMonth(a);
      DateInItsMonth(b);
      MonthsInOrder(a.year, a.month + 1, b.month);
    }
  }

  // ----- The conversion is the calendar -----

  /** The conversion undoes the count of days: with `CivilIsADate`, a bijection onto the dates. */
  lemma ConversionUndoesCounting(date: Date)
    requires IsDate(date)
    ensures CivilFromDays(DaysFromCivil(date)) == date
  {
    hide *;
    var found := CivilFromDays(DaysFromCivil(date));
    CivilIsADate(DaysFromCivil(date));
    CountingKeepsOrder(found, date);
    CountingKeepsOrder(date, found);
    OneBeforeTheOther(found, date);
  }

  lemma OneBeforeTheOther(a: Date, b: Date)
    ensures a == b || Before(a, b) || Before(b, a)
  {
  }

  lemma EpochIsDayZero()
    ensures CivilFromDays(0) == Date(1970, 1, 1)
  {
    hide CivilFromDays;
    assert DaysFromCivil(Date(1970, 1, 1)) == 0;
    ConversionUndoesCounting(Date(1970, 1, 1));
  }

  /** Earlier day numbers are earlier dates, and the other way round. */
  lemma ConversionKeepsOrder(m: int, n: int)
    ensures m < n <==> Before(CivilFromDays(m), CivilFromDays(n))
  {
    hide *;
    CivilIsADate(m);
    CivilIsADate(n);
    CountingKeepsOrder(CivilFromDays(m), CivilFromDays(n));
  }

  lemma NextDayCounts(date: Date)
    requires IsDate(date)
    ensures IsDate(NextDay(date)) && DaysFromCivil(NextDay(date)) == DaysFromCivil(date) + 1
  {
    hide IsLeap, DaysBeforeYear;
    if date.day == DaysInMonth(date.year, date.month) && date.month == 12 {
      MonthsCount(date.year, 12);
      YearBefore(date.year);
    }
  }

  /** One more day is the calendar's next day. */
  lemma SuccessorIsNextDay(n: int)
    ensures CivilFromDays(n + 1) == NextDay(CivilFromDays(n))
  {
    hide *;
    var date := CivilFromDays(n);
    CivilIsADate(n);
    NextDayCounts(date);
    ConversionUndoesCounting(NextDay(date));
  }
}
