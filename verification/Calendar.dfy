/** The proleptic Gregorian calendar, as day numbers from 0000-01-01. */
module Calendar {
  datatype Date = Date(year: nat, month: nat, day: nat)

  predicate IsLeap(year: nat) {
    year % 4 == 0 && (year % 100 != 0 || year % 400 == 0)
  }

  function DaysInYear(year: nat): nat {
    if IsLeap(year) then 366 else 365
  }

  function DaysInMonth(year: nat, month: nat): nat {
    if month == 2 then (if IsLeap(year) then 29 else 28)
    else if month == 4 || month == 6 || month == 9 || month == 11 then 30
    else 31
  }

  predicate IsDate(d: Date) {
    1 <= d.month <= 12 && 1 <= d.day <= DaysInMonth(d.year, d.month)
  }

  function DaysBeforeYear(year: nat): nat {
    if year == 0 then 0 else DaysBeforeYear(year - 1) + DaysInYear(year - 1)
  }

  /** Days of the year before the first of the month, months counted from 1. */
  function DaysBeforeMonth(year: nat, month: nat): nat {
    if month <= 1 then 0 else DaysBeforeMonth(year, month - 1) + DaysInMonth(year, month - 1)
  }

  function DayNumber(d: Date): int {
    DaysBeforeYear(d.year) + DaysBeforeMonth(d.year, d.month) + d.day - 1
  }

  /** The year and the day of the year of the `n`-th day from the first of `year`. */
  function YearOf(n: nat, year: nat): (nat, nat)
    decreases n
  {
    if n < DaysInYear(year) then (year, n) else YearOf(n - DaysInYear(year), year + 1)
  }

  /** The month and the day of the month of the `n`-th day from the first of `month`. */
  function MonthOf(n: nat, year: nat, month: nat): (nat, nat)
    decreases n
  {
    if n < DaysInMonth(year, month) then (month, n + 1) else MonthOf(n - DaysInMonth(year, month), year, month + 1)
  }

  function Civil(n: nat): Date {
    var (year, rest) := YearOf(n, 0);
    var (month, day) := MonthOf(rest, year, 1);
    Date(year, month, day)
  }

  lemma {:induction false} YearOfSplits(n: nat, year: nat)
    ensures var (y, rest) := YearOf(n, year);
            y >= year && rest < DaysInYear(y) && DaysBeforeYear(y) + rest == DaysBeforeYear(year) + n
    decreases n
  {
    if n >= DaysInYear(year) {
      YearOfSplits(n - DaysInYear(year), year + 1);
    }
  }

  lemma YearHasTwelveMonths(year: nat)
    ensures DaysBeforeMonth(year, 13) == DaysInYear(year)
  {
    var february := DaysInMonth(year, 2);
    assert DaysBeforeMonth(year, 2) == 31;
    assert DaysBeforeMonth(year, 3) == 31 + february;
    assert DaysBeforeMonth(year, 5) == 92 + february;
    assert DaysBeforeMonth(year, 7) == 153 + february;
    assert DaysBeforeMonth(year, 9) == 215 + february;
    assert DaysBeforeMonth(year, 11) == 276 + february;
    assert DaysBeforeMonth(year, 13) == 337 + february;
  }

  lemma {:induction false} MonthsGrow(year: nat, m: nat, k: nat)
    requires 1 <= m <= k
    ensures DaysBeforeMonth(year, m) <= DaysBeforeMonth(year, k)
    ensures m < k ==> DaysBeforeMonth(year, m) + DaysInMonth(year, m) <= DaysBeforeMonth(year, k)
    decreases k
  {
    if m < k {
      MonthsGrow(year, m, k - 1);
    }
  }

  lemma {:induction false} YearsGrow(y: nat, z: nat)
    requires y <= z
    ensures DaysBeforeYear(y) <= DaysBeforeYear(z)
    ensures y < z ==> DaysBeforeYear(y) + DaysInYear(y) <= DaysBeforeYear(z)
    decreases z
  {
    if y < z {
      YearsGrow(y, z - 1);
    }
  }

  lemma {:induction false} MonthOfSplits(n: nat, year: nat, month: nat)
    requires month >= 1 && DaysBeforeMonth(year, month) + n < DaysInYear(year)
    ensures var (m, day) := MonthOf(n, year, month);
            month <= m <= 12 && 1 <= day <= DaysInMonth(year, m)
            && DaysBeforeMonth(year, m) + day - 1 == DaysBeforeMonth(year, month) + n
    decreases n
  {
    YearHasTwelveMonths(year);
    if month >= 13 {
      MonthsGrow(year, 13, month);
    }
    if n >= DaysInMonth(year, month) {
      MonthOfSplits(n - DaysInMonth(year, month), year, month + 1);
    }
  }

  /** The days before a year: 365 for each earlier one, one more for each fourth year (the year 0
      among them), one less for each hundredth and one more for each four hundredth. */
  lemma {:induction false} DaysBeforeYearIs(year: nat)
    ensures DaysBeforeYear(year) == 365 * year + (year + 3) / 4 - (year + 99) / 100 + (year + 399) / 400
  {
    if year > 0 {
      DaysBeforeYearIs(year - 1);
      LeapCarry(year - 1);
    }
  }

  /** Exactly the leap years move the three quotients on by one in all. */
  lemma LeapCarry(year: nat)
    ensures (year + 4) / 4 - (year + 100) / 100 + (year + 400) / 400 ==
            (year + 3) / 4 - (year + 99) / 100 + (year + 399) / 400 + (if IsLeap(year) then 1 else 0)
  {
    Carry(year, 4);
    Carry(year, 100);
    Carry(year, 400);
    Multiples(year);
  }

  lemma MultipleOfFour(k: nat)
    ensures 4 * k % 4 == 0
  {
  }

  lemma MultipleOfHundred(k: nat)
    ensures 100 * k % 100 == 0
  {
  }

  lemma Multiples(n: nat)
    ensures n % 400 == 0 ==> n % 100 == 0
    ensures n % 100 == 0 ==> n % 4 == 0
  {
    MultipleOfFour(25 * (n / 100));
    MultipleOfHundred(4 * (n / 400));
  }

  lemma Carry(n: nat, d: nat)
    requires d == 4 || d == 100 || d == 400
    ensures (n + d) / d == (n + (d - 1)) / d + (if n % d == 0 then 1 else 0)
  {
  }

  /** The days of a year before each month; a leap year has one more from March on. */
  lemma DaysBeforeMonthIs(year: nat, month: nat)
    requires 1 <= month <= 12
    ensures DaysBeforeMonth(year, month) ==
            [0, 31, 59, 90, 120, 151, 181, 212, 243, 273, 304, 334][month - 1]
            + (if month > 2 && year % 4 == 0 && (year % 100 != 0 || year % 400 == 0) then 1 else 0)
  {
    FirstMonths(year);
    LastMonths(year);
  }

  lemma FirstMonths(year: nat)
    ensures var leap := if year % 4 == 0 && (year % 100 != 0 || year % 400 == 0) then 1 else 0;
            && DaysBeforeMonth(year, 1) == 0 && DaysBeforeMonth(year, 2) == 31 && DaysBeforeMonth(year, 3) == 59 + leap
            && DaysBeforeMonth(year, 4) == 90 + leap && DaysBeforeMonth(year, 5) == 120 + leap
            && DaysBeforeMonth(year, 6) == 151 + leap
  {
    assert DaysBeforeMonth(year, 2) == 31;
    assert DaysBeforeMonth(year, 4) == DaysBeforeMonth(year, 2) + DaysInMonth(year, 2) + 31;
  }

  lemma LastMonths(year: nat)
    ensures var leap := if year % 4 == 0 && (year % 100 != 0 || year % 400 == 0) then 1 else 0;
            && DaysBeforeMonth(year, 7) == 181 + leap && DaysBeforeMonth(year, 8) == 212 + leap
            && DaysBeforeMonth(year, 9) == 243 + leap && DaysBeforeMonth(year, 10) == 273 + leap
            && DaysBeforeMonth(year, 11) == 304 + leap && DaysBeforeMonth(year, 12) == 334 + leap
  {
    FirstMonths(year);
    assert DaysBeforeMonth(year, 8) == DaysBeforeMonth(year, 6) + 30 + 31;
    assert DaysBeforeMonth(year, 10) == DaysBeforeMonth(year, 8) + 31 + 30;
  }

  /** The number of a day in closed form. */
  lemma DayNumberIs(d: Date)
    requires 1 <= d.month <= 12
    ensures DayNumber(d) ==
            365 * d.year + (d.year + 3) / 4 - (d.year + 99) / 100 + (d.year + 399) / 400
            + [0, 31, 59, 90, 120, 151, 181, 212, 243, 273, 304, 334][d.month - 1]
            + (if d.month > 2 && d.year % 4 == 0 && (d.year % 100 != 0 || d.year % 400 == 0) then 1 else 0)
            + d.day - 1
  {
    DaysBeforeYearIs(d.year);
    DaysBeforeMonthIs(d.year, d.month);
  }

  /** Every day number is the number of exactly the date it is printed as. */
  lemma CivilIsDate(n: nat)
    ensures IsDate(Civil(n)) && DayNumber(Civil(n)) == n
  {
    YearOfSplits(n, 0);
    var (year, rest) := YearOf(n, 0);
    MonthOfSplits(rest, year, 1);
  }

  /** The date of a day, without the functions above: a month and a day within its length, and the
      number in closed form. */
  lemma CivilIs(n: nat)
    ensures var d := Civil(n);
            var leap := if d.year % 4 == 0 && (d.year % 100 != 0 || d.year % 400 == 0) then 1 else 0;
            && 1 <= d.month <= 12
            && 1 <= d.day <= [31, 28 + leap, 31, 30, 31, 30, 31, 31, 30, 31, 30, 31][d.month - 1]
            && n == 365 * d.year + (d.year + 3) / 4 - (d.year + 99) / 100 + (d.year + 399) / 400
                    + [0, 31, 59, 90, 120, 151, 181, 212, 243, 273, 304, 334][d.month - 1]
                    + (if d.month > 2 then leap else 0) + d.day - 1
  {
    CivilIsDate(n);
    DayNumberIs(Civil(n));
  }

  predicate DateLess(d: Date, e: Date) {
    d.year < e.year || (d.year == e.year && (d.month < e.month || (d.month == e.month && d.day < e.day)))
  }

  lemma WithinYear(d: Date)
    requires IsDate(d)
    ensures DaysBeforeYear(d.year) <= DayNumber(d) < DaysBeforeYear(d.year + 1)
  {
    YearHasTwelveMonths(d.year);
    MonthsGrow(d.year, d.month, 13);
  }

  /** The year of a day. */
  lemma BeforeYearIff(n: nat, year: nat)
    ensures Civil(n).year < year <==> n < DaysBeforeYear(year)
  {
    CivilIsDate(n);
    var d := Civil(n);
    WithinYear(d);
    if d.year < year {
      YearsGrow(d.year + 1, year);
    } else {
      YearsGrow(year, d.year);
    }
  }

  /** Dates are ordered field by field exactly as their day numbers are. */
  lemma DateOrder(d: Date, e: Date)
    requires IsDate(d) && IsDate(e) && DateLess(d, e)
    ensures DayNumber(d) < DayNumber(e)
  {
    if d.year < e.year {
      WithinYear(d);
      WithinYear(e);
      YearsGrow(d.year + 1, e.year);
    } else if d.month < e.month {
      MonthsGrow(d.year, d.month, e.month);
    }
  }

  lemma NumberIsDate(d: Date)
    requires IsDate(d)
    ensures DayNumber(d) >= 0 && Civil(DayNumber(d)) == d
  {
    WithinYear(d);
    var e := Civil(DayNumber(d));
    CivilIsDate(DayNumber(d));
    if DateLess(d, e) {
      DateOrder(d, e);
    } else if DateLess(e, d) {
      DateOrder(e, d);
    }
  }
}
