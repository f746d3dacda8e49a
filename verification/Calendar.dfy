// Days, months and years of the proleptic Gregorian calendar as ECMA-262 section 21.4.1 computes them.
// A day is its number counted from 1 January 1970; months are numbered 0 to 11 as in Date.
module Calendar {
  const MS_PER_DAY := 86400000

  // Section 21.4.1.3. Division rounds down for positive divisors.
  function DayFromYear(y: int): int {
    365 * (y - 1970) + (y - 1969) / 4 - (y - 1901) / 100 + (y - 1601) / 400
  }

  predicate Leap(y: int) {
    y % 4 == 0 && (y % 100 != 0 || y % 400 == 0)
  }

  function DaysInYear(y: int): int {
    if Leap(y) then 366 else 365
  }

  // Days of a year before its month m; 12 stands for the whole year.
  function DaysBefore(y: int, m: int): int
    requires 0 <= m <= 12
  {
    if m <= 1 then 31 * m
    else (if Leap(y) then 1 else 0) + PlainDaysBefore(m)
  }

  // The same from March on in a year that is not a leap year.
  function PlainDaysBefore(m: int): int {
    match m
    case 2 => 59 case 3 => 90 case 4 => 120 case 5 => 151 case 6 => 181 case 7 => 212
    case 8 => 243 case 9 => 273 case 10 => 304 case 11 => 334 case _ => 365
  }

  function DaysInMonth(y: int, m: int): int
    requires 0 <= m < 12
  {
    DaysBefore(y, m + 1) - DaysBefore(y, m)
  }

  datatype Civil = Civil(year: int, month: int, day: int)

  predicate ValidDate(c: Civil) {
    0 <= c.month < 12 && 1 <= c.day <= DaysInMonth(c.year, c.month)
  }

  // The first day of a month.
  function FirstDay(y: int, m: int): int
    requires 0 <= m < 12
  {
    DayFromYear(y) + DaysBefore(y, m)
  }

  // Section 21.4.1.28, MakeDay: twelve months over are a year, and days may overflow in either direction.
  function MakeDay(year: int, month: int, date: int): int
    decreases if month < 0 then 12 - month else month
  {
    if month < 0 then MakeDay(year - 1, month + 12, date)
    else if month < 12 then FirstDay(year, month) + date - 1
    else MakeDay(year + 1, month - 12, date)
  }

  function DayOf(c: Civil): int
    requires 0 <= c.month < 12
  {
    FirstDay(c.year, c.month) + c.day - 1
  }

  // A count of every k-th year rises in the years that k divides.

  lemma EveryFourth(y: int)
    ensures (y - 1968) / 4 - (y - 1969) / 4 == if y % 4 == 0 then 1 else 0
  {
  }

  lemma EveryHundredth(y: int)
    ensures (y - 1900) / 100 - (y - 1901) / 100 == if y % 100 == 0 then 1 else 0
  {
  }

  lemma EveryFourHundredth(y: int)
    ensures (y - 1600) / 400 - (y - 1601) / 400 == if y % 400 == 0 then 1 else 0
  {
  }

  lemma CenturiesAreFourth(y: int)
    ensures (y % 400 == 0 ==> y % 100 == 0) && (y % 100 == 0 ==> y % 4 == 0)
  {
  }

  lemma YearLength(y: int)
    ensures DayFromYear(y + 1) - DayFromYear(y) == DaysInYear(y)
  {
    EveryFourth(y);
    EveryHundredth(y);
    EveryFourHundredth(y);
    CenturiesAreFourth(y);
  }

  lemma {:induction false} YearsIncrease(y: int, z: int)
    requires y <= z
    ensures DayFromYear(z) - DayFromYear(y) >= 365 * (z - y)
    ensures DayFromYear(z) - DayFromYear(y) <= 366 * (z - y)
    decreases z - y
  {
    if y < z {
      YearLength(z - 1);
      YearsIncrease(y, z - 1);
    }
  }

  // Section 21.4.1.3, YearFromTime: the year a day is in.

  predicate InYear(day: int, y: int) {
    DayFromYear(y) <= day < DayFromYear(y + 1)
  }

  lemma {:induction false} YearFrom(day: int, y: int)
    requires DayFromYear(y) <= day
    ensures exists z :: InYear(day, z)
    decreases day - DayFromYear(y)
  {
    YearLength(y);
    if !InYear(day, y) { YearFrom(day, y + 1); }
  }

  lemma YearExists(day: int)
    ensures exists y :: InYear(day, y)
  {
    var y := 1970 + if day < 0 then day else 0;
    YearsIncrease(y, 1970);
    assert DayFromYear(1970) == 0;
    YearFrom(day, y);
  }

  lemma YearIsUnique(day: int, y: int, z: int)
    requires InYear(day, y) && InYear(day, z)
    ensures y == z
  {
    if z < y { YearsIncrease(z + 1, y); }
    if y < z { YearsIncrease(y + 1, z); }
  }

  // The date of a day, by the rules of sections 21.4.1.3 to 21.4.1.5: the one in whose year and month it falls.
  function CivilOf(day: int): Civil {
    CivilExists(day);
    DatesDiffer(day);
    var c :| IsDateOf(c, day);
    c
  }

  predicate IsDateOf(c: Civil, day: int) {
    ValidDate(c) && DayOf(c) == day
  }

  lemma CivilExists(day: int)
    ensures exists c :: IsDateOf(c, day)
  {
    YearExists(day);
    var y :| InYear(day, y);
    YearLength(y);
    var r := day - DayFromYear(y);
    var m := MonthOf(y, r);
    assert IsDateOf(Civil(y, m, r - DaysBefore(y, m) + 1), day);
  }

  lemma DatesDiffer(day: int)
    ensures forall c, d | IsDateOf(c, day) && IsDateOf(d, day) :: c == d
  {
    forall c, d | IsDateOf(c, day) && IsDateOf(d, day) ensures c == d { OneDate(c, d); }
  }

  lemma OneDate(c: Civil, d: Civil)
    requires ValidDate(c) && ValidDate(d) && DayOf(c) == DayOf(d)
    ensures c == d
  {
    hide DayOf, InYear, DaysInMonth;
    DateInYear(c);
    DateInYear(d);
    YearIsUnique(DayOf(c), c.year, d.year);
    MonthsApart(c, d);
  }

  lemma MonthsApart(c: Civil, d: Civil)
    requires ValidDate(c) && ValidDate(d) && c.year == d.year && DayOf(c) == DayOf(d)
    ensures c == d
  {
    hide DayFromYear, Leap;
  }

  lemma DateInYear(c: Civil)
    requires ValidDate(c)
    ensures InYear(DayOf(c), c.year)
  {
    YearLength(c.year);
  }

  function MonthOf(y: int, dayInYear: int): (m: int)
    requires 0 <= dayInYear < DaysInYear(y)
    ensures 0 <= m < 12 && DaysBefore(y, m) <= dayInYear < DaysBefore(y, m + 1)
  {
    if dayInYear < DaysBefore(y, 6) then
      if dayInYear < DaysBefore(y, 3) then
        if dayInYear < DaysBefore(y, 1) then 0 else if dayInYear < DaysBefore(y, 2) then 1 else 2
      else if dayInYear < DaysBefore(y, 4) then 3 else if dayInYear < DaysBefore(y, 5) then 4 else 5
    else if dayInYear < DaysBefore(y, 9) then
      if dayInYear < DaysBefore(y, 7) then 6 else if dayInYear < DaysBefore(y, 8) then 7 else 8
    else if dayInYear < DaysBefore(y, 10) then 9 else if dayInYear < DaysBefore(y, 11) then 10 else 11
  }

  // Dates and day numbers correspond one to one.
  lemma DayOfCivil(day: int)
    ensures ValidDate(CivilOf(day)) && DayOf(CivilOf(day)) == day
  {
  }

  lemma CivilOfDay(c: Civil)
    requires ValidDate(c)
    ensures CivilOf(DayOf(c)) == c
  {
    OneDate(c, CivilOf(DayOf(c)));
  }

  lemma FirstIsValid(y: int, m: int)
    requires 0 <= m < 12
    ensures ValidDate(Civil(y, m, 1))
  {
  }

  // MakeDay of a month and of the one after, also past December.
  lemma FirstDays(y: int, m: int)
    requires 0 <= m < 12
    ensures MakeDay(y, m, 1) == FirstDay(y, m)
    ensures MakeDay(y, m + 1, 1) == FirstDay(y, m) + DaysInMonth(y, m)
    ensures MakeDay(y, m + 1, 1) == if m < 11 then FirstDay(y, m + 1) else FirstDay(y + 1, 0)
  {
    if m == 11 {
      YearLength(y);
      assert DaysBefore(y, 12) == DaysInYear(y);
    }
  }

  // A day is of a month exactly when it is one of that many from the first.
  lemma InMonthIff(day: int, y: int, m: int)
    requires 0 <= m < 12
    ensures FirstDay(y, m) <= day < FirstDay(y, m) + DaysInMonth(y, m)
       <==> CivilOf(day).year == y && CivilOf(day).month == m
  {
    hide CivilOf, FirstDay, DaysInMonth;
    DayOfCivil(day);
    if FirstDay(y, m) <= day < FirstDay(y, m) + DaysInMonth(y, m) {
      CivilOfDay(Civil(y, m, day - FirstDay(y, m) + 1));
    }
  }

  // The calendar by its rules alone, months numbered from 1: how long each is, which date follows which, and where
  // the count starts.

  function MonthLength(y: int, m: int): int
    requires 1 <= m <= 12
  {
    if m in {1, 3, 5, 7, 8, 10, 12} then 31
    else if m in {4, 6, 9, 11} then 30
    else if y % 4 != 0 then 28
    else if y % 100 != 0 then 29
    else if y % 400 != 0 then 28
    else 29
  }

  lemma MonthLengths(y: int, m: int)
    requires 1 <= m <= 12
    ensures DaysInMonth(y, m - 1) == MonthLength(y, m)
  {
  }

  function NextDate(c: Civil): Civil
    requires 0 <= c.month < 12
  {
    if c.day < MonthLength(c.year, c.month + 1) then c.(day := c.day + 1)
    else if c.month < 11 then Civil(c.year, c.month + 1, 1)
    else Civil(c.year + 1, 0, 1)
  }

  lemma CountStarts()
    ensures CivilOf(0) == Civil(1970, 0, 1)
  {
    var epoch := Civil(1970, 0, 1);
    assert ValidDate(epoch) && DayOf(epoch) == 0;
    hide CivilOf, DayOf;
    CivilOfDay(epoch);
  }

  lemma DatesFollow(day: int)
    ensures 0 <= CivilOf(day).month < 12 && CivilOf(day + 1) == NextDate(CivilOf(day))
  {
    hide CivilOf, DayOf, NextDate, DaysInMonth;
    DayOfCivil(day);
    NextDateIsNextDay(CivilOf(day));
    CivilOfDay(NextDate(CivilOf(day)));
  }

  lemma NextDateIsNextDay(c: Civil)
    requires ValidDate(c)
    ensures ValidDate(NextDate(c)) && DayOf(NextDate(c)) == DayOf(c) + 1
  {
    MonthLengths(c.year, c.month + 1);
    FirstDays(c.year, c.month);
    FirstIsValid(c.year, (c.month + 1) % 12);
    FirstIsValid(c.year + 1, 0);
    hide DaysInMonth, FirstDay;
  }
}
