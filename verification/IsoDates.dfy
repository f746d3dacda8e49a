// Date keys cut from toISOString, and adding days to a date string.
module IsoDates {
  import opened Calendar
  import opened Decimals

  // The largest time value a Date holds, in milliseconds (ECMA-262 section 21.4.1.31, TimeClip).
  const MAX_TIME := 8640000000000000
  const MAX_DAY := 100000000

  // Date.UTC takes the years 0 to 99 for 1900 to 1999 (section 21.4.1.30, MakeFullYear).
  function FullYear(y: int): int {
    if 0 <= y <= 99 then 1900 + y else y
  }

  predicate IsoDate(s: string) {
    |s| == 10 && s[4] == '-' && s[7] == '-' && Digits(s[..4]) && Digits(s[5..7]) && Digits(s[8..])
  }

  type DateString = s: string | IsoDate(s) witness "1970-01-01"

  function Fields(s: DateString): Civil {
    Civil(Value(s[..4]), Value(s[5..7]) - 1, Value(s[8..]))
  }

  // The fields that ten characters can hold.
  predicate Writable(c: Civil) {
    0 <= c.year <= 9999 && 0 <= c.month + 1 <= 99 && 0 <= c.day <= 99
  }

  function Spelled(c: Civil): string
    requires Writable(c)
  {
    Pad(c.year, 4) + "-" + Pad(c.month + 1, 2) + "-" + Pad(c.day, 2)
  }

  lemma SpelledReads(c: Civil)
    requires Writable(c)
    ensures IsoDate(Spelled(c)) && Fields(Spelled(c)) == c
  {
    var s, year, month, day := Spelled(c), Pad(c.year, 4), Pad(c.month + 1, 2), Pad(c.day, 2);
    assert s[..4] == year && s[5..7] == month && s[8..] == day;
    SmallPowers();
    assert Value(year) == c.year by { PadHasValue(c.year, 4); }
    assert Value(month) == c.month + 1 by { PadHasValue(c.month + 1, 2); }
    assert Value(day) == c.day by { PadHasValue(c.day, 2); }
  }

  lemma ReadSpells(s: DateString)
    ensures Writable(Fields(s)) && s == Spelled(Fields(s))
  {
    SmallPowers();
    ValueHasPad(s[..4]);
    ValueHasPad(s[5..7]);
    ValueHasPad(s[8..]);
    assert s == s[..4] + "-" + s[5..7] + "-" + s[8..];
  }

  // The one date string that reads back as the given fields.
  function Format(c: Civil): DateString
    requires Writable(c)
  {
    SpelledReads(c);
    OneSpelling(c);
    var s: DateString :| Fields(s) == c;
    s
  }

  lemma OneSpelling(c: Civil)
    ensures forall s: DateString, t: DateString | Fields(s) == c && Fields(t) == c :: s == t
  {
    forall s: DateString, t: DateString | Fields(s) == c && Fields(t) == c ensures s == t {
      ReadSpells(s);
      ReadSpells(t);
    }
  }

  lemma FormatSpells(c: Civil)
    requires Writable(c)
    ensures Format(c) == Spelled(c)
  {
    ReadSpells(Format(c));
  }

  lemma DateIsWritable(day: int)
    requires 0 <= CivilOf(day).year <= 9999
    ensures Writable(CivilOf(day))
  {
    DayOfCivil(day);
    var c := CivilOf(day);
    assert DaysInMonth(c.year, c.month) <= 31;
  }

  // What toISOString().slice(0, 10) gives: a date; for years outside 0 to 9999, which take a sign and
  // six digits, the year and month those ten characters spell; or the RangeError of an invalid date.
  datatype Key = Date(text: DateString) | Extended(year: int, month: int) | RangeError

  function DateKey(day: int): Key {
    var c := CivilOf(day);
    if 0 <= c.year <= 9999 then DateIsWritable(day); Date(Format(c)) else Extended(c.year, c.month)
  }

  function TimeKey(t: int): Key {
    if -MAX_TIME <= t <= MAX_TIME then DateKey(t / MS_PER_DAY) else RangeError
  }

  // The same of the midnight that starts a day.
  function MidnightKey(day: int): Key {
    if -MAX_DAY <= day <= MAX_DAY then DateKey(day) else RangeError
  }

  lemma MidnightKeyIs(day: int)
    ensures TimeKey(day * MS_PER_DAY) == MidnightKey(day)
  {
    assert day * MS_PER_DAY / MS_PER_DAY == day;
  }

  // The day that Date.UTC makes of a date's fields.
  function UtcDay(f: Civil): int {
    MakeDay(FullYear(f.year), f.month, f.day)
  }

  function AddDaysIso(s: DateString, days: int): Key {
    var f := Fields(s);
    TimeKey(UtcDay(f.(day := f.day + days)) * MS_PER_DAY)
  }

  // A date that was cut reads back as its day's.
  lemma KeyIsDate(day: int)
    requires DateKey(day).Date?
    ensures 0 <= CivilOf(day).year <= 9999 && Fields(DateKey(day).text) == CivilOf(day)
  {
    DateIsWritable(day);
  }

  // Keys of different years differ.
  lemma KeyTellsYear(a: int, b: int)
    requires DateKey(a) == DateKey(b)
    ensures CivilOf(a).year == CivilOf(b).year
  {
    if DateKey(a).Date? {
      KeyIsDate(a);
      KeyIsDate(b);
    }
  }

  lemma YearApart(a: int, b: int)
    requires a - b >= 366
    ensures CivilOf(a).year > CivilOf(b).year
  {
    hide CivilOf, DaysInYear;
    var y, z := CivilOf(a).year, CivilOf(b).year;
    assert InYear(a, y) by { DayOfCivil(a); DateInYear(CivilOf(a)); }
    assert InYear(b, z) by { DayOfCivil(b); DateInYear(CivilOf(b)); }
    YearsIncrease(z, z + 1);
    if y <= z { YearsIncrease(y + 1, z + 1); }
  }

  // Adding days.

  lemma AddedDays(s: DateString, days: int)
    ensures AddDaysIso(s, days) == MidnightKey(UtcDay(Fields(s)) + days)
  {
    hide DateKey, UtcDay, Fields, TimeKey, MidnightKey;
    UtcDayAdds(Fields(s), days);
    MidnightKeyIs(UtcDay(Fields(s)) + days);
  }

  lemma UtcDayAdds(f: Civil, days: int)
    ensures UtcDay(f.(day := f.day + days)) == UtcDay(f) + days
  {
    MakeDayAdds(FullYear(f.year), f.month, f.day, days);
  }

  lemma {:induction false} MakeDayAdds(year: int, month: int, date: int, days: int)
    ensures MakeDay(year, month, date + days) == MakeDay(year, month, date) + days
    decreases if month < 0 then 12 - month else month
  {
    if month < 0 {
      MakeDayAdds(year - 1, month + 12, date, days);
    } else if month >= 12 {
      MakeDayAdds(year + 1, month - 12, date, days);
    }
  }

  // A date string that came out reads back as the day it was cut from, except in the years 0 to 99,
  // which read as 1900 to 1999 and so as a later year.
  lemma ReadBack(day: int)
    requires DateKey(day).Date?
    ensures var f := Fields(DateKey(day).text);
      if f.year >= 100 then UtcDay(f) == day else day + 366 <= UtcDay(f) <= day + 700000
  {
    KeyIsDate(day);
    var c := CivilOf(day);
    DayOfCivil(day);
    if c.year < 100 {
      YearsIncrease(c.year, 1900 + c.year);
      assert DaysBefore(c.year, c.month) - 1 <= DaysBefore(1900 + c.year, c.month) <= DaysBefore(c.year, c.month) + 1;
    }
  }

  // Adding no days gives back exactly the valid dates of the year 100 and later.
  lemma AddZeroIsIdentityIff(s: DateString)
    ensures AddDaysIso(s, 0) == Date(s) <==> ValidDate(Fields(s)) && Fields(s).year >= 100
  {
    hide AddDaysIso, TimeKey, DateKey, UtcDay, Fields, ValidDate;
    AddedDays(s, 0);
    if AddDaysIso(s, 0) == Date(s) {
      GivenBack(s, UtcDay(Fields(s)));
    }
    if ValidDate(Fields(s)) && Fields(s).year >= 100 {
      ValidIsGivenBack(s);
    }
  }

  lemma GivenBack(s: DateString, day: int)
    requires DateKey(day) == Date(s) && day == UtcDay(Fields(s))
    ensures ValidDate(Fields(s)) && Fields(s).year >= 100
  {
    ReadBack(day);
    KeyIsDate(day);
    DayOfCivil(day);
  }

  lemma ValidIsGivenBack(s: DateString)
    requires ValidDate(Fields(s)) && Fields(s).year >= 100
    ensures MidnightKey(UtcDay(Fields(s))) == Date(s)
  {
    var f := Fields(s);
    assert 0 <= f.year <= 9999 && Writable(f) by { ReadSpells(s); }
    hide Fields, FirstDay, Writable, CivilOf;
    assert Format(f) == s by { OneSpelling(f); }
    assert CivilOf(DayOf(f)) == f by { CivilOfDay(f); }
    assert -MAX_DAY <= DayOf(f) <= MAX_DAY by { DayInRange(f); }
  }

  lemma DayInRange(c: Civil)
    requires ValidDate(c) && 0 <= c.year <= 9999
    ensures -MAX_DAY <= DayOf(c) <= MAX_DAY
  {
    if c.year <= 1970 { YearsIncrease(c.year, 1970); } else { YearsIncrease(1970, c.year); }
  }

  // Adding in two steps is adding once exactly when the date between is of the year 100 or later, and so not
  // read as another year, or the end is past the range of Date either way.
  lemma AddDaysComposesIff(s: DateString, a: int, b: int, between: DateString)
    requires AddDaysIso(s, a) == Date(between)
    ensures AddDaysIso(between, b) == AddDaysIso(s, a + b) <==>
      || Fields(between).year >= 100
      || UtcDay(Fields(s)) + a + b > MAX_DAY
      || UtcDay(Fields(between)) + b < -MAX_DAY
  {
    hide AddDaysIso, TimeKey, DateKey, UtcDay, Fields;
    var day, read := UtcDay(Fields(s)) + a, UtcDay(Fields(between));
    AddedDays(s, a);
    AddedDays(s, a + b);
    AddedDays(between, b);
    assert DateKey(day) == Date(between);
    ReadBack(day);
    hide MidnightKey;
    if Fields(between).year < 100 { EndsMeetIff(day + b, read + b); }
  }

  lemma EndsMeetIff(day: int, read: int)
    requires 366 <= read - day <= 700000
    ensures MidnightKey(read) == MidnightKey(day) <==> day > MAX_DAY || read < -MAX_DAY
  {
    KeysApart(read, day);
    DateIsKey(day);
    DateIsKey(read);
    hide DateKey;
  }

  lemma DateIsKey(day: int)
    ensures DateKey(day) != RangeError
  {
  }

  lemma KeysApart(a: int, b: int)
    requires a - b >= 366
    ensures MidnightKey(a) == MidnightKey(b) ==> MidnightKey(a) == RangeError
  {
    if MidnightKey(a) == MidnightKey(b) != RangeError {
      KeyTellsYear(a, b);
      YearApart(a, b);
    }
  }

  // What comes out is the calendar date so many days away from the one that went in.
  lemma AddDaysMovesTheDate(s: DateString, days: int, next: DateString)
    requires ValidDate(Fields(s)) && Fields(s).year >= 100 && AddDaysIso(s, days) == Date(next)
    ensures ValidDate(Fields(next)) && DayOf(Fields(next)) == DayOf(Fields(s)) + days
  {
    var day := DayOf(Fields(s)) + days;
    assert DateKey(day) == Date(next) by { AddedDays(s, days); }
    KeyIsDate(day);
    DayOfCivil(day);
  }

  // Month by month: a day more is the next date by the rules of the calendar, up to the end of the year 9999.

  function DateText(y: int, m: int, d: int): string
    requires 0 <= y <= 9999 && 1 <= m <= 12 && 1 <= d <= 31
  {
    Pad(y, 4) + "-" + Pad(m, 2) + "-" + Pad(d, 2)
  }

  lemma DateTextIs(y: int, m: int, d: int)
    requires 0 <= y <= 9999 && 1 <= m <= 12 && 1 <= d <= 31
    ensures IsoDate(DateText(y, m, d)) && Fields(DateText(y, m, d)) == Civil(y, m - 1, d)
    ensures Format(Civil(y, m - 1, d)) == DateText(y, m, d)
  {
    SpelledReads(Civil(y, m - 1, d));
    FormatSpells(Civil(y, m - 1, d));
  }

  lemma AddOneDay(y: int, m: int, d: int)
    requires 100 <= y <= 9999 && 1 <= m <= 12 && 1 <= d <= MonthLength(y, m)
    ensures IsoDate(DateText(y, m, d))
    ensures AddDaysIso(DateText(y, m, d), 1) ==
      if d < MonthLength(y, m) then Date(DateText(y, m, d + 1))
      else if m < 12 then Date(DateText(y, m + 1, 1))
      else if y < 9999 then Date(DateText(y + 1, 1, 1))
      else Extended(10000, 0)
  {
    hide AddDaysIso, Format, Fields, IsoDate, DateText, NextDate;
    NextKeyOf(y, m, d);
    NextText(y, m, d);
  }

  lemma NextKeyOf(y: int, m: int, d: int)
    requires 100 <= y <= 9999 && 1 <= m <= 12 && 1 <= d <= MonthLength(y, m)
    ensures IsoDate(DateText(y, m, d))
    ensures var next := NextDate(Civil(y, m - 1, d));
      AddDaysIso(DateText(y, m, d), 1) ==
        if next.year <= 9999 then Date(Format(next)) else Extended(next.year, next.month)
  {
    assert d <= 31;
    assert ValidDate(Civil(y, m - 1, d)) by { MonthLengths(y, m); }
    DateTextIs(y, m, d);
    hide AddDaysIso, Format, Fields, IsoDate, DateText, NextDate, ValidDate;
    AddedOne(DateText(y, m, d));
  }

  lemma AddedOne(s: DateString)
    requires ValidDate(Fields(s)) && 100 <= Fields(s).year <= 9999
    ensures var next := NextDate(Fields(s));
      AddDaysIso(s, 1) == if next.year <= 9999 then Date(Format(next)) else Extended(next.year, next.month)
  {
    hide AddDaysIso, MidnightKey, UtcDay, DayOf, Format, Fields, NextDate;
    AddedDays(s, 1);
    UtcDayIs(Fields(s));
    NextDateKey(Fields(s));
  }

  lemma UtcDayIs(c: Civil)
    requires ValidDate(c) && c.year >= 100
    ensures UtcDay(c) == DayOf(c)
  {
  }

  lemma NextText(y: int, m: int, d: int)
    requires 100 <= y <= 9999 && 1 <= m <= 12 && 1 <= d <= MonthLength(y, m)
    ensures var next := NextDate(Civil(y, m - 1, d));
      if y == 9999 && m == 12 && d == 31 then next == Civil(10000, 0, 1)
      else
        Writable(next) && Format(next) == (
          if d < MonthLength(y, m) then DateText(y, m, d + 1)
          else if m < 12 then DateText(y, m + 1, 1)
          else DateText(y + 1, 1, 1))
  {
    hide Format, Fields, IsoDate, DateText;
    if d < MonthLength(y, m) { DateTextIs(y, m, d + 1); }
    else if m < 12 { DateTextIs(y, m + 1, 1); }
    else if y < 9999 { DateTextIs(y + 1, 1, 1); }
  }

  lemma NextDateKey(c: Civil)
    requires ValidDate(c) && 0 <= c.year <= 9999
    ensures var next := NextDate(c);
      MidnightKey(DayOf(c) + 1) == if next.year <= 9999 then Date(Format(next)) else Extended(next.year, next.month)
  {
    DayInRange(c);
    NextDateIsNextDay(c);
    CivilOfDay(NextDate(c));
    assert DayOf(c) + 1 <= MAX_DAY by { if c.year <= 1970 { YearsIncrease(c.year, 1970); } else { YearsIncrease(1970, c.year); } }
    hide CivilOf, DayOf, Format, ValidDate, NextDate;
  }

  // The year 50 reads as 1950, so even adding no days moves such a date by 1900 years.
  lemma YearFiftyReadsAs1950()
    ensures AddDaysIso(Format(Civil(50, 0, 1)), 0) == Date(Format(Civil(1950, 0, 1)))
  {
    var c, f := Civil(1950, 0, 1), Civil(50, 0, 1);
    var text := Format(f);
    assert UtcDay(f) == DayOf(c) && ValidDate(c);
    assert Fields(text) == f;
    hide AddDaysIso, TimeKey, UtcDay, DayOf, ValidDate, FirstDay, Format;
    AddedDays(text, 0);
    CivilOfDay(c);
    DayInRange(c);
  }
}
