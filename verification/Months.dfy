// The Manila months that analytics reports on, and which instants each of them holds.
module Months {
  import opened Calendar
  import opened Decimals
  import opened IsoDates
  import opened Wrappers

  const MANILA_OFFSET := 28800000

  datatype Range = Range(start: int, end: int, days: int)

  predicate MonthString(s: string) {
    |s| == 7 && s[4] == '-' && Digits(s[..4]) && Digits(s[5..]) &&
    (if s[5] == '0' then s[6] != '0' else s[5] == '1' && s[6] <= '2')
  }

  function Year(s: string): int
    requires MonthString(s)
  {
    FullYear(Value(s[..4]))
  }

  function Month(s: string): int
    requires MonthString(s)
  {
    Value(s[5..]) - 1
  }

  // Math.round of the days between two instants.
  function DaysBetween(start: int, end: int): int {
    (end - start + 43200000) / MS_PER_DAY
  }

  // Midnight in Manila as a day starts.
  function Midnight(day: int): int {
    day * MS_PER_DAY - MANILA_OFFSET
  }

  function RangeOf(year: int, index: int): Range {
    var start, end := Midnight(MakeDay(year, index, 1)), Midnight(MakeDay(year, index + 1, 1));
    Range(start, end, DaysBetween(start, end))
  }

  function MonthRange(s: string): Option<Range> {
    if MonthString(s) then Some(RangeOf(Year(s), Month(s))) else None
  }

  predicate Within(t: int, month: Range) {
    month.start <= t < month.end
  }

  function ManilaDay(t: int): int {
    (t + MANILA_OFFSET) / MS_PER_DAY
  }

  // The string of a year and a month counted from 1.
  function MonthKey(y: nat, m: nat): string {
    Pad(y, 4) + "-" + Pad(m, 2)
  }

  lemma MonthNumber(s: string)
    requires MonthString(s)
    ensures 0 <= Month(s) < 12
  {
    var d := s[5..];
    assert d[..1][..0] == "" && d[..1] == [d[0]];
    assert Value(d[..1]) == d[0] as int - 48;
    assert IsDigit(d[0]) && IsDigit(d[1]) && d[0] == s[5] && d[1] == s[6];
  }

  lemma TwoDigits(m: nat)
    requires 1 <= m <= 12
    ensures var d := Pad(m, 2); if d[0] == '0' then d[1] != '0' else d[0] == '1' && d[1] <= '2'
  {
    assert Pad(m, 2) == Pad(m / 10, 1) + [Digit(m % 10)];
    assert Pad(m / 10, 1) == Pad(m / 10 / 10, 0) + [Digit(m / 10 % 10)];
  }

  // The month strings are the years 0000 to 9999 with the months 01 to 12.
  lemma MonthStringIff(s: string)
    ensures MonthString(s) <==> exists y: nat, m: nat :: y <= 9999 && 1 <= m <= 12 && s == MonthKey(y, m)
  {
    SmallPowers();
    if MonthString(s) {
      MonthNumber(s);
      ValueHasPad(s[..4]);
      ValueHasPad(s[5..]);
      assert s == MonthKey(Value(s[..4]), Value(s[5..]));
    }
    forall y: nat, m: nat | y <= 9999 && 1 <= m <= 12 && s == MonthKey(y, m) ensures MonthString(s) {
      KeyOfMonth(y, m);
    }
  }

  lemma KeyOfMonth(y: nat, m: nat)
    requires y <= 9999 && 1 <= m <= 12
    ensures var s := MonthKey(y, m); MonthString(s) && Value(s[..4]) == y && Value(s[5..]) == m
  {
    var s, head, tail := MonthKey(y, m), Pad(y, 4), Pad(m, 2);
    assert s[..4] == head && s[5..] == tail && s[4] == '-';
    assert s[5] == tail[0] && s[6] == tail[1];
    assert MonthString(s) by { TwoDigits(m); }
    assert Value(head) == y && Value(tail) == m by {
      SmallPowers();
      PadHasValue(y, 4);
      PadHasValue(m, 2);
    }
  }

  // A range runs from the first midnight of its calendar month to that of the next,
  // and spans whole days, as many as the month has.
  lemma RangeIsTheMonth(y: int, m: int)
    requires 0 <= m < 12
    ensures var r := RangeOf(y, m);
      && r.start == Midnight(FirstDay(y, m))
      && r.end == Midnight(FirstDay(y, m) + DaysInMonth(y, m))
      && r.days == DaysInMonth(y, m)
      && r.end - r.start == r.days * MS_PER_DAY
  {
    FirstDays(y, m);
    WholeDays(MakeDay(y, m, 1), MakeDay(y, m + 1, 1));
  }

  // And that is 31 days, 30, or those of February by the leap rule.
  lemma RangeDays(y: int, m: int)
    requires 1 <= m <= 12
    ensures var r := RangeOf(y, m - 1);
      r.days == MonthLength(y, m) && r.end - r.start == MonthLength(y, m) * 24 * 60 * 60 * 1000
  {
    RangeIsTheMonth(y, m - 1);
    MonthLengths(y, m);
  }

  lemma WholeDays(a: int, b: int)
    ensures DaysBetween(Midnight(a), Midnight(b)) == b - a
  {
  }

  lemma DayBounds(t: int, a: int, b: int)
    ensures Midnight(a) <= t < Midnight(b) <==> a <= ManilaDay(t) < b
  {
  }

  // An instant lies in the range of a string exactly when Manila's calendar then shows that year and month.
  lemma WithinIff(s: string, t: int)
    requires MonthString(s)
    ensures Within(t, MonthRange(s).value) <==>
      CivilOf(ManilaDay(t)).year == Year(s) && CivilOf(ManilaDay(t)).month == Month(s)
  {
    MonthNumber(s);
    WithinMonth(Year(s), Month(s), t);
  }

  lemma WithinMonth(y: int, m: int, t: int)
    requires 0 <= m < 12
    ensures Within(t, RangeOf(y, m)) <==> CivilOf(ManilaDay(t)).year == y && CivilOf(ManilaDay(t)).month == m
  {
    RangeIsTheMonth(y, m);
    DayBounds(t, FirstDay(y, m), FirstDay(y, m) + DaysInMonth(y, m));
    InMonthIff(ManilaDay(t), y, m);
  }

  predicate Covers(s: string, t: int) {
    MonthRange(s).Some? && Within(t, MonthRange(s).value)
  }

  // The strings of a date's month: its own year's, and for the 1900s also that of the years 0000 to 0099.
  predicate SpellsMonthOf(s: string, c: Civil) {
    0 <= c.month < 12 &&
    ((100 <= c.year <= 9999 && s == MonthKey(c.year, c.month + 1)) ||
     (1900 <= c.year <= 1999 && s == MonthKey(c.year - 1900, c.month + 1)))
  }

  // The ranges tile time: an instant of the years 100 to 9999 is in the range of its own month,
  // and of no other but, in the 1900s, that of the same month of the years 0000 to 0099.
  lemma MonthsTileTime(s: string, t: int)
    ensures Covers(s, t) <==> SpellsMonthOf(s, CivilOf(ManilaDay(t)))
  {
    if Covers(s, t) {
      OwnMonth(s, t);
    } else if SpellsMonthOf(s, CivilOf(ManilaDay(t))) {
      KeyHolds(s, t, CivilOf(ManilaDay(t)));
    }
  }

  lemma OwnMonth(s: string, t: int)
    requires Covers(s, t)
    ensures SpellsMonthOf(s, CivilOf(ManilaDay(t)))
  {
    var c, y := CivilOf(ManilaDay(t)), Value(s[..4]);
    assert c.year == FullYear(y) && c.month == Month(s) by { WithinIff(s, t); }
    assert y <= 9999 && 0 <= Month(s) < 12 && s == MonthKey(y, Month(s) + 1) by { StringIsKey(s); }
  }

  lemma KeyHolds(s: string, t: int, c: Civil)
    requires c == CivilOf(ManilaDay(t)) && SpellsMonthOf(s, c)
    ensures Covers(s, t)
  {
    hide MonthString, MonthKey, Year, Month, RangeOf, Within, CivilOf, ManilaDay;
    var y := if s == MonthKey(c.year, c.month + 1) && c.year >= 100 then c.year else c.year - 1900;
    KeyReads(y, c.month + 1);
    WithinIff(s, t);
  }

  lemma KeyReads(y: nat, m: nat)
    requires y <= 9999 && 1 <= m <= 12
    ensures var s := MonthKey(y, m); MonthString(s) && Year(s) == FullYear(y) && Month(s) == m - 1
  {
    KeyOfMonth(y, m);
  }

  lemma StringIsKey(s: string)
    requires MonthString(s)
    ensures 0 <= Month(s) < 12 && Value(s[..4]) <= 9999 && s == MonthKey(Value(s[..4]), Month(s) + 1)
  {
    MonthNumber(s);
    SmallPowers();
    ValueHasPad(s[..4]);
    ValueHasPad(s[5..]);
    assert s == s[..4] + "-" + s[5..];
  }

  // A month ends where the next string's month starts, except that 0099-12 reads as December 1999.
  lemma MonthsMeetIff(y: nat, m: nat)
    requires y <= 9999 && 1 <= m <= 12 && !(y == 9999 && m == 12)
    ensures var r := MonthRange(MonthKey(y, m));
      var next := MonthRange(if m == 12 then MonthKey(y + 1, 1) else MonthKey(y, m + 1));
      r.Some? && next.Some? && (r.value.end == next.value.start <==> !(y == 99 && m == 12))
  {
    var z, k := if m == 12 then y + 1 else y, if m == 12 then 1 else m + 1;
    hide MonthString, MonthKey, Year, Month, RangeOf;
    KeyReads(y, m);
    KeyReads(z, k);
    Meet(FullYear(y), m - 1, FullYear(z), k - 1);
  }

  lemma Meet(y: int, m: int, z: int, k: int)
    requires 0 <= m < 12 && 0 <= k < 12
    ensures RangeOf(y, m).end == RangeOf(z, k).start <==> 12 * y + m + 1 == 12 * z + k
  {
    var y', m' := if m < 11 then y else y + 1, if m < 11 then m + 1 else 0;
    var end, start := FirstDay(y', m'), FirstDay(z, k);
    assert end == start <==> y' == z && m' == k by { FirstDayTells(y', m', z, k); }
    assert RangeOf(y, m).end == Midnight(end) by { FirstDays(y, m); }
    assert RangeOf(z, k).start == Midnight(start) by { FirstDays(z, k); }
  }

  lemma FirstDayTells(y: int, m: int, z: int, k: int)
    requires 0 <= m < 12 && 0 <= k < 12
    ensures FirstDay(y, m) == FirstDay(z, k) <==> y == z && m == k
  {
    hide ValidDate, CivilOf, FirstDay;
    FirstIsValid(y, m);
    FirstIsValid(z, k);
    CivilOfDay(Civil(y, m, 1));
    CivilOfDay(Civil(z, k, 1));
  }

  // So the strings 0050-01 and 1950-01 name one month.
  lemma YearFiftyIsMonthOf1950()
    ensures MonthRange(MonthKey(50, 1)) == MonthRange(MonthKey(1950, 1)) != None
  {
    KeyOfMonth(50, 1);
    KeyOfMonth(1950, 1);
  }
}
