// The bookings of a month counted by day.
module MonthHistogram {
  import opened Calendar
  import opened IsoDates
  import opened Months
  import opened Wrappers

  datatype Bucket = Bucket(date: string, count: nat)

  // A Map keeps its keys in the order they were first set.
  datatype Buckets = Buckets(keys: seq<string>, counts: map<string, nat>) {
    function Get(key: string): nat {
      if key in counts then counts[key] else 0
    }

    function Set(key: string, count: nat): Buckets {
      Buckets(if key in counts then keys else keys + [key], counts[key := count])
    }

    function Entries(): seq<Bucket> {
      seq(|keys|, i requires 0 <= i < |keys| => Bucket(keys[i], Get(keys[i])))
    }
  }

  // The keys are these dates in order, and the counts are these.
  ghost predicate Holds(b: Buckets, dates: seq<string>, counts: seq<nat>) {
    && b.keys == dates
    && |counts| == |dates|
    && (forall key :: key in b.counts <==> key in dates)
    && (forall i | 0 <= i < |dates| :: b.Get(dates[i]) == counts[i])
  }

  lemma NewKey(b: Buckets, dates: seq<string>, counts: seq<nat>, key: string)
    requires Holds(b, dates, counts) && key !in dates
    ensures Holds(b.Set(key, 0), dates + [key], counts + [0])
  {
  }

  lemma KnownKey(b: Buckets, dates: seq<string>, counts: seq<nat>, k: nat)
    requires Holds(b, dates, counts) && k < |dates|
    requires forall i | 0 <= i < |dates| && i != k :: dates[i] != dates[k]
    ensures Holds(b.Set(dates[k], b.Get(dates[k]) + 1), dates, counts[k := counts[k] + 1])
  {
  }

  predicate HasKey(t: int) {
    TimeKey(t + MANILA_OFFSET).Date?
  }

  function ManilaDateKey(t: int): string
    requires HasKey(t)
  {
    TimeKey(t + MANILA_OFFSET).text
  }

  // The rows the query selects.
  function Selected(createdAt: seq<int>, month: Range): (r: seq<int>)
    ensures forall t :: t in r ==> Within(t, month)
  {
    if createdAt == [] then []
    else
      var n := |createdAt| - 1;
      Selected(createdAt[..n], month) + if Within(createdAt[n], month) then [createdAt[n]] else []
  }

  // How many of the times fall on a day in Manila.
  function OnDay(times: seq<int>, day: int): nat {
    if times == [] then 0
    else
      var n := |times| - 1;
      OnDay(times[..n], day) + if ManilaDay(times[n]) == day then 1 else 0
  }

  function OnDays(times: seq<int>, first: int, days: nat): nat {
    if days == 0 then 0 else OnDays(times, first, days - 1) + OnDay(times, first + days - 1)
  }

  function Total(buckets: seq<Bucket>): nat {
    if buckets == [] then 0 else Total(buckets[..|buckets| - 1]) + buckets[|buckets| - 1].count
  }

  lemma OneMoreOnDay(times: seq<int>, t: int, day: int)
    ensures OnDay(times + [t], day) == OnDay(times, day) + if ManilaDay(t) == day then 1 else 0
  {
    assert (times + [t])[..|times|] == times;
  }

  lemma {:induction false} SelectionKeepsDays(createdAt: seq<int>, month: Range, day: int)
    requires month.start <= day * MS_PER_DAY - MANILA_OFFSET && (day + 1) * MS_PER_DAY - MANILA_OFFSET <= month.end
    ensures OnDay(Selected(createdAt, month), day) == OnDay(createdAt, day)
  {
    if createdAt != [] {
      var n := |createdAt| - 1;
      SelectionKeepsDays(createdAt[..n], month, day);
      if Within(createdAt[n], month) {
        OneMoreOnDay(Selected(createdAt[..n], month), createdAt[n], day);
      } else {
        assert Selected(createdAt[..n], month) + [] == Selected(createdAt[..n], month);
      }
    }
  }

  lemma {:induction false} OneMoreDay(times: seq<int>, t: int, first: int, days: nat)
    ensures OnDays(times + [t], first, days) ==
      OnDays(times, first, days) + if first <= ManilaDay(t) < first + days then 1 else 0
  {
    if days > 0 {
      OneMoreDay(times, t, first, days - 1);
      OneMoreOnDay(times, t, first + days - 1);
    }
  }

  lemma {:induction false} NoTimes(first: int, days: nat)
    ensures OnDays([], first, days) == 0
  {
    if days > 0 { NoTimes(first, days - 1); }
  }

  // Times that all fall on the days of a stretch are counted there, each once.
  lemma {:induction false} DaysConserve(times: seq<int>, first: int, days: nat)
    requires forall t :: t in times ==> first <= ManilaDay(t) < first + days
    ensures OnDays(times, first, days) == |times|
  {
    if times == [] {
      NoTimes(first, days);
    } else {
      var n := |times| - 1;
      DaysConserve(times[..n], first, days);
      OneMoreDay(times[..n], times[n], first, days);
      assert times == times[..n] + [times[n]];
    }
  }

  lemma {:induction false} TotalCounts(buckets: seq<Bucket>, times: seq<int>, first: int)
    requires forall i | 0 <= i < |buckets| :: buckets[i].count == OnDay(times, first + i)
    ensures Total(buckets) == OnDays(times, first, |buckets|)
  {
    if buckets != [] { TotalCounts(buckets[..|buckets| - 1], times, first); }
  }

  function Tallies(times: seq<int>, first: int, days: nat): seq<nat> {
    seq<nat>(days, i => OnDay(times, first + i))
  }

  lemma TallyNext(times: seq<int>, t: int, first: int, days: nat)
    requires first <= ManilaDay(t) < first + days
    ensures var k, before := ManilaDay(t) - first, Tallies(times, first, days);
      Tallies(times + [t], first, days) == before[k := before[k] + 1]
  {
    forall day ensures OnDay(times + [t], day) == OnDay(times, day) + if ManilaDay(t) == day then 1 else 0 {
      OneMoreOnDay(times, t, day);
    }
  }

  // The keys of a range's instants: one for each of its days, and no two alike.
  ghost predicate KeysAre(key: int --> string, month: Range, first: int, dates: seq<string>) {
    && month.days == |dates|
    && month.start == Midnight(first) && month.end == Midnight(first + |dates|)
    && (forall t | Within(t, month) :: key.requires(t) && key(t) == dates[ManilaDay(t) - first])
    && (forall i, j | 0 <= i < j < |dates| :: dates[i] != dates[j])
  }

  lemma DayOfMonth(y: int, m: int, d: int)
    requires 0 <= y <= 9999 && 0 <= m < 12 && 1 <= d <= DaysInMonth(y, m)
    ensures MidnightKey(FirstDay(y, m) + d - 1) == Date(Format(Civil(y, m, d)))
  {
    var c := Civil(y, m, d);
    DayInRange(c);
    hide CivilOf, Format;
    CivilOfDay(c);
  }

  function MonthDates(y: nat, m: int): seq<string>
    requires y <= 9999 && 0 <= m < 12
  {
    seq(DaysInMonth(y, m), i requires 0 <= i < DaysInMonth(y, m) => Format(Civil(y, m, i + 1)))
  }

  lemma KeyAt(y: nat, m: int, t: int)
    requires y <= 9999 && 0 <= m < 12
    requires 0 <= ManilaDay(t) - FirstDay(y, m) < DaysInMonth(y, m)
    ensures HasKey(t) && ManilaDateKey(t) == MonthDates(y, m)[ManilaDay(t) - FirstDay(y, m)]
  {
    var i := ManilaDay(t) - FirstDay(y, m);
    assert TimeKey(t + MANILA_OFFSET) == Date(Format(Civil(y, m, i + 1))) by { TimeKeyAt(y, m, t, i); }
    assert MonthDates(y, m)[i] == Format(Civil(y, m, i + 1));
  }

  lemma TimeKeyAt(y: nat, m: int, t: int, i: int)
    requires y <= 9999 && 0 <= m < 12 && 0 <= i < DaysInMonth(y, m) && ManilaDay(t) == FirstDay(y, m) + i
    ensures Writable(Civil(y, m, i + 1)) && TimeKey(t + MANILA_OFFSET) == Date(Format(Civil(y, m, i + 1)))
  {
    assert Writable(Civil(y, m, i + 1));
    hide DateKey, MidnightKey, TimeKey, FirstDay, DaysInMonth, Format, Writable;
    DayOfMonth(y, m, i + 1);
    assert (t + MANILA_OFFSET) / MS_PER_DAY == FirstDay(y, m) + i;
    hide ManilaDay;
    KeyOfTime(t + MANILA_OFFSET, FirstDay(y, m) + i);
  }

  lemma KeyOfTime(t: int, day: int)
    requires t / MS_PER_DAY == day && MidnightKey(day).Date?
    ensures TimeKey(t) == MidnightKey(day)
  {
    LastDayIsLate();
    hide DateKey;
  }

  // The last midnight of all is past the year 9999, so a day with a ten-character date is whole.
  lemma LastDayIsLate()
    ensures !MidnightKey(MAX_DAY).Date?
  {
    var c := CivilOf(MAX_DAY);
    DayOfCivil(MAX_DAY);
    DateInYear(c);
    if c.year < 9999 { YearsIncrease(c.year + 1, 9999); }
    assert DayFromYear(10000) < MAX_DAY;
  }

  lemma DatesDiffer(y: nat, m: int)
    requires y <= 9999 && 0 <= m < 12
    ensures forall i, j | 0 <= i < j < DaysInMonth(y, m) :: MonthDates(y, m)[i] != MonthDates(y, m)[j]
  {
    var dates := MonthDates(y, m);
    forall i, j | 0 <= i < j < DaysInMonth(y, m) ensures dates[i] != dates[j] {
      assert Fields(dates[i]).day == i + 1 && Fields(dates[j]).day == j + 1;
    }
  }

  lemma KeyWithin(y: nat, m: int, t: int)
    requires y <= 9999 && 0 <= m < 12
    requires Midnight(FirstDay(y, m)) <= t < Midnight(FirstDay(y, m) + DaysInMonth(y, m))
    ensures 0 <= ManilaDay(t) - FirstDay(y, m) < DaysInMonth(y, m)
    ensures HasKey(t) && ManilaDateKey(t) == MonthDates(y, m)[ManilaDay(t) - FirstDay(y, m)]
  {
    assert 0 <= ManilaDay(t) - FirstDay(y, m) < DaysInMonth(y, m) by {
      DayBounds(t, FirstDay(y, m), FirstDay(y, m) + DaysInMonth(y, m));
    }
    KeyAt(y, m, t);
  }

  lemma KeysMatch(y: nat, m: int, first: int, dates: seq<string>)
    requires y <= 9999 && 0 <= m < 12 && first == FirstDay(y, m) && dates == MonthDates(y, m)
    ensures |dates| == DaysInMonth(y, m)
    ensures forall t | Midnight(first) <= t < Midnight(first + |dates|) ::
      HasKey(t) && 0 <= ManilaDay(t) - first < |dates| && ManilaDateKey(t) == dates[ManilaDay(t) - first]
  {
    forall t | Midnight(first) <= t < Midnight(first + |dates|)
      ensures HasKey(t) && 0 <= ManilaDay(t) - first < |dates| && ManilaDateKey(t) == dates[ManilaDay(t) - first]
    {
      KeyWithin(y, m, t);
    }
  }

  lemma MonthKeys(y: nat, m: int, first: int, dates: seq<string>)
    requires y <= 9999 && 0 <= m < 12 && first == FirstDay(y, m) && dates == MonthDates(y, m)
    ensures KeysAre(ManilaDateKey, Range(Midnight(first), Midnight(first + |dates|), |dates|), first, dates)
  {
    hide FirstDay, DaysInMonth, MonthDates, HasKey, ManilaDateKey, ManilaDay, Midnight;
    KeysMatch(y, m, first, dates);
    DatesDiffer(y, m);
  }

  lemma RangeKeys(y: nat, m: int)
    requires y <= 9999 && 0 <= m < 12
    ensures KeysAre(ManilaDateKey, RangeOf(y, m), FirstDay(y, m), MonthDates(y, m))
  {
    var first, dates := FirstDay(y, m), MonthDates(y, m);
    assert RangeOf(y, m) == Range(Midnight(first), Midnight(first + |dates|), |dates|) by { RangeIsTheMonth(y, m); }
    MonthKeys(y, m, first, dates);
  }

  lemma StepDay(first: int, i: nat, t: int)
    requires t == Midnight(first) + i * MS_PER_DAY
    ensures ManilaDay(t) == first + i && t == Midnight(first + i)
  {
  }

  // The two loops; key is manilaDateKey, of which they need no more than KeysAre says.

  method FillDays(key: int --> string, month: Range, ghost first: int, ghost dates: seq<string>) returns (b: Buckets)
    requires KeysAre(key, month, first, dates)
    ensures Holds(b, dates, Tallies([], first, month.days))
  {
    b := Buckets([], map[]);
    for i := 0 to month.days
      invariant Holds(b, dates[..i], Tallies([], first, i))
    {
      var t := month.start + i * MS_PER_DAY;
      StepDay(first, i, t);
      assert Within(t, month);
      assert dates[..i + 1] == dates[..i] + [key(t)];
      assert Tallies([], first, i + 1) == Tallies([], first, i) + [0] by { assert OnDay([], first + i) == 0; }
      NewKey(b, dates[..i], Tallies([], first, i), key(t));
      b := b.Set(key(t), 0);
    }
    assert dates[..month.days] == dates;
  }

  method CountBookings(key: int --> string, bookings: seq<int>, days: Buckets, month: Range,
      ghost first: int, ghost dates: seq<string>) returns (b: Buckets)
    requires KeysAre(key, month, first, dates) && Holds(days, dates, Tallies([], first, month.days))
    requires forall t :: t in bookings ==> Within(t, month)
    ensures Holds(b, dates, Tallies(bookings, first, month.days))
  {
    b := days;
    for i := 0 to |bookings|
      invariant Holds(b, dates, Tallies(bookings[..i], first, month.days))
    {
      var t := bookings[i];
      assert t in bookings;
      DayBounds(t, first, first + |dates|);
      KnownKey(b, dates, Tallies(bookings[..i], first, month.days), ManilaDay(t) - first);
      TallyNext(bookings[..i], t, first, month.days);
      b := b.Set(key(t), b.Get(key(t)) + 1);
      assert bookings[..i + 1] == bookings[..i] + [t];
    }
    assert bookings[..|bookings|] == bookings;
  }

  lemma Conserved(buckets: seq<Bucket>, createdAt: seq<int>, month: Range, first: int)
    requires month.start == Midnight(first) && month.end == Midnight(first + |buckets|)
    requires forall i | 0 <= i < |buckets| :: buckets[i].count == OnDay(Selected(createdAt, month), first + i)
    ensures forall i | 0 <= i < |buckets| :: buckets[i].count == OnDay(createdAt, first + i)
    ensures Total(buckets) == |Selected(createdAt, month)|
  {
    var bookings := Selected(createdAt, month);
    forall i | 0 <= i < |buckets| ensures buckets[i].count == OnDay(createdAt, first + i) {
      SelectionKeepsDays(createdAt, month, first + i);
    }
    TotalCounts(buckets, bookings, first);
    forall t | t in bookings ensures first <= ManilaDay(t) < first + |buckets| {
      DayBounds(t, first, first + |buckets|);
    }
    DaysConserve(bookings, first, |buckets|);
  }

  method Histogram(key: int --> string, createdAt: seq<int>, month: Range, ghost first: int, ghost dates: seq<string>)
      returns (buckets: seq<Bucket>)
    requires KeysAre(key, month, first, dates)
    ensures |buckets| == |dates| && forall i | 0 <= i < |buckets| :: buckets[i].date == dates[i]
    ensures forall i | 0 <= i < |buckets| :: buckets[i].count == OnDay(createdAt, first + i)
    ensures Total(buckets) == |Selected(createdAt, month)|
  {
    var bookings := Selected(createdAt, month);
    var b := FillDays(key, month, first, dates);
    b := CountBookings(key, bookings, b, month, first, dates);
    buckets := b.Entries();
    Conserved(buckets, createdAt, month, first);
  }

  // getBookingsForMonth: exactly the days of the month in order, each with the bookings Manila's calendar
  // puts on it, and together as many as the query selected.
  method GetBookingsForMonth(month: Range, createdAt: seq<int>, ghost y: nat, ghost m: int)
      returns (buckets: seq<Bucket>)
    requires y <= 9999 && 0 <= m < 12 && month == RangeOf(y, m)
    ensures |buckets| == DaysInMonth(y, m) == MonthLength(y, m + 1)
    ensures forall i | 0 <= i < |buckets| :: buckets[i].date == Format(Civil(y, m, i + 1))
    ensures forall i | 0 <= i < |buckets| :: buckets[i].count == OnDay(createdAt, FirstDay(y, m) + i)
    ensures Total(buckets) == |Selected(createdAt, month)|
  {
    RangeKeys(y, m);
    MonthLengths(y, m + 1);
    buckets := Histogram(ManilaDateKey, createdAt, month, FirstDay(y, m), MonthDates(y, m));
  }
}
