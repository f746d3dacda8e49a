// Start times a customer may pick: clock strings, the earliest start for a date, and which times are selectable.
module StartTimes {
  import opened Calendar
  import opened Decimals
  import opened IsoDates
  import opened Wrappers

  const PH_UTC_OFFSET := 28800000
  const FIRST_MINUTE: nat := 420
  const LAST_MINUTE: nat := 1080

  // Clock strings.

  function Colon(s: string): (k: nat)
    ensures k <= |s| && (k < |s| ==> s[k] == ':')
    ensures forall i | 0 <= i < k :: s[i] != ':'
  {
    if s == "" || s[0] == ':' then 0 else 1 + Colon(s[1..])
  }

  predicate Clock(s: string) {
    var k := Colon(s);
    0 < k && k + 1 < |s| && Digits(s[..k]) && Digits(s[k + 1..])
  }

  function Hours(s: string): nat
    requires Clock(s)
  {
    Value(s[..Colon(s)])
  }

  function Minutes(s: string): nat
    requires Clock(s)
  {
    Value(s[Colon(s) + 1..])
  }

  function TimeToMinutes(s: string): nat
    requires Clock(s)
  {
    Hours(s) * 60 + Minutes(s)
  }

  function MinutesToTime(n: nat): string {
    PadStart2(n / 60) + ":" + PadStart2(n % 60)
  }

  lemma ColonAt(h: string, m: string)
    requires Digits(h)
    ensures Colon(h + ":" + m) == |h|
  {
    var s := h + ":" + m;
    assert s[|h|] == ':';
    assert forall i | 0 <= i < |h| :: s[i] == h[i] && IsDigit(h[i]);
  }

  lemma ClockParts(h: string, m: string)
    requires Digits(h) && Digits(m) && h != "" && m != ""
    ensures var s := h + ":" + m; Clock(s) && Hours(s) == Value(h) && Minutes(s) == Value(m)
  {
    var s := h + ":" + m;
    ColonAt(h, m);
    assert s[..|h|] == h && s[|h| + 1..] == m;
  }

  lemma PadStart2Value(n: nat)
    ensures Value(PadStart2(n)) == n
  {
    PlainHasValue(n);
    if |Plain(n)| < 2 {
      assert n < 10;
      assert Plain(n) == [Digit(n)];
      ValueOfAppend("0", n);
      assert "0"[..0] == "" && Value("0") == 0;
    }
  }

  // Digits that padStart(2, "0") writes.
  predicate Padded(s: string) {
    Digits(s) && |s| >= 2 && (|s| > 2 ==> s[0] != '0')
  }

  lemma {:induction false} PlainHasNoLeadingZero(n: nat)
    ensures n > 0 ==> Plain(n)[0] != '0'
    ensures n < 10 <==> |Plain(n)| == 1
    decreases n
  {
    if n >= 10 { PlainHasNoLeadingZero(n / 10); }
  }

  lemma PadStart2IsPadded(n: nat)
    ensures Padded(PadStart2(n))
    ensures n < 100 ==> |PadStart2(n)| == 2
  {
    PlainHasNoLeadingZero(n);
    if 10 <= n < 100 { PlainHasNoLeadingZero(n / 10); }
  }

  lemma PaddedIsPadStart2(s: string)
    requires Padded(s)
    ensures PadStart2(Value(s)) == s
  {
    if s[0] == '0' {
      assert s == "0" + [s[1]];
      PlainOfValue([s[1]]);
      assert Value([s[1]]) == s[1] as int - 48 by { assert [s[1]][..0] == ""; }
      ValueOfAppend("0", s[1] as int - 48);
      assert Digit(s[1] as int - 48) == s[1];
      assert "0"[..0] == "" && Value("0") == 0;
    } else {
      PlainOfValue(s);
    }
  }

  // Writing minutes and reading them back gives the same minutes.
  lemma MinutesRoundTrip(n: nat)
    ensures Clock(MinutesToTime(n)) && TimeToMinutes(MinutesToTime(n)) == n
  {
    PadStart2Value(n / 60);
    PadStart2Value(n % 60);
    ClockParts(PadStart2(n / 60), PadStart2(n % 60));
  }

  // The strings MinutesToTime writes: hours as padStart leaves them and two digits of minutes below 60.
  predicate Canonical(s: string) {
    Clock(s) && Padded(s[..Colon(s)]) && |s[Colon(s) + 1..]| == 2 && Minutes(s) < 60
  }

  // Reading a clock string and writing it again gives it back exactly when it was written that way.
  lemma TimeRoundTripIff(s: string)
    requires Clock(s)
    ensures MinutesToTime(TimeToMinutes(s)) == s <==> Canonical(s)
  {
    var h, m := s[..Colon(s)], s[Colon(s) + 1..];
    assert s == h + ":" + m;
    if Canonical(s) {
      assert TimeToMinutes(s) / 60 == Value(h) && TimeToMinutes(s) % 60 == Value(m);
      PaddedIsPadStart2(h);
      PaddedIsPadStart2(m);
    }
    if MinutesToTime(TimeToMinutes(s)) == s {
      WrittenIsCanonical(TimeToMinutes(s));
    }
  }

  lemma WrittenIsCanonical(n: nat)
    ensures Canonical(MinutesToTime(n))
  {
    var h, m := PadStart2(n / 60), PadStart2(n % 60);
    PadStart2IsPadded(n / 60);
    PadStart2IsPadded(n % 60);
    PadStart2Value(n % 60);
    ClockParts(h, m);
    ColonAt(h, m);
    assert (h + ":" + m)[..|h|] == h && (h + ":" + m)[|h| + 1..] == m;
  }

  // The earliest start.

  // ToIntegerOrInfinity: the fraction of a millisecond is dropped.
  function Truncated(x: real): int {
    if x >= 0.0 then x.Floor else -(-x).Floor
  }

  function Ceil(x: real): int {
    -(-x).Floor
  }

  // The time value of phNow: Manila's clock, the lead ahead.
  function PhNow(now: int, leadHours: real): int {
    Truncated((now + PH_UTC_OFFSET) as real + leadHours * 60.0 * 60.0 * 1000.0)
  }

  function Today(now: int): int {
    (now + PH_UTC_OFFSET) / MS_PER_DAY
  }

  // getUTCHours, getUTCMinutes and getUTCSeconds of a time value, put together as minutes and rounded up to 5.
  function RoundedUp(t: int): int {
    var second := t % MS_PER_DAY / 1000;
    var hours, minutes, seconds := second / 3600, second / 60 % 60, second % 60;
    Ceil(((hours * 60 + minutes) as real + seconds as real / 60.0) / 5.0) * 5
  }

  // Never stands for null, Thrown for the RangeError of a date past the range of Date.
  datatype Start = At(time: string) | Never | Thrown

  function EarliestStartTime(date: Option<DateString>, leadHours: real, now: int): (r: Start)
    ensures r.At? ==> Clock(r.time) && FIRST_MINUTE <= TimeToMinutes(r.time) <= LAST_MINUTE
  {
    MinutesRoundTrip(FIRST_MINUTE);
    if date.None? then At(MinutesToTime(FIRST_MINUTE))
    else
      var today, ahead := TimeKey(now + PH_UTC_OFFSET), TimeKey(PhNow(now, leadHours));
      if today == RangeError then Thrown
      else if today != Date(date.value) then At(MinutesToTime(FIRST_MINUTE))
      else if ahead == RangeError then Thrown
      else if ahead != today then Never
      else
        var earliest := RoundedUp(PhNow(now, leadHours));
        if earliest > LAST_MINUTE then Never
        else
          var start := if earliest < FIRST_MINUTE then FIRST_MINUTE else earliest;
          MinutesRoundTrip(start);
          At(MinutesToTime(start))
  }

  predicate Hhmm(s: string) {
    |s| == 5 && IsDigit(s[0]) && IsDigit(s[1]) && s[2] == ':' && '0' <= s[3] <= '5' && IsDigit(s[4])
  }

  lemma HhmmIsClock(s: string)
    requires Hhmm(s)
    ensures Clock(s)
  {
    ColonAt(s[..2], s[3..]);
    assert s == s[..2] + ":" + s[3..];
  }

  // The pattern takes two digits of hours and two of minutes below 60, and nothing else.
  lemma HhmmIff(s: string)
    ensures Hhmm(s) <==> exists h: nat, m: nat :: h <= 99 && m <= 59 && s == Pad(h, 2) + ":" + Pad(m, 2)
  {
    if Hhmm(s) { HhmmIsPadded(s); }
    forall h: nat, m: nat | h <= 99 && m <= 59 && s == Pad(h, 2) + ":" + Pad(m, 2) ensures Hhmm(s) { PaddedIsHhmm(h, m); }
    hide Hhmm, Pad;
  }

  lemma HhmmIsPadded(s: string)
    requires Hhmm(s)
    ensures exists h: nat, m: nat :: h <= 99 && m <= 59 && s == Pad(h, 2) + ":" + Pad(m, 2)
  {
    var h, m := s[..2], s[3..];
    SmallPowers();
    ValueHasPad(h);
    ValueHasPad(m);
    assert Value(m) <= 59 by { assert m[..1][..0] == "" && Value(m[..1]) == m[0] as int - 48; }
    hide Value, Pad, Power;
    assert s == Pad(Value(h), 2) + ":" + Pad(Value(m), 2);
  }

  lemma PaddedIsHhmm(h: nat, m: nat)
    requires h <= 99 && m <= 59
    ensures Hhmm(Pad(h, 2) + ":" + Pad(m, 2))
  {
    assert Pad(m, 2) == Pad(m / 10, 1) + [Digit(m % 10)] && Pad(m / 10, 1) == Pad(m / 10 / 10, 0) + [Digit(m / 10 % 10)];
  }

  // None stands for a RangeError on the way.
  function IsSelectableStartTime(date: Option<DateString>, time: string, leadHours: real, now: int): Option<bool> {
    if !Hhmm(time) then Some(false)
    else
      HhmmIsClock(time);
      match EarliestStartTime(date, leadHours, now)
      case Thrown => None
      case Never => Some(false)
      case At(earliest) => Some(TimeToMinutes(earliest) <= TimeToMinutes(time) <= LAST_MINUTE)
  }

  // The instant a date and clock time in Manila start.
  function StartInstant(date: DateString, time: string): int
    requires 0 <= Fields(date).month < 12 && Clock(time)
  {
    DayOf(Fields(date)) * MS_PER_DAY + TimeToMinutes(time) * 60000 - PH_UTC_OFFSET
  }

  // What the earliest start is for.

  // The five-minute ticks of a day from 07:00 to 18:00 that are not before the lead's end, cut to the second.
  // Clock readings of Manila are in milliseconds as PhNow has them.
  predicate Legal(k: int, day: int, phNow: int) {
    k % 5 == 0 && FIRST_MINUTE <= k <= LAST_MINUTE && day * MS_PER_DAY + k * 60000 >= phNow / 1000 * 1000
  }

  ghost predicate IsLeastLegal(r: Start, day: int, phNow: int) {
    match r
    case At(time) =>
      exists k: nat :: Legal(k, day, phNow) && time == MinutesToTime(k) && forall j | Legal(j, day, phNow) :: k <= j
    case Never => forall k :: !Legal(k, day, phNow)
    case Thrown => false
  }

  lemma RoundedUpIs(t: int)
    ensures var r, second := RoundedUp(t), t % MS_PER_DAY / 1000;
      r % 5 == 0 && 0 <= r && 60 * (r - 5) < second <= 60 * r
  {
    var second := t % MS_PER_DAY / 1000;
    var hours, minutes, seconds := second / 3600, second / 60 % 60, second % 60;
    assert second >= 0;
    ClockOfSecond(second);
    CeilFives(hours * 60 + minutes, seconds);
    hide Ceil;
  }

  lemma ClockOfSecond(second: int)
    ensures second == 60 * (second / 3600 * 60 + second / 60 % 60) + second % 60
  {
  }

  // Rounding up a fifth of some minutes and seconds.
  lemma CeilFives(minutes: int, seconds: int)
    ensures var c, second := Ceil((minutes as real + seconds as real / 60.0) / 5.0), 60 * minutes + seconds;
      300 * (c - 1) < second <= 300 * c
  {
    var x := (minutes as real + seconds as real / 60.0) / 5.0;
    assert x * 300.0 == (60 * minutes + seconds) as real;
    var c := Ceil(x);
    assert (c - 1) as real < x <= c as real;
    assert ((c - 1) * 300) as real < (60 * minutes + seconds) as real <= (c * 300) as real;
  }

  // On the lead's own day the second of the day decides.
  lemma LegalSameDay(k: int, day: int, phNow: int)
    requires phNow / MS_PER_DAY == day
    ensures Legal(k, day, phNow) <==> k % 5 == 0 && FIRST_MINUTE <= k <= LAST_MINUTE && 60 * k >= phNow % MS_PER_DAY / 1000
  {
    assert phNow == day * MS_PER_DAY + phNow % MS_PER_DAY;
    assert phNow / 1000 == day * 86400 + phNow % MS_PER_DAY / 1000;
  }

  lemma LegalOtherDay(k: int, day: int, phNow: int)
    requires phNow / MS_PER_DAY != day
    ensures Legal(k, day, phNow) <==>
      k % 5 == 0 && FIRST_MINUTE <= k <= LAST_MINUTE && phNow / MS_PER_DAY < day
  {
    assert phNow == phNow / MS_PER_DAY * MS_PER_DAY + phNow % MS_PER_DAY;
    assert phNow / 1000 == phNow / MS_PER_DAY * 86400 + phNow % MS_PER_DAY / 1000;
  }

  lemma SameKeySameDay(t: int, u: int)
    requires TimeKey(t).Date? && TimeKey(u) != RangeError
    ensures TimeKey(t) == TimeKey(u) <==> t / MS_PER_DAY == u / MS_PER_DAY
  {
    var a, b := t / MS_PER_DAY, u / MS_PER_DAY;
    if DateKey(a) == DateKey(b) {
      KeyIsDate(a);
      KeyIsDate(b);
      DayOfCivil(a);
      DayOfCivil(b);
    }
  }

  // For today's date the earliest start is the least legal tick, or null when there is none,
  // exactly when the lead does not end before today; otherwise it is null though every tick is legal.
  lemma EarliestIsLeastIff(date: DateString, leadHours: real, now: int)
    requires TimeKey(now + PH_UTC_OFFSET) == Date(date) && TimeKey(PhNow(now, leadHours)) != RangeError
    ensures IsLeastLegal(EarliestStartTime(Some(date), leadHours, now), Today(now), PhNow(now, leadHours))
      <==> Today(now) <= PhNow(now, leadHours) / MS_PER_DAY
  {
    var phNow, day := PhNow(now, leadHours), Today(now);
    SameKeySameDay(now + PH_UTC_OFFSET, phNow);
    if phNow / MS_PER_DAY == day {
      RoundedUpIsLeast(day, phNow);
    } else {
      assert EarliestStartTime(Some(date), leadHours, now) == Never;
      LegalOtherDay(FIRST_MINUTE, day, phNow);
      forall k ensures Legal(k, day, phNow) ==> phNow / MS_PER_DAY < day { LegalOtherDay(k, day, phNow); }
    }
  }

  lemma RoundedUpIsLeast(day: int, phNow: int)
    requires phNow / MS_PER_DAY == day
    ensures var e := RoundedUp(phNow);
      if e > LAST_MINUTE then forall k :: !Legal(k, day, phNow)
      else
        var start := if e < FIRST_MINUTE then FIRST_MINUTE else e;
        Legal(start, day, phNow) && forall j | Legal(j, day, phNow) :: start <= j
  {
    RoundedUpIs(phNow);
    var e, second := RoundedUp(phNow), phNow % MS_PER_DAY / 1000;
    hide RoundedUp, Legal;
    var start := if e < FIRST_MINUTE then FIRST_MINUTE else e;
    LegalSameDay(start, day, phNow);
    forall j | Legal(j, day, phNow) ensures e <= j <= LAST_MINUTE && start <= j {
      LegalSameDay(j, day, phNow);
      LeastMultiple(e, j, second);
    }
  }

  lemma LeastMultiple(e: int, j: int, second: int)
    requires e % 5 == 0 && j % 5 == 0 && 60 * (e - 5) < second <= 60 * j
    ensures e <= j
  {
  }

  // Manila's clock when the lead ends, the fraction of a millisecond dropped.
  lemma PhNowIs(now: int, leadHours: real)
    ensures var end, t := (now + 8 * 60 * 60 * 1000) as real + leadHours * 3600000.0, PhNow(now, leadHours) as real;
      if end >= 0.0 then 0.0 <= t <= end < t + 1.0 else t - 1.0 < end <= t <= 0.0
  {
  }

  // A lead that is not negative never ends before today.
  lemma LeadEndsNoEarlier(now: int, leadHours: real)
    requires leadHours >= 0.0
    ensures Today(now) <= PhNow(now, leadHours) / MS_PER_DAY
  {
    assert PhNow(now, leadHours) >= now + PH_UTC_OFFSET;
  }

  // Today a time is selectable exactly when it is a clock time up to 18:00 with a legal tick at or before it.
  lemma SelectableTodayIff(date: DateString, time: string, leadHours: real, now: int)
    requires TimeKey(now + PH_UTC_OFFSET) == Date(date) && TimeKey(PhNow(now, leadHours)) != RangeError
    requires Today(now) <= PhNow(now, leadHours) / MS_PER_DAY
    ensures IsSelectableStartTime(Some(date), time, leadHours, now) == Some(true) <==>
      && Hhmm(time) && Clock(time) && TimeToMinutes(time) <= LAST_MINUTE
      && exists k :: Legal(k, Today(now), PhNow(now, leadHours)) && k <= TimeToMinutes(time)
  {
    if Hhmm(time) { HhmmIsClock(time); }
    hide EarliestStartTime, IsLeastLegal, Legal, PhNow, Today, TimeKey, TimeToMinutes, Clock, Hhmm;
    EarliestIsLeastIff(date, leadHours, now);
    if Hhmm(time) {
      LeastLegalBefore(EarliestStartTime(Some(date), leadHours, now), Today(now), PhNow(now, leadHours), TimeToMinutes(time));
    }
  }

  lemma LeastLegalBefore(r: Start, day: int, phNow: int, minutes: int)
    requires IsLeastLegal(r, day, phNow) && (r.At? ==> Clock(r.time))
    ensures (r.At? && TimeToMinutes(r.time) <= minutes) <==> exists k :: Legal(k, day, phNow) && k <= minutes
  {
    hide Legal;
    if r.At? {
      var k: nat :| Legal(k, day, phNow) && r.time == MinutesToTime(k) && forall j | Legal(j, day, phNow) :: k <= j;
      MinutesRoundTrip(k);
    }
  }

  // So it starts later than the lead's end less a second.
  lemma SelectableStartsAfterLead(date: DateString, time: string, leadHours: real, now: int)
    requires leadHours >= 0.0 && TimeKey(now + PH_UTC_OFFSET) == Date(date)
    requires IsSelectableStartTime(Some(date), time, leadHours, now) == Some(true)
    ensures 0 <= Fields(date).month < 12 && Clock(time)
    ensures StartInstant(date, time) as real > now as real + leadHours * 60.0 * 60.0 * 1000.0 - 1000.0
  {
    var day, phNow := Today(now), PhNow(now, leadHours);
    LeadEndsNoEarlier(now, leadHours);
    SelectableTodayIff(date, time, leadHours, now);
    var k :| Legal(k, day, phNow) && k <= TimeToMinutes(time);
    KeyIsDate(day);
    DayOfCivil(day);
    assert StartInstant(date, time) >= phNow / 1000 * 1000 - PH_UTC_OFFSET;
    assert phNow / 1000 * 1000 > phNow - 1000;
    assert phNow as real > (now + PH_UTC_OFFSET) as real + leadHours * 60.0 * 60.0 * 1000.0 - 1.0;
  }

  // On any other day just the times from 07:00 to 18:00 are selectable.
  lemma SelectableOtherDayIff(date: Option<DateString>, time: string, leadHours: real, now: int)
    requires date.Some? ==> TimeKey(now + PH_UTC_OFFSET) !in {RangeError, Date(date.value)}
    ensures IsSelectableStartTime(date, time, leadHours, now) == Some(true) <==>
      Hhmm(time) && Clock(time) && FIRST_MINUTE <= TimeToMinutes(time) <= LAST_MINUTE
  {
    if Hhmm(time) { HhmmIsClock(time); }
    MinutesRoundTrip(FIRST_MINUTE);
  }

  // A negative lead that ends yesterday: at eight in the morning of 1 January 1970 it gives null, though every
  // tick of the day is legal.
  lemma NegativeLeadGivesNull()
    ensures EarliestStartTime(Some(Format(Civil(1970, 0, 1))), -9.0, 0) == Never
    ensures Legal(FIRST_MINUTE, Today(0), PhNow(0, -9.0)) && Legal(LAST_MINUTE, Today(0), PhNow(0, -9.0))
  {
    hide EarliestStartTime, Legal, PhNow, Today, TimeKey, Format;
    FirstDayKey();
    NegativeLead(Format(Civil(1970, 0, 1)));
  }

  lemma NegativeLead(date: DateString)
    requires TimeKey(0 + PH_UTC_OFFSET) == Date(date)
    ensures EarliestStartTime(Some(date), -9.0, 0) == Never
    ensures Legal(FIRST_MINUTE, Today(0), PhNow(0, -9.0)) && Legal(LAST_MINUTE, Today(0), PhNow(0, -9.0))
  {
    assert PhNow(0, -9.0) == -3600000;
    assert TimeKey(PhNow(0, -9.0)) != RangeError;
    SameKeySameDay(0 + PH_UTC_OFFSET, PhNow(0, -9.0));
  }

  lemma FirstDayKey()
    ensures TimeKey(0 + PH_UTC_OFFSET) == Date(Format(Civil(1970, 0, 1)))
  {
    var c := Civil(1970, 0, 1);
    assert ValidDate(c) && DayOf(c) == 0;
    CivilOfDay(c);
  }
}
