/**
 Schedule occurrences, the next occurrence of a schedule, and the minimum lead time of a request
 (src/liturgy/liturgy.util.ts). The program works on date and time strings; the lemmas relate what it computes to
 day numbers, minutes and milliseconds.
 */
module Liturgy {
  import opened Wrappers
  import opened Text
  import opened Calendar

  datatype Frequency = Daily | Weekly | Biweekly | Monthly | Once

  datatype Schedule = Schedule(
    frequency: Frequency,
    dayOfWeek: Option<int>,
    weekOfMonth: Option<int>,
    startDate: Option<string>,
    endDate: Option<string>,
    time: string,
    duration: int,
    celebration: Option<string>)

  const MINUTE_MS := 60_000
  const HOUR_MS := 3_600_000
  const DAY_MS := 86_400_000
  const BENIN_UTC_OFFSET_HOURS := 1

  /** A string that JavaScript takes as true. */
  predicate Given(s: Option<string>) {
    s.Some? && s.value != ""
  }

  // ---- is this date an occurrence? ----

  predicate IsValidScheduleOccurrence(s: Schedule, date: string) {
    if Given(s.startDate) && Less(date, s.startDate.value) then false
    else if Given(s.endDate) && Less(s.endDate.value, date) then false
    else
      match ParseIso(date)
      case None => false
      case Some(n) =>
        match s.frequency
        case Once => s.startDate == Some(date)
        case Daily => true
        case Weekly => s.dayOfWeek.None? || WeekDay(n) == s.dayOfWeek.value
        case Biweekly => s.dayOfWeek.None? || WeekDay(n) == s.dayOfWeek.value
        case Monthly =>
          s.dayOfWeek.None? || s.weekOfMonth.None?
          || (WeekDay(n) == s.dayOfWeek.value && (FromDay(n).day + 6) / 7 == s.weekOfMonth.value)
  }

  /** An empty date sets no bound. */
  lemma EmptyDateIsNone(s: Schedule, date: string)
    ensures date != "" ==>
              IsValidScheduleOccurrence(s.(startDate := Some("")), date)
              == IsValidScheduleOccurrence(s.(startDate := None), date)
    ensures IsValidScheduleOccurrence(s.(endDate := Some("")), date)
            == IsValidScheduleOccurrence(s.(endDate := None), date)
  {
    hide ParseIso;
  }

  /** The validity dates are absent or dates of the calendar, as the DATE columns that hold them guarantee. */
  predicate Dated(s: Schedule) {
    && (Given(s.startDate) ==> RealDate(s.startDate.value))
    && (Given(s.endDate) ==> RealDate(s.endDate.value))
  }

  /** The meaning of a schedule, in day numbers and counted weekdays. */
  ghost predicate Occurs(s: Schedule, n: int)
    requires Dated(s)
  {
    && (Given(s.startDate) ==> DayOf(s.startDate.value) <= n)
    && (Given(s.endDate) ==> n <= DayOf(s.endDate.value))
    && match s.frequency
       case Once => Given(s.startDate) && DayOf(s.startDate.value) == n
       case Daily => true
       case Weekly => s.dayOfWeek.Some? ==> WeekDay(n) == s.dayOfWeek.value
       case Biweekly => s.dayOfWeek.Some? ==> WeekDay(n) == s.dayOfWeek.value
       case Monthly =>
         s.dayOfWeek.Some? && s.weekOfMonth.Some? ==> WeekDay(n) == s.dayOfWeek.value && IsNth(n, s.weekOfMonth.value)
  }

  lemma StringBounds(a: string, b: string)
    requires RealDate(a) && RealDate(b)
    ensures Less(a, b) <==> DayOf(a) < DayOf(b)
    ensures a == b <==> DayOf(a) == DayOf(b)
  {
    hide RealDate, DayOf, ParseIso, IsoDate, Less;
    RealDateIsPrinted(a);
    RealDateIsPrinted(b);
    DateOrder(DayOf(a), DayOf(b));
  }

  /** On a date of the calendar the string test decides the meaning of the schedule. */
  lemma OccurrenceMeaning(s: Schedule, date: string)
    requires Dated(s) && RealDate(date)
    ensures IsValidScheduleOccurrence(s, date) <==> Occurs(s, DayOf(date))
  {
    hide FromDay, Less, IsNth, WeekDay, RealDate, DayOf, ParseIso;
    RealDateIsPrinted(date);
    if Given(s.startDate) { StringBounds(date, s.startDate.value); }
    if Given(s.endDate) { StringBounds(s.endDate.value, date); }
    if s.weekOfMonth.Some? { CeilCountsWeekDays(DayOf(date), s.weekOfMonth.value); }
  }

  /** The tests agree on `date` with the meaning of the schedule on the day the date is read as. */
  ghost predicate Understood(s: Schedule, date: string)
    requires Dated(s)
  {
    IsValidScheduleOccurrence(s, date) <==> ParseIso(date).Some? && Occurs(s, ParseIso(date).value)
  }

  lemma BeforeYearZero(s: Schedule, date: string)
    requires Dated(s) && ParseIso(date).Some? && date != "" && date[0] == '-'
    ensures Understood(s, date)
  {
    hide FromDay, IsNth, WeekDay, RealDate, DayOf, ParseIso;
    SignTells(date);
    if Given(s.startDate) { RealStartsWithDigit(s.startDate.value); RealDateIsPrinted(s.startDate.value); }
    if Given(s.endDate) { RealStartsWithDigit(s.endDate.value); RealDateIsPrinted(s.endDate.value); }
    if s.weekOfMonth.Some? { CeilCountsWeekDays(ParseIso(date).value, s.weekOfMonth.value); }
  }

  lemma RealStartsWithDigit(s: string)
    requires RealDate(s)
    ensures s != "" && IsDigit(s[0])
  {
    assert s[..4][0] == s[0];
  }

  /** A schedule the tests get wrong on a string that is read as a day but is not the date of that day. */
  lemma Misunderstood(date: string) returns (s: Schedule)
    requires ParseIso(date).Some? && !RealDate(date) && date != "" && date[0] != '-'
    ensures Dated(s) && !Understood(s, date)
  {
    hide FromDay, IsNth, WeekDay, RealDate, DayOf, ParseIso, IsoDate;
    SignTells(date);
    var n := ParseIso(date).value;
    if Printable(n) {
      PrintedIsReal(n);
      s := Schedule(Once, None, None, Some(IsoDate(n)), None, "", 0, None);
    } else {
      PrintedIsReal(-719528);
      RealStartsWithDigit(IsoDate(-719528));
      s := Schedule(Daily, None, None, Some(IsoDate(-719528)), None, "", 0, None);
    }
  }

  /**
   For every string: the tests agree with the meaning of every schedule if and only if the string is a date of the
   calendar, or no date at all, or has a negative year.
   */
  lemma OccurrenceMeaningIff(date: string)
    ensures (forall s | Dated(s) :: Understood(s, date))
            <==> RealDate(date) || ParseIso(date).None? || date[0] == '-'
  {
    hide ParseIso, RealDate, Occurs, DayOf;
    if RealDate(date) {
      RealDateIsPrinted(date);
      forall s | Dated(s) ensures Understood(s, date) { OccurrenceMeaning(s, date); }
    } else if ParseIso(date).None? {
      forall s | Dated(s) ensures Understood(s, date) {}
    } else {
      SignTells(date);
      if date[0] == '-' {
        forall s | Dated(s) ensures Understood(s, date) { BeforeYearZero(s, date); }
      } else {
        var s := Misunderstood(date);
      }
    }
  }

  /** A month is accepted as its first day by a daily schedule, and misunderstood by another. */
  lemma MonthIsAccepted()
    ensures IsValidScheduleOccurrence(Schedule(Daily, None, None, None, None, "10:00", 60, None), "2026-01")
    ensures exists s :: Dated(s) && !Understood(s, "2026-01")
  {
    hide ParseIso;
    LenientReading();
    var s := Misunderstood("2026-01");
  }

  lemma FebruaryBeforeMarch()
    ensures Less("2026-02-31", "2026-03-01")
  {
    LessTotal("2026", "2026");
    assert "02"[1..] == "2" && "03"[1..] == "3" && Less("2", "3");
    assert Less("02", "03");
    hide Less;
    DashedOrder("2026", "02", "31", "2026", "03", "01");
    assert "2026" + "-" + "02" + "-" + "31" == "2026-02-31" && "2026" + "-" + "03" + "-" + "01" == "2026-03-01";
  }

  lemma MarchFirst()
    ensures RealDate("2026-03-01") && DayOf("2026-03-01") == ToDay(Civil(2026, 3, 1))
  {
    SmallValues();
    var start := "2026-03-01";
    assert start[..4] == "2026" && start[5..7] == "03" && start[8..] == "01";
    ValueOfTwo('0', '3');
  }

  /** February 31st is read as March 3rd, and refused by a schedule that takes place daily from March 1st. */
  lemma RolledDayIsRefused()
    ensures var s := Schedule(Daily, None, None, Some("2026-03-01"), None, "10:00", 60, None);
            && Dated(s) && Occurs(s, ToDay(Civil(2026, 3, 3))) && !IsValidScheduleOccurrence(s, "2026-02-31")
            && ParseIso("2026-02-31") == Some(ToDay(Civil(2026, 3, 3)))
  {
    hide ParseIso, Less, RealDate, DayOf;
    LenientReading();
    FebruaryBeforeMarch();
    MarchFirst();
  }

  // ---- the next occurrence ----

  /** `HH:mm` or `HH:mm:ss`, the format a schedule's time is accepted in. */
  predicate ClockTime(time: string) {
    && (|time| == 5 || (|time| == 8 && time[5] == ':' && AllDigits(time[6..])))
    && AllDigits(time[..2]) && time[2] == ':' && AllDigits(time[3..5])
  }

  function Hours(time: string): (h: nat)
    requires ClockTime(time)
  {
    Value(time[..2])
  }

  function Minutes(time: string): (m: nat)
    requires ClockTime(time)
  {
    Value(time[3..5])
  }

  function Clock(time: string): (m: nat)
    requires ClockTime(time)
  {
    60 * Hours(time) + Minutes(time)
  }

  /** The instant, in milliseconds, at which the occurrence of local day `n` begins. */
  function StartOf(s: Schedule, n: int): int
    requires ClockTime(s.time)
  {
    n * DAY_MS + Clock(s.time) * MINUTE_MS - BENIN_UTC_OFFSET_HOURS * HOUR_MS
  }

  function EndOf(s: Schedule, n: int): int
    requires ClockTime(s.time)
  {
    StartOf(s, n) + s.duration * MINUTE_MS
  }

  predicate Usable(s: Schedule) {
    Dated(s) && ClockTime(s.time)
  }

  /** Day `n` has an occurrence that is not over at `from`. */
  ghost predicate Pending(s: Schedule, n: int, from: int)
    requires Usable(s)
  {
    Occurs(s, n) && EndOf(s, n) > from
  }

  /** The start of the first pending occurrence among the days `n..last`. */
  ghost function Search(s: Schedule, from: int, n: int, last: int): (r: Option<int>)
    requires Usable(s)
    decreases last - n + 1
  {
    if n > last then None
    else if Pending(s, n, from) then Some(StartOf(s, n))
    else Search(s, from, n + 1, last)
  }

  /** What `nextScheduleOccurrence` returns. */
  ghost function Next(s: Schedule, from: int, horizonDays: int): Option<int>
    requires Usable(s)
  {
    Search(s, from, from / DAY_MS, from / DAY_MS + horizonDays)
  }

  lemma DayAhead(from: int, offset: int)
    ensures (from + offset * DAY_MS) / DAY_MS == from / DAY_MS + offset
  {
  }

  lemma PrintedOccurrence(s: Schedule, n: int)
    requires Dated(s) && Printable(n)
    ensures ParseIso(IsoDate(n)) == Some(n)
    ensures IsValidScheduleOccurrence(s, IsoDate(n)) <==> Occurs(s, n)
  {
    hide ParseIso, IsoDate, RealDate, DayOf, Occurs, IsValidScheduleOccurrence;
    PrintThenParse(n);
    PrintedIsReal(n);
    OccurrenceMeaning(s, IsoDate(n));
  }

  method NextScheduleOccurrence(s: Schedule, from: int, horizonDays: int) returns (r: Option<int>)
    requires Usable(s)
    requires forall n :: from / DAY_MS <= n <= from / DAY_MS + horizonDays ==> Printable(n)
    ensures r == Next(s, from, horizonDays)
  {
    hide IsoDate, FromDay, IsValidScheduleOccurrence, Occurs, Value, ParseIso;
    ghost var today := from / DAY_MS;
    var offset := 0;
    while offset <= horizonDays
      invariant 0 <= offset
      invariant Next(s, from, horizonDays) == Search(s, from, today + offset, today + horizonDays)
    {
      var day := from + offset * DAY_MS;
      DayAhead(from, offset);
      assert Printable(today + offset);
      var date := IsoDate(day / DAY_MS);
      PrintedOccurrence(s, today + offset);
      if IsValidScheduleOccurrence(s, date) {
        var localStart := ParseIso(date).value * DAY_MS + Hours(s.time) * HOUR_MS + Minutes(s.time) * MINUTE_MS;
        var occurrenceStart := localStart - BENIN_UTC_OFFSET_HOURS * HOUR_MS;
        var occurrenceEnd := occurrenceStart + s.duration * MINUTE_MS;
        assert occurrenceStart == StartOf(s, today + offset);
        if occurrenceEnd > from {
          return Some(occurrenceStart);
        }
      }
      offset := offset + 1;
    }
    return None;
  }

  lemma {:induction false} SearchFinds(s: Schedule, from: int, n: int, last: int)
    requires Usable(s)
    ensures var r := Search(s, from, n, last);
            && (r.None? ==> forall m :: n <= m <= last ==> !Pending(s, m, from))
            && (r.Some? ==> exists m :: n <= m <= last && Pending(s, m, from) && r.value == StartOf(s, m)
                                        && forall k :: n <= k < m ==> !Pending(s, k, from))
    decreases last - n + 1
  {
    if n <= last && !Pending(s, n, from) {
      SearchFinds(s, from, n + 1, last);
    }
  }

  /**
   The result is the start of the earliest pending occurrence over all days, past or future, provided that its day
   is within the horizon; it is None when there is no pending occurrence up to the horizon.
   */
  ghost predicate Exact(s: Schedule, from: int, horizonDays: nat)
    requires Usable(s)
  {
    match Next(s, from, horizonDays)
    case None => forall m :: m <= from / DAY_MS + horizonDays ==> !Pending(s, m, from)
    case Some(start) =>
      exists m :: m <= from / DAY_MS + horizonDays && Pending(s, m, from) && start == StartOf(s, m)
                  && forall k :: k < m ==> !Pending(s, k, from)
  }

  lemma ExactUnlessRunning(s: Schedule, from: int, horizonDays: nat)
    requires Usable(s)
    ensures Exact(s, from, horizonDays) <==> forall k :: k < from / DAY_MS ==> !Pending(s, k, from)
  {
    var d := from / DAY_MS;
    SearchFinds(s, from, d, d + horizonDays);
    if Exact(s, from, horizonDays) && Next(s, from, horizonDays).Some? {
      var m :| m <= d + horizonDays && Pending(s, m, from) && Next(s, from, horizonDays) == Some(StartOf(s, m))
               && forall k :: k < m ==> !Pending(s, k, from);
      var i :| d <= i <= d + horizonDays && Pending(s, i, from) && Next(s, from, horizonDays) == Some(StartOf(s, i));
      assert m == i;
    }
  }

  /** A schedule with the given time and duration. */
  predicate Timed(s: Schedule, time: string, duration: int) {
    Dated(s) && s.time == time && s.duration == duration
  }

  /**
   Exactly when the search is exact: it is for every schedule of a time and duration if and only if a mass that
   runs past the UTC day it would have to be found on is over by the time of day of `from`.
   */
  lemma ExactIffOverByThen(time: string, duration: int, from: int, horizonDays: nat)
    requires ClockTime(time)
    ensures (forall s | Timed(s, time, duration) :: Exact(s, from, horizonDays))
            <==> (Clock(time) + duration - 1500) * MINUTE_MS <= from % DAY_MS
  {
    var d := from / DAY_MS;
    if (Clock(time) + duration - 1500) * MINUTE_MS <= from % DAY_MS {
      forall s | Timed(s, time, duration)
        ensures Exact(s, from, horizonDays)
      {
        forall k | k < d
          ensures !Pending(s, k, from)
        {
          assert EndOf(s, k) == EndOf(s, d - 1) - (d - 1 - k) * DAY_MS;
        }
        ExactUnlessRunning(s, from, horizonDays);
      }
    } else {
      var daily := Schedule(Daily, None, None, None, None, time, duration, None);
      assert Timed(daily, time, duration);
      assert Pending(daily, d - 1, from);
      ExactUnlessRunning(daily, from, horizonDays);
      assert !Exact(daily, from, horizonDays);
    }
  }

  /** At every instant: the search is exact if and only if time and duration add up to at most 25 hours. */
  lemma ExactIffWithinBound(time: string, duration: int, horizonDays: nat)
    requires ClockTime(time)
    ensures (forall s, from | Timed(s, time, duration) :: Exact(s, from, horizonDays))
            <==> Clock(time) + duration <= 1500
  {
    if Clock(time) + duration <= 1500 {
      forall s, from | Timed(s, time, duration)
        ensures Exact(s, from, horizonDays)
      {
        ExactIffOverByThen(time, duration, from, horizonDays);
      }
    } else {
      ExactIffOverByThen(time, duration, 0, horizonDays);
      var s :| Timed(s, time, duration) && !Exact(s, 0, horizonDays);
    }
  }

  /** A mass from 23:30 to 01:30 is missed at 01:00 local time, which is midnight UTC. */
  lemma RunningMassMissed()
    ensures var s := Schedule(Daily, None, None, None, None, "23:30", 120, None);
            Usable(s) && Pending(s, -1, 0) && StartOf(s, -1) < 0 && Next(s, 0, 14) == Some(StartOf(s, 0))
  {
    var t := "23:30";
    assert t[..2] == "23" && t[3..5] == "30";
    ValueOfTwo('2', '3');
    ValueOfTwo('3', '0');
  }

  lemma WeekDayAhead(d: int, w: int)
    requires 0 <= w < 7
    ensures var n := d + (w - WeekDay(d)) % 7; d <= n < d + 7 && WeekDay(n) == WeekDay(n + 7) == w
  {
  }

  lemma AWeekAheadIsPending(s: Schedule, from: int, n: int)
    requires Usable(s) && s.duration > 0 && n >= from / DAY_MS + 7
    ensures EndOf(s, n) > from
  {
    hide Clock;
    assert from < (from / DAY_MS + 1) * DAY_MS;
  }

  lemma StartOrder(s: Schedule, m: int, n: int)
    requires Usable(s) && m <= n
    ensures StartOf(s, m) <= StartOf(s, n)
  {
    hide Clock;
  }

  lemma StartsWithinAWeek(s: Schedule, from: int, n: int)
    requires Usable(s) && Clock(s.time) < 1440 && s.duration > 0 && from / DAY_MS <= n < from / DAY_MS + 7
    ensures StartOf(s, if EndOf(s, n) > from then n else n + 7) < from + 7 * DAY_MS
  {
    hide Clock;
    assert from / DAY_MS * DAY_MS <= from;
    assert StartOf(s, n + 7) == StartOf(s, n) + 7 * DAY_MS;
  }

  /**
   A weekly schedule without validity dates has a next occurrence within the default horizon of 14 days, less than
   7 days ahead if its time is a time of day.
   */
  lemma WeeklyResolves(s: Schedule, from: int)
    requires Usable(s) && (s.frequency == Weekly || s.frequency == Biweekly)
    requires !Given(s.startDate) && !Given(s.endDate) && s.duration > 0
    requires s.dayOfWeek.Some? ==> 0 <= s.dayOfWeek.value < 7
    ensures Next(s, from, 14).Some?
    ensures Clock(s.time) < 1440 ==> Next(s, from, 14).value < from + 7 * DAY_MS
  {
    var d := from / DAY_MS;
    var w := if s.dayOfWeek.Some? then s.dayOfWeek.value else WeekDay(d);
    var n := d + (w - WeekDay(d)) % 7;
    WeekDayAhead(d, w);
    AWeekAheadIsPending(s, from, n + 7);
    var found := if EndOf(s, n) > from then n else n + 7;
    SearchFinds(s, from, d, d + 14);
    hide WeekDay, Search, ClockTime, Clock;
    assert Pending(s, found, from);
    if Clock(s.time) < 1440 {
      StartsWithinAWeek(s, from, n);
    }
    forall m | m <= found ensures StartOf(s, m) <= StartOf(s, found) { StartOrder(s, m, found); }
  }

  /** The Sunday mass at 10:00 of March 1st 2026, a Sunday, is found on that day, at 09:00 UTC. */
  lemma SundayMassIsFound()
    ensures var s := Schedule(Weekly, Some(0), None, None, None, "10:00", 60, None);
            var day := ToDay(Civil(2026, 3, 1));
            WeekDay(day) == 0 && Usable(s) && Next(s, day * DAY_MS, 14) == Some(day * DAY_MS + 9 * HOUR_MS)
  {
    var t := "10:00";
    ValueOfTwo('1', '0');
    ValueOfTwo('0', '0');
    assert t[..2] == ['1', '0'] && t[3..5] == ['0', '0'];
    Zeller(Civil(2026, 3, 1));
    DayAhead(0, ToDay(Civil(2026, 3, 1)));
    hide ToDay;
  }

  // ---- lead time ----

  /** The first sixteen characters of `toISOString`: `YYYY-MM-DDTHH:mm`. */
  function IsoMinute(t: int): (s: string)
    requires Printable(t / DAY_MS)
    ensures |s| == 16 && s[..10] == IsoDate(t / DAY_MS)
  {
    var inDay := t % DAY_MS;
    IsoDate(t / DAY_MS) + "T" + Padded(inDay / HOUR_MS, 2) + ":" + Padded(inDay % HOUR_MS / MINUTE_MS, 2)
  }

  /** Now plus the lead, on the local clock. */
  function EarliestInstant(minLeadHours: int, now: int): int {
    now + (BENIN_UTC_OFFSET_HOURS + if minLeadHours > 0 then minLeadHours else 0) * HOUR_MS
  }

  function EarliestRequestLocal(minLeadHours: int, now: int): (s: string)
    requires Printable(EarliestInstant(minLeadHours, now) / DAY_MS)
    ensures |s| == 16 && s[..10] == IsoDate(EarliestInstant(minLeadHours, now) / DAY_MS)
  {
    IsoMinute(EarliestInstant(minLeadHours, now))
  }

  predicate RespectsLeadTime(date: string, time: Option<string>, minLeadHours: int, now: int)
    requires Printable(EarliestInstant(minLeadHours, now) / DAY_MS)
    requires Given(time) ==> |time.value| >= 5
  {
    var earliest := EarliestRequestLocal(minLeadHours, now);
    var earliestDay := earliest[..10];
    if date != earliestDay then Less(earliestDay, date)
    else !Given(time) || AtMost(earliest[11..16], time.value[..5])
  }

  /** A time of day, as opposed to one that runs into the next day. */
  predicate TimeOfDay(time: string) {
    ClockTime(time) && Hours(time) < 24 && Minutes(time) < 60
  }

  /** `HH:mm` strings are ordered by hours, then minutes; for a time of day, that is by the minutes they denote. */
  lemma ClockOrder(h: nat, m: nat, time: string)
    requires h < 24 && m < 60 && ClockTime(time)
    ensures AtMost(Padded(h, 2) + ":" + Padded(m, 2), time[..5])
            <==> h < Hours(time) || (h == Hours(time) && m <= Minutes(time))
    ensures Minutes(time) < 60 ==>
              (AtMost(Padded(h, 2) + ":" + Padded(m, 2), time[..5]) <==> 60 * h + m <= Clock(time))
  {
    hide Less, Padded, Value;
    PowersOfTen();
    PaddedOfValue(time[..2]);
    PaddedOfValue(time[3..5]);
    PaddedOrder(Hours(time), h, 2);
    PaddedOrder(Minutes(time), m, 2);
    LessBySegments(time[..2], Padded(h, 2), ":", time[3..5], Padded(m, 2));
    assert time[..5] == time[..2] + ":" + time[3..5];
  }

  /** The earliest minute a request may be for: now plus the lead, rounded down, in local minutes since 1970. */
  function EarliestMinute(minLeadHours: int, now: int): int {
    EarliestInstant(minLeadHours, now) / MINUTE_MS
  }

  /** Days, hours and minutes of an instant are those of its minute. */
  lemma MinuteParts(t: int)
    ensures var e := t / MINUTE_MS;
            && e / 1440 == t / DAY_MS && e % 1440 / 60 == t % DAY_MS / HOUR_MS
            && e % 60 == t % DAY_MS % HOUR_MS / MINUTE_MS
  {
    var e := t / MINUTE_MS;
    var d, h, m := t / DAY_MS, t % DAY_MS / HOUR_MS, t % DAY_MS % HOUR_MS / MINUTE_MS;
    assert e == d * 1440 + 60 * h + m && 0 <= h < 24 && 0 <= m < 60;
    PartsOfMinute(d, h, m);
  }

  lemma PartsOfMinute(d: int, h: int, m: int)
    requires 0 <= h < 24 && 0 <= m < 60
    ensures var e := d * 1440 + 60 * h + m; e / 1440 == d && e % 1440 / 60 == h && e % 60 == m
  {
    var e := d * 1440 + 60 * h + m;
    assert e % 1440 == 60 * h + m;
    assert (60 * h + m) / 60 == h;
    assert e == 60 * (24 * d + h) + m;
  }

  lemma MinuteOfParts(e: int)
    ensures e == e / 1440 * 1440 + e % 1440 / 60 * 60 + e % 60 && 0 <= e % 1440 / 60 < 24 && 0 <= e % 60 < 60
  {
    var r := e % 1440;
    assert r == r / 60 * 60 + r % 60;
    assert e == 60 * (24 * (e / 1440) + r / 60) + r % 60;
  }

  /** With a time, a slot is accepted from the earliest day on, and on that day from its hour and minute on. */
  lemma LeadTimeByParts(n: int, time: string, minLeadHours: int, now: int)
    requires Printable(n) && Printable(EarliestInstant(minLeadHours, now) / DAY_MS) && ClockTime(time)
    ensures var e := EarliestMinute(minLeadHours, now);
            var h, m := e % 1440 / 60, e % 60;
            RespectsLeadTime(IsoDate(n), Some(time), minLeadHours, now)
            <==> n > e / 1440 || (n == e / 1440 && (h < Hours(time) || (h == Hours(time) && m <= Minutes(time))))
  {
    hide IsoDate, FromDay, Padded, Less, Hours, Minutes, EarliestInstant;
    var t := EarliestInstant(minLeadHours, now);
    var earliest := EarliestRequestLocal(minLeadHours, now);
    var h, m := t % DAY_MS / HOUR_MS, t % DAY_MS % HOUR_MS / MINUTE_MS;
    assert earliest[..10] == IsoDate(t / DAY_MS) && earliest[11..16] == Padded(h, 2) + ":" + Padded(m, 2);
    DateOrder(t / DAY_MS, n);
    ClockOrder(h, m, time);
    MinuteParts(t);
  }

  /** The slot is accepted exactly when its minute is at least the earliest one. */
  ghost predicate JudgedByMinutes(n: int, time: string, minLeadHours: int, now: int)
    requires Printable(n) && Printable(EarliestInstant(minLeadHours, now) / DAY_MS) && ClockTime(time)
  {
    RespectsLeadTime(IsoDate(n), Some(time), minLeadHours, now)
    <==> n * 1440 + Clock(time) >= EarliestMinute(minLeadHours, now)
  }

  lemma LeadTimeInMinutes(n: int, time: string, minLeadHours: int, now: int)
    requires Printable(n) && Printable(EarliestInstant(minLeadHours, now) / DAY_MS) && ClockTime(time)
    ensures TimeOfDay(time) ==> JudgedByMinutes(n, time, minLeadHours, now)
    ensures RespectsLeadTime(IsoDate(n), Some(time), minLeadHours, now) ==>
              n * 1440 + Clock(time) >= EarliestMinute(minLeadHours, now)
  {
    LeadTimeByParts(n, time, minLeadHours, now);
    hide RespectsLeadTime, IsoDate, EarliestInstant, Hours, Minutes;
    MinuteOfParts(EarliestMinute(minLeadHours, now));
    LexicallyLater(n, EarliestMinute(minLeadHours, now), Hours(time), Minutes(time));
  }

  /** From the parts of a minute to the minute. */
  lemma LexicallyLater(n: int, e: int, hours: nat, minutes: nat)
    ensures var h, m := e % 1440 / 60, e % 60;
            var later := n > e / 1440 || (n == e / 1440 && (h < hours || (h == hours && m <= minutes)));
            && (later ==> n * 1440 + 60 * hours + minutes >= e)
            && (hours < 24 && minutes < 60 ==> (later <==> n * 1440 + 60 * hours + minutes >= e))
  {
    MinuteOfParts(e);
  }

  /** A date and an instant at which a time that is no time of day is misjudged. */
  lemma Misjudged(time: string) returns (n: int, now: int)
    requires ClockTime(time) && !TimeOfDay(time)
    ensures Printable(n) && Printable(EarliestInstant(0, now) / DAY_MS) && !JudgedByMinutes(n, time, 0, now)
  {
    hide Hours, Minutes, IsoDate, FromDay, RespectsLeadTime, ClockTime;
    if Clock(time) >= 1440 {
      n, now := -1, -HOUR_MS;
    } else {
      n, now := 0, Clock(time) * MINUTE_MS - HOUR_MS;
    }
    LeadTimeByParts(n, time, 0, now);
  }

  /** Slots at a time are judged by minutes, on every date and at every instant, if and only if it is a time of day. */
  lemma LeadTimeIff(time: string)
    requires ClockTime(time)
    ensures (forall n, minLeadHours, now | Printable(n) && Printable(EarliestInstant(minLeadHours, now) / DAY_MS) ::
               JudgedByMinutes(n, time, minLeadHours, now))
            <==> TimeOfDay(time)
  {
    hide JudgedByMinutes, TimeOfDay, ClockTime, EarliestInstant, Printable;
    if TimeOfDay(time) {
      forall n, minLeadHours, now | Printable(n) && Printable(EarliestInstant(minLeadHours, now) / DAY_MS)
        ensures JudgedByMinutes(n, time, minLeadHours, now)
      {
        LeadTimeInMinutes(n, time, minLeadHours, now);
      }
    } else {
      var n, now := Misjudged(time);
    }
  }

  lemma TwentyFiveHours()
    ensures ClockTime("25:00") && Hours("25:00") == 25 && Minutes("25:00") == 0
  {
    var t := "25:00";
    assert t[..2] == "25" && t[3..5] == "00";
    ValueOfTwo('2', '5');
    ValueOfTwo('0', '0');
  }

  /** A slot at 25:00 of any day is refused half an hour after midnight, which is half an hour before it begins. */
  lemma LateTimeIsRefused(n: int, now: int)
    requires Printable(n) && Printable(n + 1) && now == (n + 1) * DAY_MS + 30 * MINUTE_MS - HOUR_MS
    ensures EarliestMinute(0, now) == (n + 1) * 1440 + 30 && Printable(EarliestInstant(0, now) / DAY_MS)
    ensures ClockTime("25:00") && n * 1440 + Clock("25:00") == EarliestMinute(0, now) + 30
    ensures !RespectsLeadTime(IsoDate(n), Some("25:00"), 0, now)
  {
    hide IsoDate, FromDay, RespectsLeadTime, ClockTime, Hours, Minutes;
    TwentyFiveHours();
    LeadTimeByParts(n, "25:00", 0, now);
  }

  /**
   A slot at a time of day is accepted if and only if it begins later than one minute before the lead has run; a negative
   lead is none.
   */
  lemma AcceptedIffInTime(n: int, time: string, minLeadHours: int, now: int)
    requires Printable(n) && Printable(EarliestInstant(minLeadHours, now) / DAY_MS) && TimeOfDay(time)
    ensures var begin := n * 86_400_000 + (60 * Hours(time) + Minutes(time)) * 60_000 - 3_600_000;
            var lead := if minLeadHours < 0 then 0 else minLeadHours * 3_600_000;
            RespectsLeadTime(IsoDate(n), Some(time), minLeadHours, now) <==> begin > now + lead - 60_000
  {
    LeadTimeInMinutes(n, time, minLeadHours, now);
    hide IsoDate, RespectsLeadTime, Hours, Minutes, ClockTime;
    WholeMinutes(EarliestInstant(minLeadHours, now), n * 1440 + 60 * Hours(time) + Minutes(time));
  }

  lemma WholeMinutes(t: int, k: int)
    ensures k >= t / MINUTE_MS <==> k * MINUTE_MS > t - MINUTE_MS
  {
  }

  /** No accepted slot begins a full minute or more before the lead has run. */
  lemma NeverAMinuteEarly(n: int, time: string, minLeadHours: int, now: int)
    requires Printable(n) && Printable(EarliestInstant(minLeadHours, now) / DAY_MS) && ClockTime(time)
    requires RespectsLeadTime(IsoDate(n), Some(time), minLeadHours, now)
    ensures n * DAY_MS + Clock(time) * MINUTE_MS > EarliestInstant(minLeadHours, now) - MINUTE_MS
  {
    LeadTimeInMinutes(n, time, minLeadHours, now);
  }

  /** Without a time, a lead of `days` whole days accepts exactly the dates from local today plus `days` on. */
  lemma LeadTimeInDays(n: int, days: nat, now: int)
    requires Printable(n) && Printable(EarliestInstant(24 * days, now) / DAY_MS)
    ensures RespectsLeadTime(IsoDate(n), None, 24 * days, now)
            <==> n >= (now + BENIN_UTC_OFFSET_HOURS * HOUR_MS) / DAY_MS + days
  {
    var t := EarliestInstant(24 * days, now);
    assert EarliestRequestLocal(24 * days, now)[..10] == IsoDate(t / DAY_MS);
    DateOrder(t / DAY_MS, n);
    assert t == now + BENIN_UTC_OFFSET_HOURS * HOUR_MS + days * DAY_MS;
  }
}
