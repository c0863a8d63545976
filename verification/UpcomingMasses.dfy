/**
 The assistant's list of dated masses (getUpcomingMasses, src/assistant/services/assistant-tools.service.ts).

 A window of days is clamped with string comparisons, then searched day by day and schedule by schedule. `Picks` is
 the list the search should produce; its lemmas say which pairs it holds, that it holds each once, and in what order.
 */
module UpcomingMasses {
  import opened Wrappers
  import opened Text
  import opened Calendar
  import opened Liturgy

  const UPCOMING_DEFAULT_DAYS := 14
  const UPCOMING_MAX_DAYS := 31
  const MASS_OPTIONS_LIMIT := 5

  datatype Query = Query(
    schedules: seq<Schedule>,
    mustBeMass: bool,
    isMassTypeName: Option<string> -> bool,
    leadHours: int,
    now: int)

  datatype Mass = Mass(date: string, weekDay: int, time: string, celebration: Option<string>)

  datatype Choice = Proposed(mass: Mass) | OtherDates

  datatype Listing = Listing(from: string, to: string, masses: seq<Mass>, options: seq<Choice>)

  /** `toISOString` throws on a date that is not valid. */
  datatype Error = InvalidTimeValue

  /** The schedules come from DATE and TIME columns, ordered by time. */
  predicate FromTable(q: Query) {
    && (forall i :: 0 <= i < |q.schedules| ==> Usable(q.schedules[i]))
    && (forall i, j :: 0 <= i < j < |q.schedules| ==> AtMost(q.schedules[i].time, q.schedules[j].time))
    && Printable(EarliestInstant(q.leadHours, q.now) / DAY_MS)
  }

  /** The test `/^\d{4}-\d{2}-\d{2}$/` on an argument chosen by the language model. */
  predicate IsDay(v: Option<string>) {
    && v.Some? && |v.value| == 10 && v.value[4] == '-' && v.value[7] == '-'
    && AllDigits(v.value[..4]) && AllDigits(v.value[5..7]) && AllDigits(v.value[8..])
  }

  /** The first day of a window: as it was written, and the day it is read as. */
  datatype First = First(text: string, day: int)

  predicate Begins(f: First) {
    IsDay(Some(f.text)) && ParseIso(f.text) == Some(f.day)
  }

  /** How the loop writes a day: the first one as it was given, the others as dates of the calendar. */
  function TextOf(f: First, n: int): string
    requires Printable(n)
  {
    if n == f.day then f.text else IsoDate(n)
  }

  /** A first day is read as one with a four-digit year, and its text is at most the date of that day. */
  lemma FirstDay(f: First)
    requires Begins(f)
    ensures Printable(f.day) && (f.text == IsoDate(f.day) <==> RealDate(f.text)) && AtMost(f.text, IsoDate(f.day))
  {
    hide ParseIso, IsoDate, FromDay, Less, RealDate;
    assert IsDigit(f.text[..4][0]);
    SignTells(f.text);
    ParseThenPrint(f.text);
    SignedYearsHaveSigns(f.text);
    if RealDate(f.text) {
      LessTotal(f.text, f.text);
    } else {
      RolledIsLess(f.text);
      LessTotal(f.text, IsoDate(f.day));
    }
  }

  lemma SignedYearsHaveSigns(s: string)
    requires IsDay(Some(s))
    ensures !IsFarMonth(s)
  {
  }

  /** A date whose day is past the end of its month is less than the date it is read as. */
  lemma RolledIsLess(s: string)
    requires IsDay(Some(s)) && ParseIso(s).Some? && !RealDate(s) && Printable(ParseIso(s).value)
    ensures Less(s, IsoDate(ParseIso(s).value))
  {
    hide Less, ParseIso, FromDay, Value, Padded, DayFromYear;
    var y, m, d := Value(s[..4]), Value(s[5..7]), Value(s[8..]);
    var n := ParseIso(s).value;
    ParseTen(s);
    RollsOver(y, m, d);
    PrintableRange(n);
    var c := FromDay(n);
    PowersOfTen();
    PaddedOfValue(s[..4]);
    PaddedOfValue(s[5..7]);
    PaddedOfValue(s[8..]);
    PaddedOrder(m, m + 1, 2);
    DashedOrder(s[..4], s[5..7], s[8..], Padded(c.year, 4), Padded(c.month, 2), Padded(c.day, 2));
    assert s == s[..4] + "-" + s[5..7] + "-" + s[8..];
  }

  lemma RollsOver(y: int, m: int, d: int)
    requires MakeDay(y, m, d).Some? && d > MonthLength(y, m)
    ensures m < 12
    ensures FromDay(MakeDay(y, m, d).value) == Civil(y, m + 1, d - MonthLength(y, m)) && d - MonthLength(y, m) <= 3
  {
    hide FromDay, DayFromYear;
    var c := Civil(y, m + 1, d - MonthLength(y, m));
    MonthStep(y, m);
    CivilRoundTrip(c);
  }

  /** Later days have greater texts. */
  lemma TextOrder(f: First, m: int, n: int)
    requires Begins(f) && Printable(m) && Printable(n) && f.day <= m < n
    ensures Less(TextOf(f, m), TextOf(f, n))
  {
    hide ParseIso, IsoDate, FromDay, Less, Begins;
    FirstDay(f);
    DateOrder(m, n);
    LessTotal(IsoDate(m), IsoDate(m));
    AtMostLess(TextOf(f, m), IsoDate(m), IsoDate(n));
  }

  lemma AtMostLess(a: string, b: string, c: string)
    requires AtMost(a, b) && Less(b, c)
    ensures Less(a, c)
  {
    hide Less;
    LessTotal(a, b);
    if a != b { LessTransitive(a, b, c); }
  }

  /** The tests of the loop on a day written `text`. */
  predicate Wanted(q: Query, s: Schedule, text: string)
    requires FromTable(q) && Usable(s)
  {
    && (q.mustBeMass ==> q.isMassTypeName(s.celebration))
    && IsValidScheduleOccurrence(s, text)
    && RespectsLeadTime(text, Some(s.time), q.leadHours, q.now)
  }

  /**
   On a date of the calendar, the tests say that the schedule takes place and is a mass if it has to be; that its minute
   is not too early, and for a time of day no more than that.
   */
  lemma WantedMeaning(q: Query, s: Schedule, n: int)
    requires FromTable(q) && Usable(s) && Printable(n)
    ensures var listed := (q.mustBeMass ==> q.isMassTypeName(s.celebration)) && Occurs(s, n)
                          && n * 1440 + Clock(s.time) >= EarliestMinute(q.leadHours, q.now);
            && (Wanted(q, s, IsoDate(n)) ==> listed)
            && (TimeOfDay(s.time) ==> (Wanted(q, s, IsoDate(n)) <==> listed))
  {
    hide IsoDate, ParseIso, FromDay, Occurs, IsValidScheduleOccurrence, RespectsLeadTime, Clock, ClockTime, TimeOfDay;
    PrintedOccurrence(s, n);
    LeadTimeInMinutes(n, s.time, q.leadHours, q.now);
  }

  function MassOf(s: Schedule, text: string, n: int): Mass
    requires ClockTime(s.time)
  {
    Mass(text, WeekDay(n), s.time[..5], s.celebration)
  }

  // ---- what the search should produce ----

  /** The wanted pairs (day, index) of day `n` among the first `k` indices. */
  ghost function PicksOn(want: (int, int) -> bool, n: int, k: nat): (p: seq<(int, int)>) {
    if k == 0 then []
    else PicksOn(want, n, k - 1) + if want(n, k - 1) then [(n, k - 1)] else []
  }

  /** The wanted pairs of the days from `first` up to but not including `next`. */
  ghost function Picks(want: (int, int) -> bool, count: nat, first: int, next: int): (p: seq<(int, int)>)
    decreases next - first
  {
    if next <= first then []
    else Picks(want, count, first, next - 1) + PicksOn(want, next - 1, count)
  }

  predicate Precedes(a: (int, int), b: (int, int)) {
    a.0 < b.0 || (a.0 == b.0 && a.1 < b.1)
  }

  predicate Ascending(p: seq<(int, int)>) {
    forall j, k :: 0 <= j < k < |p| ==> Precedes(p[j], p[k])
  }

  lemma {:induction false} PicksOnHolds(want: (int, int) -> bool, n: int, k: nat)
    ensures forall m, i :: (m, i) in PicksOn(want, n, k) <==> m == n && 0 <= i < k && want(n, i)
    ensures Ascending(PicksOn(want, n, k))
  {
    if k > 0 {
      PicksOnHolds(want, n, k - 1);
      var rest := PicksOn(want, n, k - 1);
      assert forall j :: 0 <= j < |rest| ==> (rest[j].0, rest[j].1) in rest;
    }
  }

  lemma ConcatAscending(a: seq<(int, int)>, b: seq<(int, int)>, n: int)
    requires Ascending(a) && Ascending(b)
    requires (forall m, i :: (m, i) in a ==> m < n) && forall m, i :: (m, i) in b ==> m == n
    ensures Ascending(a + b)
  {
    assert forall j :: 0 <= j < |a| ==> (a[j].0, a[j].1) in a;
    assert forall j :: 0 <= j < |b| ==> (b[j].0, b[j].1) in b;
  }

  /** Exactly the wanted pairs, each once, by day and then by index. */
  lemma {:induction false} PicksHolds(want: (int, int) -> bool, count: nat, first: int, next: int)
    ensures forall m, i :: (m, i) in Picks(want, count, first, next)
                           <==> first <= m < next && 0 <= i < count && want(m, i)
    ensures Ascending(Picks(want, count, first, next))
    decreases next - first
  {
    hide Ascending, PicksOn;
    if first < next {
      PicksHolds(want, count, first, next - 1);
      PicksOnHolds(want, next - 1, count);
      ConcatAscending(Picks(want, count, first, next - 1), PicksOn(want, next - 1, count), next - 1);
    } else {
      AscendingEmpty();
    }
  }

  lemma AscendingEmpty()
    ensures Ascending([])
  {
  }

  /** The pairs (day, schedule index) the search is to find. */
  ghost function Wants(q: Query, f: First): (int, int) -> bool
    requires FromTable(q)
  {
    (n, i) => Printable(n) && 0 <= i < |q.schedules| && Wanted(q, q.schedules[i], TextOf(f, n))
  }

  ghost function MassPicks(q: Query, f: First, next: int): (p: seq<(int, int)>)
    requires FromTable(q)
    ensures InTable(q, p) && Ascending(p)
  {
    PicksHolds(Wants(q, f), |q.schedules|, f.day, next);
    var p := Picks(Wants(q, f), |q.schedules|, f.day, next);
    assert forall k :: 0 <= k < |p| ==> (p[k].0, p[k].1) in p;
    p
  }

  /** The listed pairs are the wanted ones of the window, and none comes twice. */
  lemma MassPicksHolds(q: Query, f: First, next: int)
    requires FromTable(q)
    ensures forall n, i :: (n, i) in MassPicks(q, f, next)
                           <==> f.day <= n < next && 0 <= i < |q.schedules| && Printable(n)
                                && Wanted(q, q.schedules[i], TextOf(f, n))
    ensures var p := MassPicks(q, f, next);
            forall j, k :: 0 <= j < k < |p| ==> p[j] != p[k]
  {
    hide Wanted, TextOf;
    PicksHolds(Wants(q, f), |q.schedules|, f.day, next);
    assert Ascending(MassPicks(q, f, next));
  }

  lemma MassPicksStep(q: Query, f: First, next: int)
    requires FromTable(q) && f.day <= next
    ensures MassPicks(q, f, f.day) == []
    ensures MassPicks(q, f, next + 1) == MassPicks(q, f, next) + PicksOn(Wants(q, f), next, |q.schedules|)
  {
  }

  predicate InTable(q: Query, p: seq<(int, int)>) {
    forall k :: 0 <= k < |p| ==> Printable(p[k].0) && 0 <= p[k].1 < |q.schedules|
  }

  function MassesOf(q: Query, f: First, p: seq<(int, int)>): (m: seq<Mass>)
    requires FromTable(q) && InTable(q, p)
    ensures |m| == |p|
  {
    seq(|p|, k requires 0 <= k < |p| => MassOf(q.schedules[p[k].1], TextOf(f, p[k].0), p[k].0))
  }

  lemma PrefixAtMost(a: string, b: string, k: nat)
    requires k <= |a| && k <= |b| && AtMost(a, b)
    ensures AtMost(a[..k], b[..k])
  {
    LessConcat(b[..k], a[..k], b[k..], a[k..]);
    assert a == a[..k] + a[k..] && b == b[..k] + b[k..];
  }

  /** The masses are listed in nondecreasing order of date, then time. */
  predicate InOrder(masses: seq<Mass>) {
    forall j, k :: 0 <= j < k < |masses| ==>
      Less(masses[j].date, masses[k].date)
      || (masses[j].date == masses[k].date && AtMost(masses[j].time, masses[k].time))
  }

  lemma AscendingPicksInOrder(q: Query, f: First, p: seq<(int, int)>)
    requires FromTable(q) && InTable(q, p) && Ascending(p) && Begins(f)
    requires forall k :: 0 <= k < |p| ==> f.day <= p[k].0
    ensures InOrder(MassesOf(q, f, p))
  {
    hide IsoDate, FromDay, Less, WeekDay, TextOf, Begins;
    var masses := MassesOf(q, f, p);
    forall j, k | 0 <= j < k < |masses|
      ensures Less(masses[j].date, masses[k].date)
              || (masses[j].date == masses[k].date && AtMost(masses[j].time, masses[k].time))
    {
      assert Precedes(p[j], p[k]);
      if p[j].0 < p[k].0 {
        TextOrder(f, p[j].0, p[k].0);
      } else {
        PrefixAtMost(q.schedules[p[j].1].time, q.schedules[p[k].1].time, 5);
      }
    }
  }

  // ---- the window ----

  function Today(q: Query): (s: string)
    requires FromTable(q)
    ensures s == IsoDate(EarliestInstant(q.leadHours, q.now) / DAY_MS)
  {
    EarliestRequestLocal(q.leadHours, q.now)[..10]
  }

  function WindowStart(q: Query, from: Option<string>): (start: string)
    requires FromTable(q)
    ensures IsDay(Some(start))
  {
    hide IsoDate, FromDay;
    PrintedIsReal(EarliestInstant(q.leadHours, q.now) / DAY_MS);
    if IsDay(from) && Less(Today(q), from.value) then from.value else Today(q)
  }

  predicate IsUsable(start: string, to: Option<string>) {
    IsDay(to) && AtMost(start, to.value)
  }

  /** The last day of the window: at most 31 days after the first, 14 by default. */
  function WindowEnd(f: First, to: Option<string>): (end: string)
    requires Begins(f)
  {
    hide ParseIso, IsoDate, FromDay;
    FirstDay(f);
    var maxEnd := AddDays(f.text, UPCOMING_MAX_DAYS).value;
    if IsUsable(f.text, to) then (if Less(to.value, maxEnd) then to.value else maxEnd)
    else AddDays(f.text, UPCOMING_DEFAULT_DAYS).value
  }

  /** A far day is written with a plus, which is less than every digit. */
  lemma FarIsLess(n: int, s: string)
    requires TimeRange(n) && n > LAST && s != "" && IsDigit(s[0])
    ensures Less(IsoDate(n), s)
  {
    hide FromDay;
    PrintableRange(n);
    var c := FromDay(n);
    WithinYear(c);
    if c.year < 0 { YearsOrdered(c.year, 0); }
    assert IsoDate(n)[0] == '+';
  }

  /** How many days after the first one the window may reach. */
  function Reach(f: First, to: Option<string>): nat {
    if IsUsable(f.text, to) then UPCOMING_MAX_DAYS else UPCOMING_DEFAULT_DAYS
  }

  /**
   While the reach has a four-digit year, a day is in the window if and only if it is at most the asked end, if one was
   asked for that is usable, and within reach. Otherwise the window is empty.
   */
  lemma WindowIsClamped(f: First, to: Option<string>)
    requires Begins(f)
    ensures Printable(f.day)
    ensures Printable(f.day + Reach(f, to)) ==>
              forall n :: f.day <= n && Printable(n) ==>
                (AtMost(TextOf(f, n), WindowEnd(f, to))
                 <==> (IsUsable(f.text, to) ==> AtMost(TextOf(f, n), to.value)) && n <= f.day + Reach(f, to))
    ensures !Printable(f.day + Reach(f, to)) ==> Less(WindowEnd(f, to), f.text)
  {
    hide IsoDate, ParseIso, FromDay, Less, TextOf;
    FirstDay(f);
    var limit := IsoDate(f.day + Reach(f, to));
    DigitFirst(f.text);
    if Printable(f.day + Reach(f, to)) {
      forall n | f.day <= n && Printable(n)
        ensures AtMost(TextOf(f, n), WindowEnd(f, to))
                <==> (IsUsable(f.text, to) ==> AtMost(TextOf(f, n), to.value)) && n <= f.day + Reach(f, to)
      {
        TextAtMost(f, n, f.day + Reach(f, to));
        if IsUsable(f.text, to) {
          LessTotal(to.value, limit);
          AtMostBoth(TextOf(f, n), to.value, limit);
        }
      }
    } else {
      FarIsLess(f.day + Reach(f, to), f.text);
      if IsUsable(f.text, to) {
        DigitFirst(to.value);
        FarIsLess(f.day + Reach(f, to), to.value);
        LessTotal(to.value, limit);
      }
    }
  }

  lemma DigitFirst(s: string)
    requires IsDay(Some(s))
    ensures s != "" && IsDigit(s[0])
  {
    assert s[..4][0] == s[0];
  }

  lemma TextAtMost(f: First, n: int, m: int)
    requires Begins(f) && Printable(n) && Printable(m) && f.day <= n && f.day < m
    ensures AtMost(TextOf(f, n), IsoDate(m)) <==> n <= m
  {
    hide IsoDate, ParseIso, FromDay, Less, Begins;
    FirstDay(f);
    LessTotal(IsoDate(m), IsoDate(m));
    if n < m {
      TextOrder(f, n, m);
      LessTotal(TextOf(f, n), IsoDate(m));
    } else if m < n {
      TextOrder(f, m, n);
    }
  }

  /** The window starts today or on the asked day, whichever is later; today is the day after the lead has run. */
  predicate StartsRight(q: Query, from: Option<string>, start: string)
    requires FromTable(q)
  {
    var today := IsoDate(EarliestInstant(q.leadHours, q.now) / DAY_MS);
    && (start == today || Some(start) == from)
    && !Less(start, today)
    && (IsDay(from) ==> !Less(start, from.value))
  }

  lemma StartIsRight(q: Query, from: Option<string>)
    requires FromTable(q)
    ensures StartsRight(q, from, WindowStart(q, from))
  {
    hide IsoDate, FromDay, Less;
    var today := Today(q);
    LessTotal(today, today);
    if IsDay(from) { LessTotal(today, from.value); LessTotal(from.value, from.value); }
  }

  /** The window ends on the asked day or 31 days after its start, whichever is earlier; without a usable end, after 14. */
  predicate EndsRight(start: string, to: Option<string>, end: string) {
    var limit, usual := AddDays(start, 31), AddDays(start, 14);
    && limit.Some? && usual.Some?
    && (IsDay(to) && !Less(to.value, start) ==>
          (end == to.value || end == limit.value) && !Less(to.value, end) && !Less(limit.value, end))
    && (!IsDay(to) || Less(to.value, start) ==> end == usual.value)
  }

  lemma EndIsRight(f: First, to: Option<string>)
    requires Begins(f)
    ensures EndsRight(f.text, to, WindowEnd(f, to))
  {
    hide ParseIso, IsoDate, FromDay, Less;
    FirstDay(f);
    var limit := AddDays(f.text, 31).value;
    LessTotal(limit, limit);
    if IsDay(to) { LessTotal(to.value, limit); LessTotal(to.value, to.value); }
  }

  /** No listed mass is before today. */
  predicate NonePast(q: Query, masses: seq<Mass>)
    requires FromTable(q)
  {
    forall k :: 0 <= k < |masses| ==> !Less(masses[k].date, IsoDate(EarliestInstant(q.leadHours, q.now) / DAY_MS))
  }

  lemma NoneIsPast(q: Query, from: Option<string>, f: First, p: seq<(int, int)>)
    requires FromTable(q) && Begins(f) && f.text == WindowStart(q, from) && InTable(q, p)
    requires forall k :: 0 <= k < |p| ==> f.day <= p[k].0
    ensures NonePast(q, MassesOf(q, f, p))
  {
    hide ParseIso, IsoDate, FromDay, Less, Begins, TextOf, WindowStart, WeekDay;
    StartIsRight(q, from);
    var today := IsoDate(EarliestInstant(q.leadHours, q.now) / DAY_MS);
    forall k | 0 <= k < |p| ensures !Less(TextOf(f, p[k].0), today) {
      StartAtMost(f, p[k].0);
      AtMostTransitive(today, f.text, TextOf(f, p[k].0));
    }
  }

  /** A window of one day lists that day. */
  lemma OneDay(q: Query, f: First, listing: Listing, next: int)
    requires FromTable(q) && Begins(f) && Printable(f.day + UPCOMING_MAX_DAYS)
    requires listing.to == WindowEnd(f, Some(f.text)) && Covers(listing, f, next)
    requires listing.masses == MassesOf(q, f, MassPicks(q, f, next))
    ensures next == f.day + 1 && forall k :: 0 <= k < |listing.masses| ==> listing.masses[k].date == f.text
  {
    hide ParseIso, IsoDate, FromDay, Less, TextOf, WeekDay, MassPicks, WindowEnd;
    FirstDay(f);
    StartText(f);
    LessTotal(f.text, f.text);
    TextOrder(f, f.day, f.day + 1);
    EndIsRight(f, Some(f.text));
    TextAtMost(f, f.day, f.day + 31);
    LimitIs(f);
    LessTotal(f.text, listing.to);
    assert AtMost(TextOf(f, f.day), listing.to) && !AtMost(TextOf(f, f.day + 1), listing.to);
    PicksFrom(q, f, next);
    MassPicksHolds(q, f, next);
    var p := MassPicks(q, f, next);
    forall k | 0 <= k < |p| ensures p[k].0 == f.day { assert (p[k].0, p[k].1) in p; }
  }

  lemma LimitIs(f: First)
    requires Begins(f)
    ensures Printable(f.day) && AddDays(f.text, 31) == Some(IsoDate(f.day + 31))
  {
    hide ParseIso, IsoDate, FromDay;
    FirstDay(f);
  }

  /** A listed mass carries the date as it was written, its weekday, and the hour and name of its schedule. */
  lemma MassesAre(q: Query, f: First, p: seq<(int, int)>, k: nat)
    requires FromTable(q) && InTable(q, p) && k < |p|
    ensures var m, n, s := MassesOf(q, f, p)[k], p[k].0, q.schedules[p[k].1];
            && m.date == (if n == f.day then f.text else IsoDate(n)) && m.weekDay == WeekDay(n)
            && |m.time| == 5 && m.time == s.time[..5] && m.celebration == s.celebration
  {
    hide IsoDate, FromDay, WeekDay;
  }

  /** The pattern of a day: four, two and two digits with hyphens, whatever they say. */
  lemma IsDayIff(s: string)
    ensures IsDay(Some(s)) <==>
            exists y: nat, m: nat, d: nat ::
              y < 10000 && m < 100 && d < 100 && s == Padded(y, 4) + "-" + Padded(m, 2) + "-" + Padded(d, 2)
  {
    hide Padded, Value;
    PowersOfTen();
    if IsDay(Some(s)) {
      PaddedOfValue(s[..4]);
      PaddedOfValue(s[5..7]);
      PaddedOfValue(s[8..]);
      assert s == s[..4] + "-" + s[5..7] + "-" + s[8..];
    }
    forall y: nat, m: nat, d: nat | s == Padded(y, 4) + "-" + Padded(m, 2) + "-" + Padded(d, 2)
      ensures IsDay(Some(s))
    {
      assert s[..4] == Padded(y, 4) && s[5..7] == Padded(m, 2) && s[8..] == Padded(d, 2);
    }
  }

  // ---- whether the loop ends ----

  const LAST := 2932896
  const LAST_DATE := "9999-12-31"

  /** The `k`-th day of the loop; None once `addDays` has thrown. */
  ghost function DayAt(start: string, k: nat): Option<string> {
    if k == 0 then Some(start)
    else
      match DayAt(start, k - 1)
      case None => None
      case Some(day) => AddDays(day, 1)
  }

  /** The loop is left before its `k`-th day. */
  ghost predicate StopsAt(start: string, end: string, k: nat) {
    match DayAt(start, k)
    case None => true
    case Some(day) => Less(end, day)
  }

  ghost predicate Stops(start: string, end: string) {
    exists k: nat :: StopsAt(start, end, k)
  }

  lemma LastDate()
    ensures IsoDate(LAST) == LAST_DATE && Printable(LAST)
  {
    hide ParseIso, IsoDate, FromDay;
    var s := LAST_DATE;
    assert s[..4] == "9999" && s[5..7] == "12" && s[8..] == "31";
    ValueOfFour('9', '9', '9', '9');
    ValueOfTwo('1', '2');
    ValueOfTwo('3', '1');
    RealDateIsPrinted(s);
  }

  /** The day after the last four-digit year is its own successor: it is written by its month, and read as the first. */
  lemma StuckDay()
    ensures AddDays(IsoDate(LAST + 1), 1) == Some(IsoDate(LAST + 1))
  {
    hide ParseIso, FromDay, ToDay, Padded, Print;
    FarJanuary();
    PrintThenParseIff(LAST + 1);
  }

  lemma FarJanuary()
    ensures FromDay(LAST + 1) == Civil(10000, 1, 1) && FromDay(LAST + 2) == Civil(10000, 1, 2)
  {
    hide FromDay;
    var c, d := Civil(10000, 1, 1), Civil(10000, 1, 2);
    assert ToDay(c) == LAST + 1 && ToDay(d) == LAST + 2;
    CivilRoundTrip(c);
    CivilRoundTrip(d);
  }

  lemma {:induction false} DayAtIs(f: First, k: nat)
    requires Begins(f)
    ensures Printable(f.day)
    ensures DayAt(f.text, k) ==
              Some(if f.day + k <= LAST then TextOf(f, f.day + k) else IsoDate(LAST + 1))
  {
    hide ParseIso, IsoDate, FromDay;
    FirstDay(f);
    if k > 0 {
      DayAtIs(f, k - 1);
      if f.day + k - 1 > LAST {
        StuckDay();
      } else if k > 1 {
        PrintThenParse(f.day + k - 1);
      }
    }
  }

  /** The loop ends if and only if its first day is past the end, or the end is before the last four-digit day. */
  lemma StopsIff(f: First, end: string)
    requires Begins(f)
    ensures Stops(f.text, end) <==> Less(end, f.text) || Less(end, LAST_DATE)
  {
    hide ParseIso, IsoDate, FromDay, Less, Begins, TextOf, DayAt;
    FirstDay(f);
    LastDate();
    DayAtIs(f, 0);
    DayAtIs(f, LAST - f.day);
    TextOfLast(f);
    StartText(f);
    if Less(end, f.text) {
      assert StopsAt(f.text, end, 0);
    } else if Less(end, LAST_DATE) {
      assert StopsAt(f.text, end, LAST - f.day);
    } else {
      forall k: nat ensures !StopsAt(f.text, end, k) {
        DayAtIs(f, k);
        if f.day + k <= LAST {
          TextUpToLast(f, f.day + k);
          AtMostTransitive(TextOf(f, f.day + k), LAST_DATE, end);
        } else {
          FarIsLess(LAST + 1, LAST_DATE);
          LessTotal(IsoDate(LAST + 1), LAST_DATE);
          AtMostTransitive(IsoDate(LAST + 1), LAST_DATE, end);
        }
      }
    }
  }

  lemma TextUpToLast(f: First, n: int)
    requires Begins(f) && f.day <= n <= LAST && Printable(n)
    ensures AtMost(TextOf(f, n), LAST_DATE)
  {
    hide ParseIso, IsoDate, FromDay, Less, Begins;
    FirstDay(f);
    LastDate();
    TextOfLast(f);
    if n < LAST {
      TextOrder(f, n, LAST);
      LessTotal(TextOf(f, n), LAST_DATE);
    } else {
      LessTotal(LAST_DATE, LAST_DATE);
    }
  }

  /** Only the last date itself is read as the last day. */
  lemma TextOfLast(f: First)
    requires Begins(f)
    ensures Printable(LAST) && TextOf(f, LAST) == LAST_DATE
  {
    hide ParseIso, FromDay, IsoDate, Less, Value, ToDay;
    LastDate();
    if f.day == LAST && !RealDate(f.text) {
      ParseTen(f.text);
      RollsOver(Value(f.text[..4]), Value(f.text[5..7]), Value(f.text[8..]));
      LastCivil();
    }
    hide RealDate;
    FirstDay(f);
  }

  lemma LastCivil()
    ensures FromDay(LAST) == Civil(9999, 12, 31)
  {
    assert ToDay(Civil(9999, 12, 31)) == LAST;
    CivilRoundTrip(Civil(9999, 12, 31));
  }

  /** The conditions under which the loop of a call ends. */
  predicate Terminates(q: Query, from: Option<string>, to: Option<string>)
    requires FromTable(q)
  {
    var start := WindowStart(q, from);
    match ParseIso(start)
    case None => true
    case Some(first) =>
      var end := WindowEnd(First(start, first), to);
      Less(end, start) || Less(end, LAST_DATE)
  }

  /** A call ends if its start reads as no day, and otherwise exactly when its loop does. */
  lemma TerminatesIffStops(q: Query, from: Option<string>, to: Option<string>)
    requires FromTable(q)
    ensures match ParseIso(WindowStart(q, from))
            case None => Terminates(q, from, to)
            case Some(first) =>
              var f := First(WindowStart(q, from), first);
              Terminates(q, from, to) <==> Stops(f.text, WindowEnd(f, to))
  {
    hide ParseIso, WindowStart, WindowEnd, Stops, Less;
    var start := WindowStart(q, from);
    if ParseIso(start).Some? {
      var f := First(start, ParseIso(start).value);
      StopsIff(f, WindowEnd(f, to));
    }
  }

  /** Without an end, the loop never ends two weeks before the last four-digit day; three days later it ends at once. */
  lemma EndlessWindow()
    ensures var f := First("9999-12-17", LAST - 14);
            Begins(f) && WindowEnd(f, None) == LAST_DATE && !Stops(f.text, WindowEnd(f, None))
    ensures var f := First("9999-12-20", LAST - 11);
            Begins(f) && StopsAt(f.text, WindowEnd(f, None), 0)
  {
    hide ParseIso, FromDay, IsoDate, Less, Stops, RealDate;
    var f, g := First("9999-12-17", LAST - 14), First("9999-12-20", LAST - 11);
    ValueOfTwo('1', '7');
    ValueOfTwo('2', '0');
    DecemberDay("17", 17);
    DecemberDay("20", 20);
    assert "9999-12-" + "17" == f.text && "9999-12-" + "20" == g.text;
    LastDate();
    StopsIff(f, LAST_DATE);
    TextUpToLast(f, f.day);
    LessTotal(LAST_DATE, LAST_DATE);
    WindowIsClamped(g, None);
  }

  lemma DecemberDay(digits: string, d: nat)
    requires |digits| == 2 && AllDigits(digits) && Value(digits) == d && 1 <= d <= 31
    ensures IsDay(Some("9999-12-" + digits)) && ParseIso("9999-12-" + digits) == Some(LAST - 31 + d)
  {
    hide ParseIso, FromDay, IsoDate;
    var s := "9999-12-" + digits;
    assert s[..4] == "9999" && s[5..7] == "12" && s[8..] == digits;
    ValueOfFour('9', '9', '9', '9');
    ValueOfTwo('1', '2');
    RealDateIsPrinted(s);
  }

  // ---- the search ----

  lemma OneMore(q: Query, f: First, p: seq<(int, int)>, n: int, i: nat)
    requires FromTable(q) && InTable(q, p) && Printable(n) && i < |q.schedules|
    ensures MassesOf(q, f, p + [(n, i)]) == MassesOf(q, f, p) + [MassOf(q.schedules[i], TextOf(f, n), n)]
  {
    hide TextOf;
  }

  /** The body of the loop over days: append the masses of one day. */
  method AppendDay(q: Query, day: string, masses: seq<Mass>, ghost f: First, ghost n: int, ghost p: seq<(int, int)>)
    returns (longer: seq<Mass>)
    requires FromTable(q) && Printable(n) && day == TextOf(f, n) && ParseIso(day) == Some(n)
    requires InTable(q, p) && masses == MassesOf(q, f, p)
    ensures InTable(q, p + PicksOn(Wants(q, f), n, |q.schedules|))
    ensures longer == MassesOf(q, f, p + PicksOn(Wants(q, f), n, |q.schedules|))
  {
    hide IsoDate, ParseIso, FromDay, IsValidScheduleOccurrence, RespectsLeadTime, TextOf;
    longer := masses;
    ghost var found := p;
    for i := 0 to |q.schedules|
      invariant found == p + PicksOn(Wants(q, f), n, i)
      invariant InTable(q, found) && longer == MassesOf(q, f, found)
    {
      var s := q.schedules[i];
      if q.mustBeMass && !q.isMassTypeName(s.celebration) { continue; }
      if !IsValidScheduleOccurrence(s, day) { continue; }
      if !RespectsLeadTime(day, Some(s.time), q.leadHours, q.now) { continue; }
      OneMore(q, f, found, n, i);
      found := found + [(n, i)];
      longer := longer + [Mass(day, WeekDay(ParseIso(day).value), s.time[..5], s.celebration)];
    }
  }

  /** The days listed are those from the window's first to its last; `next` is the first day after it. */
  ghost predicate Covers(listing: Listing, f: First, next: int) {
    && f.day <= next <= f.day + UPCOMING_MAX_DAYS + 1
    && forall n :: f.day <= n && Printable(n) ==> (AtMost(TextOf(f, n), listing.to) <==> n < next)
  }

  /** At most five masses are offered as buttons, and a sixth button leads to the others. */
  predicate Offered(masses: seq<Mass>, options: seq<Choice>) {
    && |options| == (if |masses| > MASS_OPTIONS_LIMIT then MASS_OPTIONS_LIMIT + 1 else |masses|)
    && (forall k :: 0 <= k < |options| ==>
          options[k] == if k < MASS_OPTIONS_LIMIT then Proposed(masses[k]) else OtherDates)
  }

  method GetUpcomingMasses(q: Query, from: Option<string>, to: Option<string>)
    returns (r: Result<Listing, Error>, ghost next: int)
    requires FromTable(q) && Terminates(q, from, to)
    ensures r.Failure? <==> ParseIso(WindowStart(q, from)).None?
    ensures r.Success? ==>
              var f := First(WindowStart(q, from), ParseIso(WindowStart(q, from)).value);
              && r.value.from == f.text
              && r.value.to == WindowEnd(f, to)
              && Covers(r.value, f, next)
              && r.value.masses == MassesOf(q, f, MassPicks(q, f, next))
              && InOrder(r.value.masses)
              && Offered(r.value.masses, r.value.options)
              && StartsRight(q, from, r.value.from)
              && EndsRight(r.value.from, to, r.value.to)
              && NonePast(q, r.value.masses)
              && (to == Some(f.text) && Printable(f.day + UPCOMING_MAX_DAYS) ==>
                    next == f.day + 1 && forall k :: 0 <= k < |r.value.masses| ==> r.value.masses[k].date == f.text)
  {
    hide IsoDate, ParseIso, FromDay, WindowStart, WindowEnd, Less, Offered, OptionsFor, MassPicks, Wants, TextOf;
    hide StartsRight, EndsRight, NonePast;
    next := 0;
    var start := WindowStart(q, from);
    if AddDays(start, UPCOMING_MAX_DAYS).None? {
      FailsAtOnce(start);
      return Failure(InvalidTimeValue), next;
    }
    ghost var f := First(start, ParseIso(start).value);
    var last := WindowEnd(First(start, ParseIso(start).value), to);
    FirstDay(f);
    StartText(f);

    var masses: seq<Mass> := [];
    var day := start;
    next := f.day;
    MassPicksStep(q, f, next);
    while AtMost(day, last)
      invariant f.day <= next <= f.day + UPCOMING_MAX_DAYS + 1
      invariant next > f.day ==> Less(last, LAST_DATE)
      invariant Printable(next) && day == TextOf(f, next) && ParseIso(day) == Some(next)
      invariant forall m :: f.day <= m < next ==> Printable(m) && AtMost(TextOf(f, m), last)
      invariant masses == MassesOf(q, f, MassPicks(q, f, next))
      decreases f.day + UPCOMING_MAX_DAYS + 1 - next
    {
      DayInWindow(f, to, next);
      masses := AppendDay(q, day, masses, f, next, MassPicks(q, f, next));
      MassPicksStep(q, f, next);
      PrintThenParse(next + 1);
      day := AddDays(day, 1).value;
      next := next + 1;
      LaterText(f, next);
    }
    forall m | f.day <= m && Printable(m)
      ensures AtMost(TextOf(f, m), last) <==> m < next
    {
      if next <= m { AfterEnd(last, f, next, m); }
    }
    MassPicksHolds(q, f, next);
    PicksFrom(q, f, next);
    AscendingPicksInOrder(q, f, MassPicks(q, f, next));
    StartIsRight(q, from);
    EndIsRight(f, to);
    NoneIsPast(q, from, f, MassPicks(q, f, next));
    if to == Some(f.text) && Printable(f.day + UPCOMING_MAX_DAYS) {
      OneDay(q, f, Listing(start, last, masses, []), next);
    }
    var options := OptionsFor(masses);
    return Success(Listing(start, last, masses, options)), next;
  }

  lemma FailsAtOnce(start: string)
    requires IsDay(Some(start)) && AddDays(start, UPCOMING_MAX_DAYS).None?
    ensures ParseIso(start).None?
  {
    hide ParseIso, IsoDate, FromDay;
    if ParseIso(start).Some? { FirstDay(First(start, ParseIso(start).value)); }
  }

  lemma StartText(f: First)
    requires Begins(f) && Printable(f.day)
    ensures TextOf(f, f.day) == f.text
  {
  }

  lemma LaterText(f: First, n: int)
    requires Printable(n) && n > f.day
    ensures TextOf(f, n) == IsoDate(n)
  {
  }

  /** A day of a loop that ends: the next one still has a four-digit year, and the window is at most 32 days long. */
  lemma DayInWindow(f: First, to: Option<string>, n: int)
    requires Begins(f) && Printable(n) && f.day <= n && AtMost(TextOf(f, n), WindowEnd(f, to))
    requires Less(WindowEnd(f, to), f.text) || Less(WindowEnd(f, to), LAST_DATE)
    ensures n < LAST && Printable(n + 1) && n <= f.day + UPCOMING_MAX_DAYS && Less(WindowEnd(f, to), LAST_DATE)
  {
    hide IsoDate, ParseIso, FromDay, Less, TextOf, WindowEnd, Begins;
    WindowIsClamped(f, to);
    TextOfLast(f);
    StartAtMost(f, n);
    AtMostTransitive(f.text, TextOf(f, n), WindowEnd(f, to));
  }

  lemma StartAtMost(f: First, n: int)
    requires Begins(f) && Printable(n) && f.day <= n
    ensures AtMost(f.text, TextOf(f, n))
  {
    hide IsoDate, ParseIso, FromDay, Less, Begins;
    FirstDay(f);
    LessTotal(f.text, TextOf(f, n));
    if f.day < n { TextOrder(f, f.day, n); }
  }

  lemma AfterEnd(end: string, f: First, n: int, m: int)
    requires Begins(f) && Printable(n) && Printable(m) && f.day <= n <= m && Less(end, TextOf(f, n))
    ensures Less(end, TextOf(f, m))
  {
    hide IsoDate, ParseIso, FromDay, Less, TextOf, Begins;
    if n < m {
      TextOrder(f, n, m);
      LessTransitive(end, TextOf(f, n), TextOf(f, m));
    }
  }

  lemma PicksFrom(q: Query, f: First, next: int)
    requires FromTable(q)
    ensures var p := MassPicks(q, f, next); forall k :: 0 <= k < |p| ==> f.day <= p[k].0
  {
    hide MassPicks;
    MassPicksHolds(q, f, next);
    var p := MassPicks(q, f, next);
    forall k | 0 <= k < |p| ensures f.day <= p[k].0 { assert (p[k].0, p[k].1) in p; }
  }

  function OptionsFor(masses: seq<Mass>): (options: seq<Choice>)
    ensures Offered(masses, options)
  {
    var shown := if |masses| > MASS_OPTIONS_LIMIT then masses[..MASS_OPTIONS_LIMIT] else masses;
    seq(|shown|, k requires 0 <= k < |shown| => Proposed(shown[k]))
    + if |masses| > MASS_OPTIONS_LIMIT then [OtherDates] else []
  }

  // ---- a mass picked from the list ----

  /** The schedule answers a request for `date` at `time` (prepareRequest). */
  predicate Answers(s: Schedule, mustBeMass: bool, isMassTypeName: Option<string> -> bool, date: string, time: string) {
    && (if |s.time| > 5 then s.time[..5] else s.time) == time
    && IsValidScheduleOccurrence(s, date)
    && (mustBeMass ==> isMassTypeName(s.celebration))
  }

  /** The first schedule of the table, in whatever order it is read, that answers. */
  function FindSchedule(table: seq<Schedule>, mustBeMass: bool, isMassTypeName: Option<string> -> bool,
                        date: string, time: string): (r: Option<Schedule>)
    ensures r.Some? ==> r.value in table && Answers(r.value, mustBeMass, isMassTypeName, date, time)
    ensures r.None? ==> forall s :: s in table ==> !Answers(s, mustBeMass, isMassTypeName, date, time)
  {
    if table == [] then None
    else if Answers(table[0], mustBeMass, isMassTypeName, date, time) then Some(table[0])
    else FindSchedule(table[1..], mustBeMass, isMassTypeName, date, time)
  }

  function RequestedTime(time: string): string {
    var t := Trim(time);
    if |t| > 5 then t[..5] else t
  }

  /** A time is taken without the seconds that may follow it. */
  lemma SecondsAreDropped(time: string, seconds: string)
    requires |time| == 5 && !IsSpace(time[0]) && !IsSpace((time + seconds)[|time + seconds| - 1])
    ensures RequestedTime(time + seconds) == time
  {
    assert (time + seconds)[0] == time[0] && (time + seconds)[..5] == time;
  }

  lemma ClockIsTrimmed(time: string)
    requires ClockTime(time)
    ensures RequestedTime(time[..5]) == time[..5]
  {
    var t := time[..5];
    assert IsDigit(time[..2][0]) && IsDigit(time[3..5][1]);
    assert t[0] == time[..2][0] && t[4] == time[3..5][1];
  }

  /** A schedule that takes place on the given date at the given time, and is a mass if it has to be. */
  ghost predicate Serves(s: Schedule, mustBeMass: bool, isMassTypeName: Option<string> -> bool,
                         date: string, time: string) {
    && Usable(s) && s.time[..5] == time && IsValidScheduleOccurrence(s, date)
    && (RealDate(date) ==> Occurs(s, DayOf(date)))
    && (mustBeMass ==> isMassTypeName(s.celebration))
  }

  lemma AnsweringServes(s: Schedule, mustBeMass: bool, isMassTypeName: Option<string> -> bool,
                        date: string, time: string)
    requires Usable(s)
    ensures Answers(s, mustBeMass, isMassTypeName, date, time) <==> Serves(s, mustBeMass, isMassTypeName, date, time)
  {
    hide ParseIso, RealDate, DayOf, Occurs, IsValidScheduleOccurrence;
    if RealDate(date) { OccurrenceMeaning(s, date); }
  }

  /**
   A listed mass and a request for it, each with its own answer to whether it must be a mass. The date and time lead to a
   schedule that serves them if and only if one does, whatever order the table is read in; one does if the request is
   not stricter than the list.
   */
  lemma ListedMassIsFound(q: Query, f: First, next: int, n: int, i: nat, table: seq<Schedule>, mustBeMass: bool)
    requires FromTable(q) && (n, i) in MassPicks(q, f, next)
    requires (forall s :: s in table ==> Usable(s)) && forall s :: s in q.schedules ==> s in table
    ensures Printable(n) && i < |q.schedules|
    ensures var m := MassOf(q.schedules[i], TextOf(f, n), n);
            var found := FindSchedule(table, mustBeMass, q.isMassTypeName, m.date, RequestedTime(m.time));
            && (found.Some? ==> found.value in table
                                && Serves(found.value, mustBeMass, q.isMassTypeName, m.date, m.time))
            && (found.Some? <==> exists s :: s in table && Serves(s, mustBeMass, q.isMassTypeName, m.date, m.time))
            && ((mustBeMass ==> q.mustBeMass) ==> found.Some?)
  {
    hide IsoDate, ParseIso, FromDay, IsValidScheduleOccurrence, RespectsLeadTime, Trim, Printable, TextOf, Serves;
    hide MassPicks;
    MassPicksHolds(q, f, next);
    var s, text := q.schedules[i], TextOf(f, n);
    ClockIsTrimmed(s.time);
    assert s in q.schedules;
    forall t | t in table
      ensures Answers(t, mustBeMass, q.isMassTypeName, text, s.time[..5])
              <==> Serves(t, mustBeMass, q.isMassTypeName, text, s.time[..5])
    {
      AnsweringServes(t, mustBeMass, q.isMassTypeName, text, s.time[..5]);
    }
    if mustBeMass ==> q.mustBeMass {
      assert Answers(s, mustBeMass, q.isMassTypeName, text, s.time[..5]);
    }
  }

  const CONFESSION := Schedule(Daily, None, None, None, None, "10:00", 60, Some("Confession"))

  predicate NamesMass(name: Option<string>) {
    name == Some("Messe")
  }

  /** A list made without a type, on the first of January 1970. */
  const UNTYPED := Query([CONFESSION], false, NamesMass, 0, 0)

  lemma TenOClock()
    ensures TimeOfDay("10:00") && Clock("10:00") == 600
  {
    var t := "10:00";
    assert t[..2] == "10" && t[3..5] == "00";
    ValueOfTwo('1', '0');
    ValueOfTwo('0', '0');
  }

  /** A call whose loop does not end. */
  lemma EndlessCall()
    ensures FromTable(UNTYPED) && !Terminates(UNTYPED, Some("9999-12-17"), None)
  {
    hide IsoDate, ParseIso, FromDay, Less, Clock, TimeOfDay, Stops, RealDate, WindowEnd, EarliestRequestLocal;
    TenOClock();
    EndlessWindow();
    var f := First("9999-12-17", LAST - 14);
    FirstDay(f);
    DecemberIsReal();
    DateOrder(0, f.day);
    StopsIff(f, WindowEnd(f, None));
    assert EarliestInstant(0, 0) / DAY_MS == 0;
    assert Today(UNTYPED) == IsoDate(0) && f.text == IsoDate(f.day) && IsDay(Some(f.text));
    assert WindowStart(UNTYPED, Some(f.text)) == f.text;
  }

  lemma DecemberIsReal()
    ensures RealDate("9999-12-17")
  {
    var s := "9999-12-17";
    assert s[..4] == "9999" && s[5..7] == "12" && s[8..] == "17";
    ValueOfFour('9', '9', '9', '9');
    ValueOfTwo('1', '2');
    ValueOfTwo('1', '7');
  }

  /** The confession of January 2nd is listed. */
  lemma ConfessionIsListed()
    ensures FromTable(UNTYPED) && Begins(First(IsoDate(0), 0)) && (1, 0) in MassPicks(UNTYPED, First(IsoDate(0), 0), 2)
  {
    hide IsoDate, ParseIso, FromDay, IsValidScheduleOccurrence, RespectsLeadTime, MassPicks, Clock, TimeOfDay, Wanted;
    TenOClock();
    PrintedIsReal(0);
    PrintThenParse(0);
    WantedMeaning(UNTYPED, CONFESSION, 1);
    MassPicksHolds(UNTYPED, First(IsoDate(0), 0), 2);
  }

  /** That listed confession is refused for an intention. */
  lemma ConfessionIsRefused()
    ensures FindSchedule([CONFESSION], true, NamesMass, IsoDate(1), "10:00").None?
  {
    hide IsoDate, IsValidScheduleOccurrence, FindSchedule;
  }
}
