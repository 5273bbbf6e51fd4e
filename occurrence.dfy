/**
 * The occurrence calculator of the automatic wipe scheduler
 * (WorldWipePlugin.calculatePreviousOccurrence / calculateNextOccurrence):
 * given "now" in a schedule's zone, the most recent and the next instant at
 * which a DAILY, WEEKLY or MONTHLY schedule is due.
 */
module Occurrence {
  import opened JavaText
  import opened Calendar

  datatype ScheduleMode = Weekly | Daily | Monthly

  /** java.time.DayOfWeek */
  datatype Weekday = Monday | Tuesday | Wednesday | Thursday | Friday | Saturday | Sunday

  /** ScheduleMode.name() */
  function ModeName(m: ScheduleMode): string
  {
    match m
    case Weekly => "WEEKLY"
    case Daily => "DAILY"
    case Monthly => "MONTHLY"
  }

  /** ScheduleMode.valueOf: the constant whose name is exactly the text, or None where valueOf
      throws. */
  function ModeNamed(name: string): (r: Option<ScheduleMode>)
    ensures r.Some? ==> ModeName(r.value) == name
  {
    if name == "WEEKLY" then Some(Weekly)
    else if name == "DAILY" then Some(Daily)
    else if name == "MONTHLY" then Some(Monthly)
    else None
  }

  /** valueOf finds every constant by its name. */
  lemma ModeNamedName(m: ScheduleMode)
    ensures ModeNamed(ModeName(m)) == Some(m)
  {
  }

  /** DayOfWeek.name() */
  function WeekdayName(d: Weekday): string
  {
    match d
    case Monday => "MONDAY"
    case Tuesday => "TUESDAY"
    case Wednesday => "WEDNESDAY"
    case Thursday => "THURSDAY"
    case Friday => "FRIDAY"
    case Saturday => "SATURDAY"
    case Sunday => "SUNDAY"
  }

  /** DayOfWeek.valueOf: the constant whose name is exactly the text, or None. */
  function WeekdayNamed(name: string): (r: Option<Weekday>)
    ensures r.Some? ==> WeekdayName(r.value) == name
  {
    if name == "MONDAY" then Some(Monday)
    else if name == "TUESDAY" then Some(Tuesday)
    else if name == "WEDNESDAY" then Some(Wednesday)
    else if name == "THURSDAY" then Some(Thursday)
    else if name == "FRIDAY" then Some(Friday)
    else if name == "SATURDAY" then Some(Saturday)
    else if name == "SUNDAY" then Some(Sunday)
    else None
  }

  /** valueOf finds every day by its name. */
  lemma WeekdayNamedName(d: Weekday)
    ensures WeekdayNamed(WeekdayName(d)) == Some(d)
  {
  }

  /** DayOfWeek.of: the day with value 1 (Monday) ... 7 (Sunday). */
  function WeekdayOf(v: int): (d: Weekday)
    requires 1 <= v <= 7
    ensures WeekdayValue(d) == v
  {
    if v == 1 then Monday else if v == 2 then Tuesday else if v == 3 then Wednesday
    else if v == 4 then Thursday else if v == 5 then Friday else if v == 6 then Saturday else Sunday
  }

  /** DayOfWeek.getValue: Monday = 1 ... Sunday = 7. */
  function WeekdayValue(d: Weekday): (v: int)
    ensures 1 <= v <= 7
  {
    match d
    case Monday => 1
    case Tuesday => 2
    case Wednesday => 3
    case Thursday => 4
    case Friday => 5
    case Saturday => 6
    case Sunday => 7
  }

  /** The requested time with seconds and nanos zeroed. */
  function Snapped(time: Time): Time
  {
    Time(time.hour, time.minute, 0, 0)
  }

  /** z.withHour(h).withMinute(m).withSecond(0).withNano(0) */
  function AtTime(z: ZonedDateTime, time: Time): ZonedDateTime
  {
    ZonedDateTime(DateTime(z.local.date, Snapped(time)), z.zone)
  }

  /** The same local time and zone on another date. */
  function OnDate(z: ZonedDateTime, d: Date): ZonedDateTime
  {
    ZonedDateTime(DateTime(d, z.local.time), z.zone)
  }

  /** Math.max(1, Math.min(31, dayOfMonth)) */
  function TargetDay(dayOfMonth: int): (k: int)
    ensures 1 <= k <= 31
  {
    Max(1, Min(31, dayOfMonth))
  }

  /** The target day clamped to the length of the month holding d. */
  function ResolvedDay(d: Date, dayOfMonth: int): (k: int)
    requires ValidDate(d)
    ensures 1 <= k <= MonthLength(d.year, d.month)
  {
    Min(TargetDay(dayOfMonth), MonthLength(d.year, d.month))
  }

  /** DAILY: today at the requested time, or yesterday if that is still ahead. */
  function PreviousDaily(now: ZonedDateTime, time: Time): (r: ZonedDateTime)
    requires ValidZoned(now) && ValidTime(time)
    ensures ValidZoned(r) && r.zone == now.zone && r.local.time == Snapped(time)
  {
    var candidate := AtTime(now, time);
    if IsAfter(candidate, now) then OnDate(candidate, MinusDays(candidate.local.date, 1)) else candidate
  }

  /** MONTHLY: the resolved day of this month at the requested time, or of the month before
      if that is still ahead. */
  function PreviousMonthly(now: ZonedDateTime, dayOfMonth: int, time: Time): (r: ZonedDateTime)
    requires ValidZoned(now) && ValidTime(time)
    ensures ValidZoned(r) && r.zone == now.zone && r.local.time == Snapped(time)
    ensures r.local.date.day == ResolvedDay(r.local.date, dayOfMonth)
    ensures var i := MonthIndex(r.local.date.year, r.local.date.month);
            var n := MonthIndex(now.local.date.year, now.local.date.month);
            i == n || i == n - 1
  {
    var date := now.local.date;
    var candidate := AtTime(OnDate(now, WithDayOfMonth(date, ResolvedDay(date, dayOfMonth))), time);
    if IsAfter(candidate, now) then
      var prevMonth := PlusMonths(date, -1);
      AtTime(OnDate(now, WithDayOfMonth(prevMonth, ResolvedDay(prevMonth, dayOfMonth))), time)
    else candidate
  }

  /** WEEKLY: back to the requested weekday at the requested time, a week further back if
      that is still ahead. */
  function PreviousWeekly(now: ZonedDateTime, day: Weekday, time: Time): (r: ZonedDateTime)
    requires ValidZoned(now) && ValidTime(time)
    ensures ValidZoned(r) && r.zone == now.zone && r.local.time == Snapped(time)
  {
    var shifted := OnOrBeforeWeekday(now, day, time);
    if IsAfter(shifted, now) then OnDate(shifted, MinusDays(shifted.local.date, 7)) else shifted
  }

  /** Back from today to the requested weekday (today itself when it is that weekday), at the
      requested time. */
  function OnOrBeforeWeekday(now: ZonedDateTime, day: Weekday, time: Time): (r: ZonedDateTime)
    requires ValidZoned(now) && ValidTime(time)
    ensures ValidZoned(r) && r.zone == now.zone && r.local.time == Snapped(time)
    ensures DayOfWeekValue(r.local.date) == WeekdayValue(day)
    ensures EpochDay(now.local.date) - 6 <= EpochDay(r.local.date) <= EpochDay(now.local.date)
  {
    var candidate := AtTime(now, time);
    var delta := DayOfWeekValue(candidate.local.date) - WeekdayValue(day);
    var back := if delta < 0 then delta + 7 else delta;
    MinusDaysToWeekday(candidate.local.date, back, WeekdayValue(day));
    OnDate(candidate, MinusDays(candidate.local.date, back))
  }

  function CalculatePreviousOccurrence(now: ZonedDateTime, mode: ScheduleMode, day: Weekday,
                                       dayOfMonth: int, time: Time): (r: ZonedDateTime)
    requires ValidZoned(now) && ValidTime(time)
  {
    match mode
    case Daily => PreviousDaily(now, time)
    case Monthly => PreviousMonthly(now, dayOfMonth, time)
    case Weekly => PreviousWeekly(now, day, time)
  }

  /** DAILY: today at the requested time, or tomorrow if that has passed. */
  function NextDaily(now: ZonedDateTime, time: Time): (r: ZonedDateTime)
    requires ValidZoned(now) && ValidTime(time)
    ensures ValidZoned(r) && r.zone == now.zone && r.local.time == Snapped(time)
  {
    var candidate := AtTime(now, time);
    if !IsAfter(candidate, now) then OnDate(candidate, PlusDays(candidate.local.date, 1)) else candidate
  }

  /** MONTHLY: the resolved day of this month at the requested time, or of the next month
      if that has passed. */
  function NextMonthly(now: ZonedDateTime, dayOfMonth: int, time: Time): (r: ZonedDateTime)
    requires ValidZoned(now) && ValidTime(time)
    ensures ValidZoned(r) && r.zone == now.zone && r.local.time == Snapped(time)
    ensures r.local.date.day == ResolvedDay(r.local.date, dayOfMonth)
    ensures var i := MonthIndex(r.local.date.year, r.local.date.month);
            var n := MonthIndex(now.local.date.year, now.local.date.month);
            i == n || i == n + 1
  {
    var date := now.local.date;
    var candidate := AtTime(OnDate(now, WithDayOfMonth(date, ResolvedDay(date, dayOfMonth))), time);
    if !IsAfter(candidate, now) then
      var nextMonth := PlusMonths(date, 1);
      AtTime(OnDate(now, WithDayOfMonth(nextMonth, ResolvedDay(nextMonth, dayOfMonth))), time)
    else candidate
  }

  /** WEEKLY: ahead to the requested weekday at the requested time, a week further if that
      has passed. */
  function NextWeekly(now: ZonedDateTime, day: Weekday, time: Time): (r: ZonedDateTime)
    requires ValidZoned(now) && ValidTime(time)
    ensures ValidZoned(r) && r.zone == now.zone && r.local.time == Snapped(time)
  {
    var candidate := AtTime(now, time);
    var delta := WeekdayValue(day) - DayOfWeekValue(candidate.local.date);
    var ahead := if delta < 0 then delta + 7 else delta;
    var shifted := OnDate(candidate, PlusDays(candidate.local.date, ahead));
    if !IsAfter(shifted, now) then OnDate(shifted, PlusDays(shifted.local.date, 7)) else shifted
  }

  function CalculateNextOccurrence(now: ZonedDateTime, mode: ScheduleMode, day: Weekday,
                                   dayOfMonth: int, time: Time): (r: ZonedDateTime)
    requires ValidZoned(now) && ValidTime(time)
  {
    match mode
    case Daily => NextDaily(now, time)
    case Monthly => NextMonthly(now, dayOfMonth, time)
    case Weekly => NextWeekly(now, day, time)
  }

  // ---------------------------------------------------------------------------
  // What an occurrence is, and the two calculators' defining properties
  // ---------------------------------------------------------------------------

  /** z is a moment at which the schedule is due: the snapped time of day, on the requested
      weekday (WEEKLY) or on the target day clamped to the month's length (MONTHLY). */
  predicate IsOccurrence(z: ZonedDateTime, mode: ScheduleMode, day: Weekday, dayOfMonth: int, time: Time)
    requires ValidZoned(z)
  {
    z.local.time == Snapped(time) &&
    match mode
    case Daily => true
    case Weekly => DayOfWeekValue(z.local.date) == WeekdayValue(day)
    case Monthly => z.local.date.day == ResolvedDay(z.local.date, dayOfMonth)
  }

  /** In one zone a later epoch day is a later instant, whatever the two times of day. */
  lemma EarlierDayEarlierInstant(a: ZonedDateTime, b: ZonedDateTime)
    requires ValidZoned(a) && ValidZoned(b) && a.zone == b.zone
    requires EpochDay(a.local.date) < EpochDay(b.local.date)
    ensures ToInstant(a) < ToInstant(b)
  {
  }

  /** In one zone and at one time of day, instants differ by whole days. */
  lemma SameTimeInstants(a: ZonedDateTime, b: ZonedDateTime)
    requires ValidZoned(a) && ValidZoned(b) && a.zone == b.zone && a.local.time == b.local.time
    ensures ToInstant(a) - ToInstant(b) == (EpochDay(a.local.date) - EpochDay(b.local.date)) * NanosPerDay
  {
  }

  /** Going ahead (v - w) mod 7 days from weekday w reaches weekday v. */
  lemma WeekdayAhead(e: int, k: int, v: int)
    requires 1 <= v <= 7
    requires k == (if v - ((e + 3) % 7 + 1) < 0 then v - ((e + 3) % 7 + 1) + 7 else v - ((e + 3) % 7 + 1))
    ensures (e + k + 3) % 7 + 1 == v
  {
    var q := (e + 3) / 7;
    assert e + 3 == 7 * q + (e + 3) % 7;
  }

  /** Going back (w - v) mod 7 days from weekday w reaches weekday v. */
  lemma WeekdayBack(e: int, k: int, v: int)
    requires 1 <= v <= 7
    requires k == (if ((e + 3) % 7 + 1) - v < 0 then ((e + 3) % 7 + 1) - v + 7 else ((e + 3) % 7 + 1) - v)
    ensures (e - k + 3) % 7 + 1 == v
  {
    var q := (e + 3) / 7;
    assert e + 3 == 7 * q + (e + 3) % 7;
  }

  /** Epoch days a week apart have the same weekday. */
  lemma WeekdayPeriodic(e: int, f: int)
    requires f == e + 7 || f == e - 7
    ensures (f + 3) % 7 == (e + 3) % 7
  {
    var q := (e + 3) / 7;
    assert e + 3 == 7 * q + (e + 3) % 7;
  }

  lemma PlusDaysToWeekday(d: Date, k: nat, v: int)
    requires ValidDate(d) && 1 <= v <= 7
    requires k == (if v - DayOfWeekValue(d) < 0 then v - DayOfWeekValue(d) + 7 else v - DayOfWeekValue(d))
    ensures DayOfWeekValue(PlusDays(d, k)) == v
  {
    WeekdayAhead(EpochDay(d), k, v);
  }

  lemma MinusDaysToWeekday(d: Date, k: nat, v: int)
    requires ValidDate(d) && 1 <= v <= 7
    requires k == (if DayOfWeekValue(d) - v < 0 then DayOfWeekValue(d) - v + 7 else DayOfWeekValue(d) - v)
    ensures DayOfWeekValue(MinusDays(d, k)) == v
  {
    WeekdayBack(EpochDay(d), k, v);
  }

  lemma WeekAheadKeepsWeekday(d: Date)
    requires ValidDate(d)
    ensures DayOfWeekValue(PlusDays(d, 7)) == DayOfWeekValue(d)
  {
    WeekdayPeriodic(EpochDay(d), EpochDay(PlusDays(d, 7)));
  }

  lemma WeekBackKeepsWeekday(d: Date)
    requires ValidDate(d)
    ensures DayOfWeekValue(MinusDays(d, 7)) == DayOfWeekValue(d)
  {
    WeekdayPeriodic(EpochDay(d), EpochDay(MinusDays(d, 7)));
  }

  /** Two distinct days with the same weekday are at least a week apart. */
  lemma SameWeekdayGap(a: int, b: int)
    requires (a + 3) % 7 == (b + 3) % 7 && a < b
    ensures b - a >= 7
  {
    var qa := (a + 3) / 7;
    var qb := (b + 3) / 7;
    assert b - a == 7 * (qb - qa);
  }

  /** A day of an earlier month is an earlier day. */
  lemma EarlierMonthEarlierDay(a: Date, b: Date)
    requires ValidDate(a) && ValidDate(b) && MonthIndex(a.year, a.month) < MonthIndex(b.year, b.month)
    ensures EpochDay(a) < EpochDay(b)
  {
    MonthStartMonotone(a.year, a.month, b.year, b.month);
  }

  /** On a MONTHLY schedule there is one occurrence date per month. */
  lemma MonthlyDateUnique(a: Date, b: Date, dayOfMonth: int)
    requires ValidDate(a) && ValidDate(b) && MonthIndex(a.year, a.month) == MonthIndex(b.year, b.month)
    requires a.day == ResolvedDay(a, dayOfMonth) && b.day == ResolvedDay(b, dayOfMonth)
    ensures a == b
  {
    assert a.year == b.year;
  }

  // DAILY

  lemma NextDailyIsAfterNow(now: ZonedDateTime, time: Time)
    requires ValidZoned(now) && ValidTime(time)
    ensures IsAfter(NextDaily(now, time), now)
  {
    var next := NextDaily(now, time);
    if !IsAfter(AtTime(now, time), now) {
      EarlierDayEarlierInstant(now, next);
    }
  }

  lemma NextDailyIsEarliest(now: ZonedDateTime, time: Time, o: ZonedDateTime)
    requires ValidZoned(now) && ValidTime(time) && ValidZoned(o) && o.zone == now.zone
    requires o.local.time == Snapped(time) && IsAfter(o, now)
    ensures !IsAfter(NextDaily(now, time), o)
  {
    var next := NextDaily(now, time);
    var eo, enow := EpochDay(o.local.date), EpochDay(now.local.date);
    if IsAfter(next, o) {
      SameTimeInstants(next, o);
      if eo < enow {
        EarlierDayEarlierInstant(o, now);
      } else if eo == enow {
        SameTimeInstants(o, AtTime(now, time));
      }
      assert false;
    }
  }

  lemma PreviousDailyIsNotAfterNow(now: ZonedDateTime, time: Time)
    requires ValidZoned(now) && ValidTime(time)
    ensures !IsAfter(PreviousDaily(now, time), now)
  {
    var prev := PreviousDaily(now, time);
    if IsAfter(AtTime(now, time), now) {
      EarlierDayEarlierInstant(prev, now);
    }
  }

  lemma PreviousDailyIsLatest(now: ZonedDateTime, time: Time, o: ZonedDateTime)
    requires ValidZoned(now) && ValidTime(time) && ValidZoned(o) && o.zone == now.zone
    requires o.local.time == Snapped(time) && !IsAfter(o, now)
    ensures !IsAfter(o, PreviousDaily(now, time))
  {
    var prev := PreviousDaily(now, time);
    var eo, enow := EpochDay(o.local.date), EpochDay(now.local.date);
    if IsAfter(o, prev) {
      SameTimeInstants(o, prev);
      if eo > enow {
        EarlierDayEarlierInstant(now, o);
      } else if eo == enow {
        SameTimeInstants(o, AtTime(now, time));
      }
      assert false;
    }
  }

  /** A DAILY schedule is due at most a day ahead and was due less than a day ago. */
  lemma DailyWindow(now: ZonedDateTime, time: Time)
    requires ValidZoned(now) && ValidTime(time)
    ensures ToInstant(NextDaily(now, time)) <= ToInstant(now) + NanosPerDay
    ensures ToInstant(now) - NanosPerDay < ToInstant(PreviousDaily(now, time))
  {
    var candidate := AtTime(now, time);
    SameTimeInstants(NextDaily(now, time), candidate);
    SameTimeInstants(PreviousDaily(now, time), candidate);
  }

  // WEEKLY

  lemma NextWeeklyIsAfterNow(now: ZonedDateTime, day: Weekday, time: Time)
    requires ValidZoned(now) && ValidTime(time)
    ensures var next := NextWeekly(now, day, time);
            DayOfWeekValue(next.local.date) == WeekdayValue(day) && IsAfter(next, now)
  {
    var next := NextWeekly(now, day, time);
    var candidate := AtTime(now, time);
    var delta := WeekdayValue(day) - DayOfWeekValue(candidate.local.date);
    var ahead := if delta < 0 then delta + 7 else delta;
    var shifted := OnDate(candidate, PlusDays(candidate.local.date, ahead));
    PlusDaysToWeekday(candidate.local.date, ahead, WeekdayValue(day));
    if !IsAfter(shifted, now) {
      assert next == OnDate(shifted, PlusDays(shifted.local.date, 7));
      WeekAheadKeepsWeekday(shifted.local.date);
      EarlierDayEarlierInstant(now, next);
    } else {
      assert next == shifted;
    }
  }

  /** The next WEEKLY occurrence is within a week of today, and a whole week ahead only when
      today's slot has passed. */
  lemma NextWeeklyWithinWeek(now: ZonedDateTime, day: Weekday, time: Time)
    requires ValidZoned(now) && ValidTime(time)
    ensures var e, n := EpochDay(now.local.date), EpochDay(NextWeekly(now, day, time).local.date);
            e <= n <= e + 7 && (n == e + 7 ==> !IsAfter(AtTime(now, time), now))
  {
  }

  lemma NextWeeklyIsEarliest(now: ZonedDateTime, day: Weekday, time: Time, o: ZonedDateTime)
    requires ValidZoned(now) && ValidTime(time) && ValidZoned(o) && o.zone == now.zone
    requires o.local.time == Snapped(time) && DayOfWeekValue(o.local.date) == WeekdayValue(day)
    requires IsAfter(o, now)
    ensures !IsAfter(NextWeekly(now, day, time), o)
  {
    NextWeeklyIsAfterNow(now, day, time);
    NextWeeklyWithinWeek(now, day, time);
    WithinWeekIsEarliest(now, time, NextWeekly(now, day, time), o);
  }

  /** A slot on o's weekday, after now, within a week of today, and a whole week ahead only when
      today's slot has passed, is not after any later slot o on that weekday. */
  lemma WithinWeekIsEarliest(now: ZonedDateTime, time: Time, next: ZonedDateTime, o: ZonedDateTime)
    requires ValidZoned(now) && ValidTime(time) && ValidZoned(o) && o.zone == now.zone
    requires ValidZoned(next) && next.zone == now.zone
    requires o.local.time == Snapped(time) && next.local.time == Snapped(time)
    requires DayOfWeekValue(o.local.date) == DayOfWeekValue(next.local.date)
    requires IsAfter(o, now) && IsAfter(next, now)
    requires var e, n := EpochDay(now.local.date), EpochDay(next.local.date);
             e <= n <= e + 7 && (n == e + 7 ==> !IsAfter(AtTime(now, time), now))
    ensures !IsAfter(next, o)
  {
    var eo, en, enow := EpochDay(o.local.date), EpochDay(next.local.date), EpochDay(now.local.date);
    if IsAfter(next, o) {
      SameTimeInstants(next, o);
      SameWeekdayGap(eo, en);
      if eo < enow {
        EarlierDayEarlierInstant(o, now);
      } else {
        SameTimeInstants(o, AtTime(now, time));
      }
      assert false;
    }
  }

  lemma PreviousWeeklyIsNotAfterNow(now: ZonedDateTime, day: Weekday, time: Time)
    requires ValidZoned(now) && ValidTime(time)
    ensures var prev := PreviousWeekly(now, day, time);
            DayOfWeekValue(prev.local.date) == WeekdayValue(day) && !IsAfter(prev, now)
  {
    var shifted := OnOrBeforeWeekday(now, day, time);
    if IsAfter(shifted, now) {
      var prev := PreviousWeekly(now, day, time);
      WeekBackKeepsWeekday(shifted.local.date);
      EarlierDayEarlierInstant(prev, now);
    }
  }

  /** The previous WEEKLY occurrence is within a week before today, and a whole week back only
      when today's slot is still ahead. */
  lemma PreviousWeeklyWithinWeek(now: ZonedDateTime, day: Weekday, time: Time)
    requires ValidZoned(now) && ValidTime(time)
    ensures var e, p := EpochDay(now.local.date), EpochDay(PreviousWeekly(now, day, time).local.date);
            e - 7 <= p <= e && (p == e - 7 ==> IsAfter(AtTime(now, time), now))
  {
    var shifted := OnOrBeforeWeekday(now, day, time);
    if IsAfter(shifted, now) {
      if EpochDay(shifted.local.date) < EpochDay(now.local.date) {
        EarlierDayEarlierInstant(shifted, now);
      }
      SameTimeInstants(shifted, AtTime(now, time));
    }
  }

  /** A WEEKLY occurrence after the previous one is at least a week after it. */
  lemma AfterPreviousWeeklyIsAWeekLater(now: ZonedDateTime, day: Weekday, time: Time, o: ZonedDateTime)
    requires ValidZoned(now) && ValidTime(time) && ValidZoned(o) && o.zone == now.zone
    requires o.local.time == Snapped(time) && DayOfWeekValue(o.local.date) == WeekdayValue(day)
    requires IsAfter(o, PreviousWeekly(now, day, time))
    ensures EpochDay(o.local.date) >= EpochDay(PreviousWeekly(now, day, time).local.date) + 7
  {
    PreviousWeeklyIsNotAfterNow(now, day, time);
    SameSlotLaterIsAWeekLater(PreviousWeekly(now, day, time), o);
  }

  /** Of two slots at the same time of day on the same weekday, the later is at least a week
      later. */
  lemma SameSlotLaterIsAWeekLater(a: ZonedDateTime, b: ZonedDateTime)
    requires ValidZoned(a) && ValidZoned(b) && a.zone == b.zone && a.local.time == b.local.time
    requires DayOfWeekValue(a.local.date) == DayOfWeekValue(b.local.date) && IsAfter(b, a)
    ensures EpochDay(b.local.date) >= EpochDay(a.local.date) + 7
  {
    SameTimeInstants(b, a);
    SameWeekdayGap(EpochDay(a.local.date), EpochDay(b.local.date));
  }

  lemma PreviousWeeklyIsLatest(now: ZonedDateTime, day: Weekday, time: Time, o: ZonedDateTime)
    requires ValidZoned(now) && ValidTime(time) && ValidZoned(o) && o.zone == now.zone
    requires o.local.time == Snapped(time) && DayOfWeekValue(o.local.date) == WeekdayValue(day)
    requires !IsAfter(o, now)
    ensures !IsAfter(o, PreviousWeekly(now, day, time))
  {
    var prev := PreviousWeekly(now, day, time);
    var eo, enow := EpochDay(o.local.date), EpochDay(now.local.date);
    if IsAfter(o, prev) {
      AfterPreviousWeeklyIsAWeekLater(now, day, time, o);
      PreviousWeeklyWithinWeek(now, day, time);
      if eo > enow {
        EarlierDayEarlierInstant(now, o);
      } else {
        SameTimeInstants(o, AtTime(now, time));
      }
      assert false;
    }
  }

  /** A WEEKLY schedule is due at most a week ahead and was due less than a week ago. */
  lemma WeeklyWindow(now: ZonedDateTime, day: Weekday, time: Time)
    requires ValidZoned(now) && ValidTime(time)
    ensures ToInstant(NextWeekly(now, day, time)) <= ToInstant(now) + 7 * NanosPerDay
    ensures ToInstant(now) - 7 * NanosPerDay < ToInstant(PreviousWeekly(now, day, time))
  {
    var candidate := AtTime(now, time);
    NextWeeklyWithinWeek(now, day, time);
    SameTimeInstants(NextWeekly(now, day, time), candidate);
    PreviousWeeklyWithinWeek(now, day, time);
    SameTimeInstants(PreviousWeekly(now, day, time), candidate);
  }

  // MONTHLY

  lemma NextMonthlyIsAfterNow(now: ZonedDateTime, dayOfMonth: int, time: Time)
    requires ValidZoned(now) && ValidTime(time)
    ensures IsAfter(NextMonthly(now, dayOfMonth, time), now)
  {
    var date := now.local.date;
    var next := NextMonthly(now, dayOfMonth, time);
    var candidate := AtTime(OnDate(now, WithDayOfMonth(date, ResolvedDay(date, dayOfMonth))), time);
    if !IsAfter(candidate, now) {
      EarlierMonthEarlierDay(date, next.local.date);
      EarlierDayEarlierInstant(now, next);
    }
  }

  lemma NextMonthlyIsEarliest(now: ZonedDateTime, dayOfMonth: int, time: Time, o: ZonedDateTime)
    requires ValidZoned(now) && ValidTime(time) && ValidZoned(o) && o.zone == now.zone
    requires o.local.time == Snapped(time) && o.local.date.day == ResolvedDay(o.local.date, dayOfMonth)
    requires IsAfter(o, now)
    ensures !IsAfter(NextMonthly(now, dayOfMonth, time), o)
  {
    var next := NextMonthly(now, dayOfMonth, time);
    if IsAfter(next, o) {
      var date, od, nd := now.local.date, o.local.date, next.local.date;
      var candidate := AtTime(OnDate(now, WithDayOfMonth(date, ResolvedDay(date, dayOfMonth))), time);
      var io, inext, inow := MonthIndex(od.year, od.month), MonthIndex(nd.year, nd.month), MonthIndex(date.year, date.month);
      if io > inext {
        EarlierMonthEarlierDay(nd, od);
        EarlierDayEarlierInstant(next, o);
      } else if io == inext {
        MonthlyDateUnique(od, nd, dayOfMonth);
        SameTimeInstants(next, o);
      } else if io < inow {
        EarlierMonthEarlierDay(od, date);
        EarlierDayEarlierInstant(o, now);
      } else {
        MonthlyDateUnique(od, candidate.local.date, dayOfMonth);
        SameTimeInstants(o, candidate);
      }
      assert false;
    }
  }

  lemma PreviousMonthlyIsNotAfterNow(now: ZonedDateTime, dayOfMonth: int, time: Time)
    requires ValidZoned(now) && ValidTime(time)
    ensures !IsAfter(PreviousMonthly(now, dayOfMonth, time), now)
  {
    var date := now.local.date;
    var prev := PreviousMonthly(now, dayOfMonth, time);
    var candidate := AtTime(OnDate(now, WithDayOfMonth(date, ResolvedDay(date, dayOfMonth))), time);
    if IsAfter(candidate, now) {
      EarlierMonthEarlierDay(prev.local.date, date);
      EarlierDayEarlierInstant(prev, now);
    }
  }

  lemma PreviousMonthlyIsLatest(now: ZonedDateTime, dayOfMonth: int, time: Time, o: ZonedDateTime)
    requires ValidZoned(now) && ValidTime(time) && ValidZoned(o) && o.zone == now.zone
    requires o.local.time == Snapped(time) && o.local.date.day == ResolvedDay(o.local.date, dayOfMonth)
    requires !IsAfter(o, now)
    ensures !IsAfter(o, PreviousMonthly(now, dayOfMonth, time))
  {
    var prev := PreviousMonthly(now, dayOfMonth, time);
    if IsAfter(o, prev) {
      var date, od, pd := now.local.date, o.local.date, prev.local.date;
      var candidate := AtTime(OnDate(now, WithDayOfMonth(date, ResolvedDay(date, dayOfMonth))), time);
      var io, iprev, inow := MonthIndex(od.year, od.month), MonthIndex(pd.year, pd.month), MonthIndex(date.year, date.month);
      if io < iprev {
        EarlierMonthEarlierDay(od, pd);
        EarlierDayEarlierInstant(o, prev);
      } else if io == iprev {
        MonthlyDateUnique(od, pd, dayOfMonth);
        SameTimeInstants(o, prev);
      } else if io > inow {
        EarlierMonthEarlierDay(date, od);
        EarlierDayEarlierInstant(now, o);
      } else {
        MonthlyDateUnique(od, candidate.local.date, dayOfMonth);
        SameTimeInstants(o, candidate);
      }
      assert false;
    }
  }

  // ---------------------------------------------------------------------------
  // The calculators over all three modes
  // ---------------------------------------------------------------------------

  /** The next occurrence is an occurrence of the schedule, strictly after now. */
  lemma NextOccurrenceIsAfterNow(now: ZonedDateTime, mode: ScheduleMode, day: Weekday, dayOfMonth: int, time: Time)
    requires ValidZoned(now) && ValidTime(time)
    ensures var next := CalculateNextOccurrence(now, mode, day, dayOfMonth, time);
            ValidZoned(next) && next.zone == now.zone &&
            IsOccurrence(next, mode, day, dayOfMonth, time) && IsAfter(next, now)
  {
    match mode
    case Daily => NextDailyIsAfterNow(now, time);
    case Weekly => NextWeeklyIsAfterNow(now, day, time);
    case Monthly => NextMonthlyIsAfterNow(now, dayOfMonth, time);
  }

  /** No occurrence of the schedule lies strictly between now and the next occurrence. */
  lemma NextOccurrenceIsEarliest(now: ZonedDateTime, mode: ScheduleMode, day: Weekday, dayOfMonth: int,
                                 time: Time, o: ZonedDateTime)
    requires ValidZoned(now) && ValidTime(time) && ValidZoned(o) && o.zone == now.zone
    requires IsOccurrence(o, mode, day, dayOfMonth, time) && IsAfter(o, now)
    ensures !IsAfter(CalculateNextOccurrence(now, mode, day, dayOfMonth, time), o)
  {
    match mode
    case Daily => NextDailyIsEarliest(now, time, o);
    case Weekly => NextWeeklyIsEarliest(now, day, time, o);
    case Monthly => NextMonthlyIsEarliest(now, dayOfMonth, time, o);
  }

  /** The previous occurrence is an occurrence of the schedule, at or before now. */
  lemma PreviousOccurrenceIsNotAfterNow(now: ZonedDateTime, mode: ScheduleMode, day: Weekday, dayOfMonth: int, time: Time)
    requires ValidZoned(now) && ValidTime(time)
    ensures var prev := CalculatePreviousOccurrence(now, mode, day, dayOfMonth, time);
            ValidZoned(prev) && prev.zone == now.zone &&
            IsOccurrence(prev, mode, day, dayOfMonth, time) && !IsAfter(prev, now)
  {
    match mode
    case Daily => PreviousDailyIsNotAfterNow(now, time);
    case Weekly => PreviousWeeklyIsNotAfterNow(now, day, time);
    case Monthly => PreviousMonthlyIsNotAfterNow(now, dayOfMonth, time);
  }

  /** No occurrence of the schedule at or before now lies after the previous occurrence. */
  lemma PreviousOccurrenceIsLatest(now: ZonedDateTime, mode: ScheduleMode, day: Weekday, dayOfMonth: int,
                                   time: Time, o: ZonedDateTime)
    requires ValidZoned(now) && ValidTime(time) && ValidZoned(o) && o.zone == now.zone
    requires IsOccurrence(o, mode, day, dayOfMonth, time) && !IsAfter(o, now)
    ensures !IsAfter(o, CalculatePreviousOccurrence(now, mode, day, dayOfMonth, time))
  {
    match mode
    case Daily => PreviousDailyIsLatest(now, time, o);
    case Weekly => PreviousWeeklyIsLatest(now, day, time, o);
    case Monthly => PreviousMonthlyIsLatest(now, dayOfMonth, time, o);
  }

  /** On a Wednesday at 10:00, the default schedule (WEEKLY, Monday 06:00) was last due two
      days earlier and is next due five days later. */
  lemma WeeklyFromWednesdayExample(now: ZonedDateTime)
    requires ValidZoned(now) && DayOfWeekValue(now.local.date) == 3 && now.local.time == Time(10, 0, 0, 0)
    ensures var six := Time(6, 0, 0, 0);
            var prev := CalculatePreviousOccurrence(now, Weekly, Monday, 1, six);
            var next := CalculateNextOccurrence(now, Weekly, Monday, 1, six);
            prev.local.time == six && EpochDay(prev.local.date) == EpochDay(now.local.date) - 2 &&
            next.local.time == six && EpochDay(next.local.date) == EpochDay(now.local.date) + 5
  {
    var six := Time(6, 0, 0, 0);
    var candidate := AtTime(now, six);
    assert !IsAfter(OnDate(candidate, MinusDays(now.local.date, 2)), now);
    assert IsAfter(OnDate(candidate, PlusDays(now.local.date, 5)), now);
  }

  /** MONTHLY on day 31 in February 1970 (28 days): the occurrence is clamped to the 28th, and
      the previous one is January 31st. */
  lemma MonthlyClampExample()
    ensures var now := ZonedDateTime(DateTime(Date(1970, 2, 10), Time(10, 0, 0, 0)), Zone("UTC", 0));
            var six := Time(6, 0, 0, 0);
            CalculatePreviousOccurrence(now, Monthly, Monday, 31, six).local == DateTime(Date(1970, 1, 31), six) &&
            CalculateNextOccurrence(now, Monthly, Monday, 31, six).local == DateTime(Date(1970, 2, 28), six)
  {
  }
}
