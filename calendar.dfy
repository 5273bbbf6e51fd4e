/**
 * The proleptic Gregorian calendar of java.time, as far as the occurrence
 * calculator uses it: dates, times of day, day arithmetic, month arithmetic
 * with day clamping, the ISO day of week, and the instant a local date-time
 * denotes in a zone with a fixed UTC offset.
 *
 * Dates are numbered by their epoch day (1970-01-01 is day 0), as
 * LocalDate.toEpochDay does; instants are nanoseconds since
 * 1970-01-01T00:00:00Z.
 */
module Calendar {

  const NanosPerSecond: int := 1_000_000_000
  const NanosPerMinute: int := 60_000_000_000
  const NanosPerHour: int := 3_600_000_000_000
  const NanosPerDay: int := 86_400_000_000_000

  /** Nanoseconds since 1970-01-01T00:00:00Z (java.time.Instant). */
  type Instant = int

  // ---------------------------------------------------------------------------
  // Years and months
  // ---------------------------------------------------------------------------

  /** IsoChronology.isLeapYear */
  predicate IsLeap(y: int)
  {
    y % 4 == 0 && (y % 100 != 0 || y % 400 == 0)
  }

  function YearLength(y: int): int
  {
    if IsLeap(y) then 366 else 365
  }

  /** LocalDate.lengthOfMonth */
  function MonthLength(y: int, m: int): (n: int)
    requires 1 <= m <= 12
    ensures 28 <= n <= 31
  {
    if m == 2 then (if IsLeap(y) then 29 else 28)
    else if m == 4 || m == 6 || m == 9 || m == 11 then 30
    else 31
  }

  /** Days of year y that lie before the first of month m. */
  function DaysBeforeMonth(y: int, m: int): int
    requires 1 <= m <= 12
  {
    var table := [0, 31, 59, 90, 120, 151, 181, 212, 243, 273, 304, 334];
    table[m - 1] + (if m > 2 && IsLeap(y) then 1 else 0)
  }

  /** Epoch day of January 1st of year y, counted year by year from 1970. */
  function DaysBeforeYear(y: int): int
    decreases if y >= 1970 then y - 1970 else 1970 - y
  {
    if y == 1970 then 0
    else if y > 1970 then DaysBeforeYear(y - 1) + YearLength(y - 1)
    else DaysBeforeYear(y + 1) - YearLength(y)
  }

  lemma DaysBeforeNextYear(y: int)
    ensures DaysBeforeYear(y + 1) == DaysBeforeYear(y) + YearLength(y)
  {
  }

  /** Epoch day of the first of month m of year y. */
  function MonthStart(y: int, m: int): int
    requires 1 <= m <= 12
  {
    DaysBeforeYear(y) + DaysBeforeMonth(y, m)
  }

  /** Months counted from year 0, as LocalDate.getProlepticMonth does. */
  function MonthIndex(y: int, m: int): int
  {
    y * 12 + m - 1
  }

  lemma MonthStartFollows(y: int, m: int)
    requires 1 <= m <= 12
    ensures m < 12 ==> MonthStart(y, m + 1) == MonthStart(y, m) + MonthLength(y, m)
    ensures m == 12 ==> MonthStart(y + 1, 1) == MonthStart(y, m) + MonthLength(y, m)
  {
    DaysBeforeNextYear(y);
  }

  // ---------------------------------------------------------------------------
  // Dates
  // ---------------------------------------------------------------------------

  datatype Date = Date(year: int, month: int, day: int)

  predicate ValidDate(d: Date)
  {
    1 <= d.month <= 12 && 1 <= d.day <= MonthLength(d.year, d.month)
  }

  /** LocalDate.toEpochDay */
  function EpochDay(d: Date): int
    requires ValidDate(d)
  {
    MonthStart(d.year, d.month) + d.day - 1
  }

  /** Every day of a month lies in [MonthStart, MonthStart + length). */
  lemma EpochDayInMonth(d: Date)
    requires ValidDate(d)
    ensures MonthStart(d.year, d.month) <= EpochDay(d) < MonthStart(d.year, d.month) + MonthLength(d.year, d.month)
  {
  }

  /** The day after d (LocalDate.plusDays(1)). */
  function NextDay(d: Date): (r: Date)
    requires ValidDate(d)
    ensures ValidDate(r) && EpochDay(r) == EpochDay(d) + 1
  {
    MonthStartFollows(d.year, d.month);
    if d.day < MonthLength(d.year, d.month) then Date(d.year, d.month, d.day + 1)
    else if d.month < 12 then Date(d.year, d.month + 1, 1)
    else Date(d.year + 1, 1, 1)
  }

  /** The day before d (LocalDate.minusDays(1)). */
  function PrevDay(d: Date): (r: Date)
    requires ValidDate(d)
    ensures ValidDate(r) && EpochDay(r) == EpochDay(d) - 1
  {
    if d.day > 1 then Date(d.year, d.month, d.day - 1)
    else if d.month > 1 then
      MonthStartFollows(d.year, d.month - 1);
      Date(d.year, d.month - 1, MonthLength(d.year, d.month - 1))
    else
      MonthStartFollows(d.year - 1, 12);
      Date(d.year - 1, 12, 31)
  }

  /** LocalDate.plusDays(n) */
  function PlusDays(d: Date, n: nat): (r: Date)
    requires ValidDate(d)
    ensures ValidDate(r) && EpochDay(r) == EpochDay(d) + n
    decreases n
  {
    if n == 0 then d else PlusDays(NextDay(d), n - 1)
  }

  /** LocalDate.minusDays(n) */
  function MinusDays(d: Date, n: nat): (r: Date)
    requires ValidDate(d)
    ensures ValidDate(r) && EpochDay(r) == EpochDay(d) - n
    decreases n
  {
    if n == 0 then d else MinusDays(PrevDay(d), n - 1)
  }

  /** Valid dates are determined by their epoch day. */
  lemma EpochDayInjective(a: Date, b: Date)
    requires ValidDate(a) && ValidDate(b) && EpochDay(a) == EpochDay(b)
    ensures a == b
  {
    if a.year != b.year || a.month != b.month {
      if MonthIndex(a.year, a.month) < MonthIndex(b.year, b.month) {
        MonthStartMonotone(a.year, a.month, b.year, b.month);
      } else {
        MonthStartMonotone(b.year, b.month, a.year, a.month);
      }
    }
  }

  /** A later month starts after every day of an earlier month. */
  lemma MonthStartMonotone(y1: int, m1: int, y2: int, m2: int)
    requires 1 <= m1 <= 12 && 1 <= m2 <= 12
    requires MonthIndex(y1, m1) < MonthIndex(y2, m2)
    ensures MonthStart(y1, m1) + MonthLength(y1, m1) <= MonthStart(y2, m2)
    decreases MonthIndex(y2, m2) - MonthIndex(y1, m1)
  {
    MonthStartFollows(y1, m1);
    var (ny, nm) := if m1 < 12 then (y1, m1 + 1) else (y1 + 1, 1);
    if MonthIndex(ny, nm) < MonthIndex(y2, m2) {
      MonthStartMonotone(ny, nm, y2, m2);
    } else {
      assert ny == y2 && nm == m2;
    }
  }

  /** LocalDate.getDayOfWeek().getValue(): Monday = 1 ... Sunday = 7; 1970-01-01 was a Thursday. */
  function DayOfWeekValue(d: Date): (r: int)
    requires ValidDate(d)
    ensures 1 <= r <= 7
  {
    (EpochDay(d) + 3) % 7 + 1
  }

  /** LocalDate.withDayOfMonth(k) */
  function WithDayOfMonth(d: Date, k: int): (r: Date)
    requires ValidDate(d) && 1 <= k <= MonthLength(d.year, d.month)
    ensures ValidDate(r) && EpochDay(r) == EpochDay(d) - d.day + k
  {
    Date(d.year, d.month, k)
  }

  function Min(a: int, b: int): int
  {
    if a <= b then a else b
  }

  function Max(a: int, b: int): int
  {
    if a >= b then a else b
  }

  /** LocalDate.plusMonths(n): the same day in the month n months away, clamped to that month's length. */
  function PlusMonths(d: Date, n: int): (r: Date)
    requires ValidDate(d)
    ensures ValidDate(r)
    ensures MonthIndex(r.year, r.month) == MonthIndex(d.year, d.month) + n
    ensures r.day == Min(d.day, MonthLength(r.year, r.month))
  {
    var count := MonthIndex(d.year, d.month) + n;
    var y := count / 12;
    var m := count % 12 + 1;
    Date(y, m, Min(d.day, MonthLength(y, m)))
  }

  // ---------------------------------------------------------------------------
  // Times of day and date-times
  // ---------------------------------------------------------------------------

  datatype Time = Time(hour: int, minute: int, second: int, nano: int)

  predicate ValidTime(t: Time)
  {
    0 <= t.hour < 24 && 0 <= t.minute < 60 && 0 <= t.second < 60 && 0 <= t.nano < NanosPerSecond
  }

  /** LocalTime.toNanoOfDay */
  function NanoOfDay(t: Time): (r: int)
    requires ValidTime(t)
    ensures 0 <= r < NanosPerDay
  {
    t.hour * NanosPerHour + t.minute * NanosPerMinute + t.second * NanosPerSecond + t.nano
  }

  datatype DateTime = DateTime(date: Date, time: Time)

  predicate ValidDateTime(dt: DateTime)
  {
    ValidDate(dt.date) && ValidTime(dt.time)
  }

  /** A local date-time as nanoseconds on the local time line. */
  function LocalNanos(dt: DateTime): int
    requires ValidDateTime(dt)
  {
    EpochDay(dt.date) * NanosPerDay + NanoOfDay(dt.time)
  }

  /** A valid local date-time; the type of what a clock reports. */
  type LocalDateTime = dt: DateTime | ValidDateTime(dt) witness DateTime(Date(1970, 1, 1), Time(0, 0, 0, 0))

  /** A zone with a fixed UTC offset; `id` is its name ("UTC", "Europe/Oslo", ...). */
  datatype Zone = Zone(id: string, offsetSeconds: int)

  /** java.time.ZonedDateTime in a fixed-offset zone. */
  datatype ZonedDateTime = ZonedDateTime(local: DateTime, zone: Zone)

  predicate ValidZoned(z: ZonedDateTime)
  {
    ValidDateTime(z.local)
  }

  /** ZonedDateTime.toInstant */
  function ToInstant(z: ZonedDateTime): Instant
    requires ValidZoned(z)
  {
    LocalNanos(z.local) - z.zone.offsetSeconds * NanosPerSecond
  }

  /** ZonedDateTime.isAfter compares instants. */
  predicate IsAfter(a: ZonedDateTime, b: ZonedDateTime)
    requires ValidZoned(a) && ValidZoned(b)
  {
    ToInstant(a) > ToInstant(b)
  }

  /** Within one zone the instant order is the local order, and it is lexicographic on
      (year, month, day, time). */
  lemma IsAfterSameZone(a: ZonedDateTime, b: ZonedDateTime)
    requires ValidZoned(a) && ValidZoned(b) && a.zone == b.zone
    ensures IsAfter(a, b) <==> LocalNanos(a.local) > LocalNanos(b.local)
    ensures a.local.date == b.local.date ==>
              (IsAfter(a, b) <==> NanoOfDay(a.local.time) > NanoOfDay(b.local.time))
  {
  }
}
