/**
 * Relative-date bucketing of the message list's right-hand column
 * (app/dateBuckets.ts).
 *
 * Instants are integers (milliseconds since the epoch). The time-zone
 * library is a `Zone`: the start of the zone's calendar day holding an
 * instant, the start of the day a number of calendar days before a day
 * start, and the zone's calendar year of an instant. `ValidZone` states the
 * few calendar laws the bucketing relies on.
 */
module DateBuckets {
  datatype Bucket = Today | Yesterday | Weekday | ThisYear | Older

  datatype Zone = Zone(dayStart: int -> int, daysBefore: (int, nat) -> int, yearOf: int -> int)

  /** A day start is the first instant of its own calendar day. */
  predicate IsDayStart(z: Zone, s: int) {
    z.dayStart(s) == s
  }

  ghost predicate ValidZone(z: Zone) {
    // A day starts no later than any instant in it, and at a day start;
    // a later instant is not on an earlier day.
    && (forall t :: z.dayStart(t) <= t)
    && (forall t :: IsDayStart(z, z.dayStart(t)))
    && (forall a, b :: a <= b ==> z.dayStart(a) <= z.dayStart(b))
    // Going back n calendar days from a day start lands on an earlier day start,
    // and the further back, the earlier.
    && (forall s :: IsDayStart(z, s) ==> z.daysBefore(s, 0) == s)
    && (forall s, n :: IsDayStart(z, s) ==> IsDayStart(z, z.daysBefore(s, n)))
    && (forall s, m, n :: IsDayStart(z, s) && m < n ==> z.daysBefore(s, n) < z.daysBefore(s, m))
  }

  /** The length of a day in a zone without daylight saving: 24 hours in milliseconds. */
  const DayMillis: int := 86_400_000

  /** A fixed-offset zone (UTC): days are 24 hours long and start at multiples of DayMillis. */
  function Utc(yearOf: int -> int): Zone {
    Zone(t => t - t % DayMillis, (s, n) => s - n * DayMillis, yearOf)
  }

  lemma UtcDayStart(t: int)
    ensures var s := t - t % DayMillis; s <= t && s % DayMillis == 0 && s == (t / DayMillis) * DayMillis
  {
  }

  lemma UtcMonotone(a: int, b: int)
    requires a <= b
    ensures a - a % DayMillis <= b - b % DayMillis
  {
    UtcDayStart(a);
    UtcDayStart(b);
    assert a / DayMillis <= b / DayMillis;
  }

  lemma UtcBack(s: int, n: nat)
    requires s % DayMillis == 0
    ensures (s - n * DayMillis) % DayMillis == 0
  {
    assert s - n * DayMillis == (s / DayMillis - n) * DayMillis;
  }

  /** The calendar laws are satisfiable: UTC meets them. */
  lemma UtcValid(yearOf: int -> int)
    ensures ValidZone(Utc(yearOf))
  {
    var z := Utc(yearOf);
    forall t ensures z.dayStart(t) <= t && IsDayStart(z, z.dayStart(t)) {
      UtcDayStart(t);
      UtcDayStart(z.dayStart(t));
    }
    forall a, b | a <= b ensures z.dayStart(a) <= z.dayStart(b) {
      UtcMonotone(a, b);
    }
    forall s, n: nat | IsDayStart(z, s) ensures IsDayStart(z, z.daysBefore(s, n)) {
      UtcDayStart(s);
      UtcBack(s, n);
      UtcDayStart(s - n * DayMillis);
    }
  }

  /** The same calendar day of the zone (dayjs isSame with unit 'day'). */
  predicate SameDay(z: Zone, a: int, b: int) {
    z.dayStart(a) == z.dayStart(b)
  }

  /**
   * getDateBucket: today, yesterday, the five days before that (after the
   * start of the day seven days back), this year, or older, checked in that
   * order; `now` is the reference instant.
   */
  function DateBucket(z: Zone, d: int, now: int): Bucket {
    var startToday := z.dayStart(now);
    var startYesterday := z.daysBefore(startToday, 1);
    var startLastWeek := z.daysBefore(startToday, 7);
    if SameDay(z, d, startToday) then Today
    else if SameDay(z, d, startYesterday) then Yesterday
    else if startLastWeek < d < startYesterday then Weekday
    else if z.yearOf(d) == z.yearOf(now) then ThisYear
    else Older
  }

  /** "today" is the zone's calendar day of `now`. */
  lemma TodayIffSameDay(z: Zone, d: int, now: int)
    requires ValidZone(z)
    ensures DateBucket(z, d, now) == Today <==> SameDay(z, d, now)
  {
    assert IsDayStart(z, z.dayStart(now));
  }

  /** "yesterday" is the calendar day starting one day before the start of today. */
  lemma YesterdayIffDayBefore(z: Zone, d: int, now: int)
    requires ValidZone(z)
    ensures DateBucket(z, d, now) == Yesterday <==> z.dayStart(d) == z.daysBefore(z.dayStart(now), 1)
  {
    var st := z.dayStart(now);
    var sy := z.daysBefore(st, 1);
    assert IsDayStart(z, st) && IsDayStart(z, sy);
    assert sy < z.daysBefore(st, 0) == st;
  }

  /**
   * "weekday" is exactly the open interval from the start of the day seven
   * days back to the start of yesterday: days two to seven back, except the
   * midnight that opens the seventh.
   */
  lemma WeekdayIffBetween(z: Zone, d: int, now: int)
    requires ValidZone(z)
    ensures DateBucket(z, d, now) == Weekday <==>
      z.daysBefore(z.dayStart(now), 7) < d < z.daysBefore(z.dayStart(now), 1)
  {
    var st := z.dayStart(now);
    var sy := z.daysBefore(st, 1);
    assert IsDayStart(z, st) && IsDayStart(z, sy);
    assert sy < z.daysBefore(st, 0) == st;
    if d < sy {
      assert z.dayStart(d) <= d;
    }
  }

  /** An instant seven days back, other than the midnight opening that day, is "weekday". */
  lemma SevenDaysBackIsWeekday(z: Zone, d: int, now: int)
    requires ValidZone(z)
    requires z.dayStart(d) == z.daysBefore(z.dayStart(now), 7) && d != z.dayStart(d)
    ensures DateBucket(z, d, now) == Weekday
  {
    WeekdayIffBetween(z, d, now);
    var st := z.dayStart(now);
    assert IsDayStart(z, st);
    var sy := z.daysBefore(st, 1);
    assert z.daysBefore(st, 7) < sy && IsDayStart(z, sy);
  }

  /** An instant on a day after today is never today, yesterday or weekday. */
  lemma FutureIsYearBucket(z: Zone, d: int, now: int)
    requires ValidZone(z)
    requires z.dayStart(d) > z.dayStart(now)
    ensures DateBucket(z, d, now) == ThisYear || DateBucket(z, d, now) == Older
  {
    var st := z.dayStart(now);
    assert IsDayStart(z, st);
    var sy := z.daysBefore(st, 1);
    assert IsDayStart(z, sy);
    assert sy < z.daysBefore(st, 0) == st;
  }

  /** Outside the first three buckets, thisYear and older are told apart by the calendar year alone. */
  lemma YearDecides(z: Zone, d: int, now: int)
    requires DateBucket(z, d, now) == ThisYear || DateBucket(z, d, now) == Older
    ensures DateBucket(z, d, now) == ThisYear <==> z.yearOf(d) == z.yearOf(now)
  {
  }

  // ---------------------------------------------------------------------------
  // formatRightCell

  /** The Intl.DateTimeFormat options formatRightCell chooses. */
  datatype Format = TimeOfDay | ShortWeekday | DayMonth | DayMonthYear

  /** formatRightCell's switch from bucket to format. */
  function FormatFor(b: Bucket): (f: Format)
    ensures f == TimeOfDay <==> b == Today || b == Yesterday
    ensures f == ShortWeekday <==> b == Weekday
    ensures f == DayMonth <==> b == ThisYear
    ensures f == DayMonthYear <==> b == Older
  {
    match b
    case Today => TimeOfDay
    case Yesterday => TimeOfDay
    case Weekday => ShortWeekday
    case ThisYear => DayMonth
    case Older => DayMonthYear
  }

  /** formatRightCell: the format of `d`'s bucket relative to `now`. */
  function FormatRightCell(z: Zone, d: int, now: int): Format {
    FormatFor(DateBucket(z, d, now))
  }

  /** An instant of today is shown as a time of day, as is one of yesterday. */
  lemma SameDayShowsTime(z: Zone, d: int, now: int)
    requires ValidZone(z) && SameDay(z, d, now)
    ensures FormatRightCell(z, d, now) == TimeOfDay
  {
    TodayIffSameDay(z, d, now);
  }

  // ---------------------------------------------------------------------------
  // compareByNewest

  /** compareByNewest: b − a on the instants, for a newest-first sort. */
  function CompareByNewest(a: int, b: int): (r: int)
    ensures r < 0 <==> a > b
    ensures r == 0 <==> a == b
    ensures r > 0 <==> a < b
  {
    b - a
  }

  /** Swapping the arguments negates the comparison. */
  lemma CompareAntisymmetric(a: int, b: int)
    ensures CompareByNewest(a, b) == -CompareByNewest(b, a)
  {
  }
}
