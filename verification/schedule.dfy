/**
 * What the two corpus generators (generateFullDataset.js and
 * generateTestData.js) share: the calendar they consult, the records they
 * write, the random draws they make, the time-of-day and volume rules, the
 * ascending sort by timestamp, and the monthly shard paths.
 *
 * Days are integers (one per calendar day, consecutive days differ by one).
 * The date library (date-fns and date-fns-tz) is a `Calendar` of functions
 * on days; every faker draw is an input whose type is the draw's stated
 * range.
 */
module Schedule {
  import opened Wrappers
  import opened Text
  import opened Sorting

  type Hour = h: int | 0 <= h <= 23
  type Minute = m: int | 0 <= m <= 59
  type Month = m: int | 1 <= m <= 12 witness 1

  /** faker.number.int({ min: 18, max: 21 }) */
  type EveningHour = h: int | 18 <= h <= 21 witness 18
  /** faker.number.int({ min: 8, max: 17 }) */
  type WorkHour = h: int | 8 <= h <= 17 witness 8
  /** faker.number.int({ min: 500000, max: 2000000 }) */
  type AttachmentSize = n: int | 500000 <= n <= 2000000 witness 500000
  /** The three volume draws of getEmailCountForDate. */
  type WeekdayCount = n: int | 15 <= n <= 25 witness 15
  type CrunchCount = n: int | 5 <= n <= 10 witness 5
  type QuietCount = n: int | 2 <= n <= 5 witness 2

  /**
   * The date library on a day: isWeekend, isFriday, getWeekOfMonth, the
   * calendar year and month, format(day, 'MMM_yy'), and the instant
   * (milliseconds) of a local time of the day in the generators' zone
   * (fromZonedTime of setHours/setMinutes).
   */
  datatype Calendar = Calendar(
    isWeekend: int -> bool,
    isFriday: int -> bool,
    weekOfMonth: int -> int,
    yearOf: int -> nat,
    monthOf: int -> Month,
    monthYearShort: int -> string,
    instant: (int, Hour, Minute) -> int)

  /**
   * A sender's type, which is also the one label the generators give the
   * sender's messages: "internal", "external-client", "external-vendor",
   * "internal-brief", "external-teams", "external-facilities",
   * "internal-allstaff", "internal-hr" and "internal-pm".
   */
  datatype Kind =
    | Internal | ExternalClient | ExternalVendor | InternalBrief | ExternalTeams
    | ExternalFacilities | InternalAllStaff | InternalHr | InternalPm

  datatype Sender = Sender(name: string, email: string, kind: Kind)

  datatype Attachment = Attachment(name: string, size: int)

  /** A generated message, with the fields the generators write. */
  datatype Email = Email(
    id: string, from: string, fromName: string, to: string,
    subject: string, body: string, timestamp: int,
    isRead: bool, isStarred: bool, labels: seq<Kind>, attachments: seq<Attachment>)

  /** A template's subject and body (opaque text). */
  datatype TemplateText = TemplateText(subject: string, body: string)

  /** The mailbox owner every message is addressed to. */
  const UserName: string := "Thomas Francis"
  const UserEmail: string := "thomas.francis@jpmorgan.com"

  // ---------------------------------------------------------------------------
  // generateTimestampForDate / generateTimestampAt

  /** The draws of generateTimestampForDate: the 30% coin, both hour ranges, the minute. */
  datatype TimeDraw = TimeDraw(evening: bool, eveningHour: EveningHour, workHour: WorkHour, minute: Minute)

  datatype LocalTime = LocalTime(hour: Hour, minute: Minute)

  /**
   * The local time generateTimestampForDate picks: an evening hour (18..21)
   * only when the coin says so on a weekday, otherwise a working hour
   * (8..17), and the drawn minute.
   */
  function DefaultTime(cal: Calendar, day: int, t: TimeDraw): (r: LocalTime)
    ensures r.minute == t.minute
    ensures r.hour >= 18 <==> t.evening && !cal.isWeekend(day)
    ensures 8 <= r.hour <= 21
    ensures cal.isWeekend(day) ==> 8 <= r.hour <= 17
  {
    var hour := if t.evening && !cal.isWeekend(day) then t.eveningHour as Hour else t.workHour as Hour;
    LocalTime(hour, t.minute)
  }

  /** generateTimestampAt: the instant of exactly `hour`:`minute` on `day`. */
  function TimestampAt(cal: Calendar, day: int, hour: Hour, minute: Minute): int {
    cal.instant(day, hour, minute)
  }

  /** generateTimestampForDate: the instant of the default local time. */
  function TimestampForDate(cal: Calendar, day: int, t: TimeDraw): int {
    var lt := DefaultTime(cal, day, t);
    TimestampAt(cal, day, lt.hour, lt.minute)
  }

  // ---------------------------------------------------------------------------
  // getEmailCountForDate

  datatype CountDraw = CountDraw(weekday: WeekdayCount, crunch: CrunchCount, quiet: QuietCount)

  /** Weekends in week four or later of the month are "crunch time". */
  predicate Crunch(cal: Calendar, day: int) {
    cal.weekOfMonth(day) >= 4
  }

  /**
   * getEmailCountForDate: 15..25 on a weekday, 5..10 on a crunch-time
   * weekend, 2..5 on any other weekend.
   */
  function EmailCount(cal: Calendar, day: int, c: CountDraw): (n: nat)
    ensures !cal.isWeekend(day) ==> 15 <= n <= 25
    ensures cal.isWeekend(day) && Crunch(cal, day) ==> 5 <= n <= 10
    ensures cal.isWeekend(day) && !Crunch(cal, day) ==> 2 <= n <= 5
  {
    if cal.isWeekend(day) then (if Crunch(cal, day) then c.crunch else c.quiet)
    else c.weekday
  }

  // ---------------------------------------------------------------------------
  // The message a random slot produces.

  /** The per-message draws: sender, template, time, read and starred flags, the optional attachment, the id. */
  datatype EmailDraw = EmailDraw(
    senderPick: nat, templatePick: nat, time: TimeDraw,
    isRead: bool, isStarred: bool, attachment: Option<AttachmentSize>, id: string)

  /** faker.helpers.arrayElement: one element of a non-empty list. */
  function Pick<T>(list: seq<T>, pick: nat): (r: T)
    requires list != []
    ensures r in list
  {
    list[pick % |list|]
  }

  /** The attachment list: none, or one "Report_<MMM_yy>.pdf" of the drawn size. */
  function Attachments(cal: Calendar, day: int, size: Option<AttachmentSize>): (r: seq<Attachment>)
    ensures |r| <= 1
    ensures forall a :: a in r ==> 500000 <= a.size <= 2000000
    ensures size.Some? <==> |r| == 1
  {
    match size
    case None => []
    case Some(n) => [Attachment("Report_" + cal.monthYearShort(day) + ".pdf", n)]
  }

  /** The message built for a random slot from its sender, template text and timestamp. */
  function RandomEmail(cal: Calendar, day: int, from: Sender, text: TemplateText, timestamp: int, d: EmailDraw): Email {
    Email(d.id, from.email, from.name, UserEmail, text.subject, text.body, timestamp,
          d.isRead, d.isStarred, [from.kind], Attachments(cal, day, d.attachment))
  }

  /** The shape every random-slot message has: to the user, labelled with the sender's type, at most one report attached. */
  predicate RandomShape(e: Email, from: Sender) {
    && e.to == UserEmail
    && e.from == from.email
    && e.labels == [from.kind]
    && |e.attachments| <= 1
    && forall a :: a in e.attachments ==> 500000 <= a.size <= 2000000
  }

  lemma RandomEmailShape(cal: Calendar, day: int, from: Sender, text: TemplateText, timestamp: int, d: EmailDraw)
    ensures RandomShape(RandomEmail(cal, day, from, text, timestamp, d), from)
    ensures RandomEmail(cal, day, from, text, timestamp, d).timestamp == timestamp
  {
  }

  // ---------------------------------------------------------------------------
  // senders.filter

  /** The senders `keep` accepts, in their listed order. */
  function Filter(senders: seq<Sender>, keep: Sender -> bool): (r: seq<Sender>)
    ensures |r| <= |senders|
    ensures forall s :: s in r <==> s in senders && keep(s)
  {
    if senders == [] then []
    else
      var rest := Filter(senders[1..], keep);
      assert forall s :: s in senders <==> s == senders[0] || s in senders[1..];
      if keep(senders[0]) then [senders[0]] + rest else rest
  }

  // ---------------------------------------------------------------------------
  // Sorting by timestamp.

  function Timestamp(e: Email): int {
    e.timestamp
  }

  /** `list.sort((a, b) => a.timestamp - b.timestamp)` */
  function SortByTime(list: seq<Email>): seq<Email> {
    SortBy(list, Timestamp, Ascending)
  }

  ghost predicate Chronological(list: seq<Email>) {
    SortedBy(list, Timestamp, Ascending)
  }

  /** The sort puts the messages in timestamp order and keeps each of them. */
  lemma SortByTimeOrders(list: seq<Email>)
    ensures Chronological(SortByTime(list))
    ensures multiset(SortByTime(list)) == multiset(list)
    ensures |SortByTime(list)| == |list|
  {
    SortByOrders(list, Timestamp, Ascending);
  }

  // ---------------------------------------------------------------------------
  // Monthly shard paths: outdir/yyyy/MM_monthname.json

  const MonthNames: seq<string> := [
    "january", "february", "march", "april", "may", "june",
    "july", "august", "september", "october", "november", "december"]

  /** format(day, 'yyyy'): the year, zero-padded to four digits. */
  function YearText(year: nat): (r: string)
    ensures forall i :: 0 <= i < |r| ==> IsDigit(r[i])
  {
    ZeroPad(Decimal(year), 4)
  }

  /** format(day, 'MM') */
  function MonthDigits(month: Month): (r: string)
    ensures |r| == 2 && IsDigit(r[0]) && IsDigit(r[1])
  {
    ZeroPad(Decimal(month), 2)
  }

  /** format(day, 'MM_MMMM').toLowerCase(), such as "04_april". */
  function MonthKey(month: Month): string {
    MonthDigits(month) + "_" + MonthNames[month - 1]
  }

  /** The monthly file a day's messages go to. */
  function ShardPath(outdir: string, year: nat, month: Month): string {
    outdir + "/" + YearText(year) + "/" + MonthKey(month) + ".json"
  }

  /** Leading zeros do not change the value of a digit string. */
  lemma {:induction false} ZeroPadValue(s: string, width: nat)
    requires forall i :: 0 <= i < |s| ==> IsDigit(s[i])
    ensures forall i :: 0 <= i < |ZeroPad(s, width)| ==> IsDigit(ZeroPad(s, width)[i])
    ensures DigitsValue(ZeroPad(s, width)) == DigitsValue(s)
  {
    if |s| < width {
      var z := seq(width - |s|, _ => '0');
      ZerosValue(z, s);
    }
  }

  lemma {:induction false} ZerosValue(z: string, s: string)
    requires forall i :: 0 <= i < |z| ==> z[i] == '0'
    requires forall i :: 0 <= i < |s| ==> IsDigit(s[i])
    ensures forall i :: 0 <= i < |z + s| ==> IsDigit((z + s)[i])
    ensures DigitsValue(z + s) == DigitsValue(s)
    decreases |s|, |z|
  {
    var t := z + s;
    if s == [] {
      assert t == z;
      if z != [] {
        ZerosValue(z[..|z| - 1], []);
        assert t[..|t| - 1] == z[..|z| - 1] + [];
      }
    } else {
      assert t[..|t| - 1] == z + s[..|s| - 1];
      ZerosValue(z, s[..|s| - 1]);
    }
  }

  /** The year text reads back as the year. */
  lemma YearTextValue(year: nat)
    ensures DigitsValue(YearText(year)) == year
  {
    ZeroPadValue(Decimal(year), 4);
  }

  lemma MonthDigitsValue(month: Month)
    ensures DigitsValue(MonthDigits(month)) == month
  {
    ZeroPadValue(Decimal(month), 2);
  }

  /** Two strings that each continue with `c` after a part without `c` agree on that part. */
  lemma {:induction false} SplitAtFirst(a: string, b: string, a': string, b': string, c: char)
    requires c !in a && c !in a' && a + [c] + b == a' + [c] + b'
    ensures a == a' && b == b'
  {
    var s := a + [c] + b;
    assert s == a' + [c] + b';
    assert s[|a|] == c && s[|a'|] == c;
    assert forall i :: 0 <= i < |a| ==> s[i] == a[i];
    assert forall i :: 0 <= i < |a'| ==> s[i] == a'[i];
    assert |a| == |a'|;
    assert a == s[..|a|] == a';
    assert b == s[|a| + 1..] == b';
  }

  lemma DigitsHaveNoSlash(s: string)
    requires forall i :: 0 <= i < |s| ==> IsDigit(s[i])
    ensures '/' !in s
  {
  }

  /** The year and month-key parts of a shard path are recovered from the path. */
  lemma {:induction false} PathParts(outdir: string, y1: string, k1: string, y2: string, k2: string)
    requires '/' !in y1 && '/' !in y2
    requires outdir + "/" + y1 + "/" + k1 + ".json" == outdir + "/" + y2 + "/" + k2 + ".json"
    ensures y1 == y2 && k1 == k2
  {
    var p := outdir + "/";
    var t1 := y1 + "/" + (k1 + ".json");
    var t2 := y2 + "/" + (k2 + ".json");
    assert p + t1 == outdir + "/" + y1 + "/" + k1 + ".json";
    assert p + t2 == outdir + "/" + y2 + "/" + k2 + ".json";
    assert t1 == (p + t1)[|p|..] == (p + t2)[|p|..] == t2;
    SplitAtFirst(y1, k1 + ".json", y2, k2 + ".json", '/');
    assert k1 == (k1 + ".json")[..|k1 + ".json"| - 5];
    assert k2 == (k2 + ".json")[..|k2 + ".json"| - 5];
  }

  lemma KeyPrefix(digits: string, name: string)
    ensures (digits + "_" + name)[..|digits|] == digits
  {
  }

  /** Different months have different keys: the key starts with the month's two digits. */
  lemma MonthKeyInjective(m1: Month, m2: Month)
    requires MonthKey(m1) == MonthKey(m2)
    ensures m1 == m2
  {
    KeyPrefix(MonthDigits(m1), MonthNames[m1 - 1]);
    KeyPrefix(MonthDigits(m2), MonthNames[m2 - 1]);
    MonthDigitsValue(m1);
    MonthDigitsValue(m2);
  }

  /**
   * Different months go to different files: the path determines the year
   * and the month.
   */
  lemma ShardPathInjective(outdir: string, y1: nat, m1: Month, y2: nat, m2: Month)
    requires ShardPath(outdir, y1, m1) == ShardPath(outdir, y2, m2)
    ensures y1 == y2 && m1 == m2
  {
    DigitsHaveNoSlash(YearText(y1));
    DigitsHaveNoSlash(YearText(y2));
    PathParts(outdir, YearText(y1), MonthKey(m1), YearText(y2), MonthKey(m2));
    YearTextValue(y1);
    YearTextValue(y2);
    MonthKeyInjective(m1, m2);
  }
}
