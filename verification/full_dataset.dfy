/**
 * The day-by-day corpus generator of generateFullDataset.js: for each day
 * from start through end, a scheduled research brief on weekdays, a rare
 * all-staff note, then random messages up to the day's volume, merged into
 * the day's monthly shard file in timestamp order.
 *
 * The file system is a map from path to shard; a shard that is missing or
 * fails to parse reads as empty. Every random draw of a day is a field of
 * `DayDraws`; template prose is opaque text.
 */
module FullDataset {
  import opened Wrappers
  import opened Sorting
  import opened Schedule

  const ResearchEmail: string := "research@jpmorgan.com"

  /** The generator's configuration: its cast and the size of each type's template store. */
  datatype Cast = Cast(senders: seq<Sender>, stores: map<Kind, nat>)

  /** faker.number.int({ min: 30, max: 59 }): the brief's minute past 6. */
  type BriefMinute = m: int | 30 <= m <= 59 witness 30

  /** One random slot's draws, and the template's result (None when it is falsy). */
  datatype SlotDraw = SlotDraw(draw: EmailDraw, result: Option<TemplateText>)

  /** Every draw one day makes. */
  datatype DayDraws = DayDraws(
    count: CountDraw,
    briefText: TemplateText, briefMinute: BriefMinute, briefId: string,
    allStaff: bool, execPick: nat, allStaffText: TemplateText, allStaffTime: TimeDraw,
    allStaffRead: bool, allStaffId: string,
    slots: nat -> SlotDraw)

  // ---------------------------------------------------------------------------
  // Senders

  /** senders.find((s) => s.email === email) */
  function FindByEmail(senders: seq<Sender>, email: string): (r: Option<Sender>)
    ensures r.Some? ==> r.value in senders && r.value.email == email
    ensures r.None? <==> forall s :: s in senders ==> s.email != email
    ensures r.Some? ==> exists i :: 0 <= i < |senders| && senders[i] == r.value &&
                                    (forall j :: 0 <= j < i ==> senders[j].email != email)
  {
    if senders == [] then None
    else if senders[0].email == email then Some(senders[0])
    else
      assert forall s :: s in senders <==> s == senders[0] || s in senders[1..];
      var rest := FindByEmail(senders[1..], email);
      if rest.Some? then
        var i :| 0 <= i < |senders[1..]| && senders[1..][i] == rest.value &&
                 (forall j :: 0 <= j < i ==> senders[1..][j].email != email);
        assert senders[i + 1] == rest.value;
        assert forall j :: 0 <= j < i + 1 ==> senders[j].email != email;
        rest
      else rest
  }

  predicate IsAllStaff(s: Sender) {
    s.kind == InternalAllStaff
  }

  /** Senders of random slots: everyone but the brief and all-staff senders. */
  predicate IsGeneral(s: Sender) {
    s.kind != InternalBrief && s.kind != InternalAllStaff
  }

  function Executives(cast: Cast): seq<Sender> {
    Filter(cast.senders, IsAllStaff)
  }

  function General(cast: Cast): seq<Sender> {
    Filter(cast.senders, IsGeneral)
  }

  /**
   * What a day needs of the cast, or the source fails: the research sender
   * on a weekday, and someone to send the random messages (a day always has
   * at least one random slot, see `SomeSlots`).
   */
  predicate DayReady(day: int, cal: Calendar, cast: Cast) {
    && General(cast) != []
    && (!cal.isWeekend(day) ==> FindByEmail(cast.senders, ResearchEmail).Some?)
  }

  /** Every sender type has a non-empty template store. */
  predicate AllStored(cast: Cast) {
    forall k: Kind :: k in cast.stores && cast.stores[k] > 0
  }

  // ---------------------------------------------------------------------------
  // The scheduled messages

  /** The weekday research brief at 6:30–6:59, read, labelled internal-brief, no attachments. */
  function BriefEmail(cal: Calendar, day: int, research: Sender, d: DayDraws): Email {
    Email(d.briefId, research.email, research.name, UserEmail, d.briefText.subject, d.briefText.body,
          TimestampAt(cal, day, 6, d.briefMinute), true, false, [InternalBrief], [])
  }

  /** The all-staff note from a drawn executive at a default time. */
  function AllStaffEmail(cal: Calendar, day: int, exec: Sender, d: DayDraws): Email {
    Email(d.allStaffId, exec.email, exec.name, UserEmail, d.allStaffText.subject, d.allStaffText.body,
          TimestampForDate(cal, day, d.allStaffTime), d.allStaffRead, false, [InternalAllStaff], [])
  }

  function BriefPart(cal: Calendar, day: int, cast: Cast, d: DayDraws): (r: seq<Email>)
    requires DayReady(day, cal, cast)
    ensures |r| == if cal.isWeekend(day) then 0 else 1
  {
    if cal.isWeekend(day) then [] else [BriefEmail(cal, day, FindByEmail(cast.senders, ResearchEmail).value, d)]
  }

  function AllStaffPart(cal: Calendar, day: int, cast: Cast, d: DayDraws): (r: seq<Email>)
    ensures |r| <= 1
  {
    var execs := Executives(cast);
    if d.allStaff && execs != [] then [AllStaffEmail(cal, day, Pick(execs, d.execPick), d)] else []
  }

  /** The messages a day has before its random slots: brief, then all-staff note. */
  function Scheduled(cal: Calendar, day: int, cast: Cast, d: DayDraws): (r: seq<Email>)
    requires DayReady(day, cal, cast)
    ensures |r| <= 2
  {
    BriefPart(cal, day, cast, d) + AllStaffPart(cal, day, cast, d)
  }

  /** Math.max(0, target − scheduled) */
  function Remaining(target: nat, scheduled: nat): (r: nat)
    ensures scheduled + r == if target > scheduled then target else scheduled
  {
    if target > scheduled then target - scheduled else 0
  }

  // ---------------------------------------------------------------------------
  // Random slots

  /**
   * The time a template fixes: the morning huddle (teams template 2) at 8:30
   * on weekdays, the Friday wrap (teams template 3) at 16:00 on Fridays.
   */
  function TemplateOverride(cal: Calendar, day: int, kind: Kind, index: nat): (r: Option<LocalTime>)
    ensures r.Some? ==> kind == ExternalTeams && (index == 2 || index == 3)
    ensures r == Some(LocalTime(8, 30)) <==> kind == ExternalTeams && index == 2 && !cal.isWeekend(day)
    ensures r == Some(LocalTime(16, 0)) <==> kind == ExternalTeams && index == 3 && cal.isFriday(day)
  {
    if kind == ExternalTeams && index == 2 && !cal.isWeekend(day) then Some(LocalTime(8, 30))
    else if kind == ExternalTeams && index == 3 && cal.isFriday(day) then Some(LocalTime(16, 0))
    else None
  }

  /** `tsOverride ?? generateTimestampForDate(current)` */
  function SlotTimestamp(cal: Calendar, day: int, kind: Kind, index: nat, t: TimeDraw): int {
    match TemplateOverride(cal, day, kind, index)
    case Some(lt) => TimestampAt(cal, day, lt.hour, lt.minute)
    case None => TimestampForDate(cal, day, t)
  }

  /** The sender a slot draws. */
  function SlotSender(general: seq<Sender>, s: SlotDraw): Sender
    requires general != []
  {
    Pick(general, s.draw.senderPick)
  }

  /** A slot is skipped when its sender's type has no (or an empty) store, or the template result is falsy. */
  predicate Skipped(stores: map<Kind, nat>, from: Sender, s: SlotDraw) {
    from.kind !in stores || stores[from.kind] == 0 || s.result.None?
  }

  /** One slot: the drawn general sender's drawn template, or nothing when the slot is skipped. */
  function SlotEmail(cal: Calendar, day: int, stores: map<Kind, nat>, from: Sender, s: SlotDraw): Option<Email> {
    if Skipped(stores, from, s) then None
    else
      var index := s.draw.templatePick % stores[from.kind];
      Some(RandomEmail(cal, day, from, s.result.value, SlotTimestamp(cal, day, from.kind, index, s.draw.time), s.draw))
  }

  /** The messages of slots 0 .. n−1, in slot order. */
  function SlotEmails(cal: Calendar, day: int, cast: Cast, slots: nat -> SlotDraw, n: nat): (r: seq<Email>)
    requires General(cast) != []
    ensures |r| <= n
  {
    if n == 0 then []
    else
      var before := SlotEmails(cal, day, cast, slots, n - 1);
      var s := slots(n - 1);
      match SlotEmail(cal, day, cast.stores, SlotSender(General(cast), s), s)
      case None => before
      case Some(e) => before + [e]
  }

  /** The day's messages in the order the generator pushes them. */
  function DayEmails(cal: Calendar, day: int, cast: Cast, d: DayDraws): seq<Email>
    requires DayReady(day, cal, cast)
  {
    var scheduled := Scheduled(cal, day, cast, d);
    var remaining := Remaining(EmailCount(cal, day, d.count), |scheduled|);
    scheduled + SlotEmails(cal, day, cast, d.slots, remaining)
  }

  /** The scheduled part of generateEmails' loop body. */
  method ScheduleDay(cal: Calendar, day: int, cast: Cast, d: DayDraws) returns (dateEmails: seq<Email>)
    requires DayReady(day, cal, cast)
    ensures dateEmails == Scheduled(cal, day, cast, d)
  {
    dateEmails := [];
    if !cal.isWeekend(day) {
      var research := FindByEmail(cast.senders, ResearchEmail).value;
      dateEmails := dateEmails + [BriefEmail(cal, day, research, d)];
    }
    if d.allStaff {
      var execs := Executives(cast);
      if |execs| > 0 {
        var exec := Pick(execs, d.execPick);
        dateEmails := dateEmails + [AllStaffEmail(cal, day, exec, d)];
      }
    }
  }

  /** generateEmails' loop body up to the sort: the day's messages. */
  method GenerateDay(cal: Calendar, day: int, cast: Cast, d: DayDraws) returns (dateEmails: seq<Email>)
    requires DayReady(day, cal, cast)
    ensures dateEmails == DayEmails(cal, day, cast, d)
  {
    dateEmails := ScheduleDay(cal, day, cast, d);
    var target := EmailCount(cal, day, d.count);
    var remaining := Remaining(target, |dateEmails|);
    dateEmails := PushSlots(cal, day, cast, d.slots, remaining, dateEmails);
  }

  /** The random-slot loop: slots 0 .. remaining − 1 each push their message, if any. */
  method PushSlots(cal: Calendar, day: int, cast: Cast, slots: nat -> SlotDraw, remaining: nat, scheduled: seq<Email>)
    returns (dateEmails: seq<Email>)
    requires General(cast) != []
    ensures dateEmails == scheduled + SlotEmails(cal, day, cast, slots, remaining)
  {
    dateEmails := scheduled;
    for i := 0 to remaining
      invariant dateEmails == scheduled + SlotEmails(cal, day, cast, slots, i)
    {
      dateEmails := PushSlot(cal, day, cast, slots, i, scheduled, dateEmails);
    }
  }

  /** One pass of the random-slot loop: slot i's message, if any, pushed onto the day's list. */
  method PushSlot(cal: Calendar, day: int, cast: Cast, slots: nat -> SlotDraw, i: nat, scheduled: seq<Email>, dateEmails: seq<Email>)
    returns (next: seq<Email>)
    requires General(cast) != []
    requires dateEmails == scheduled + SlotEmails(cal, day, cast, slots, i)
    ensures next == scheduled + SlotEmails(cal, day, cast, slots, i + 1)
  {
    var slot := slots(i);
    var from := Pick(General(cast), slot.draw.senderPick);
    var email := GenerateSlot(cal, day, cast.stores, from, slot);
    SlotStep(cal, day, cast, slots, i);
    next := dateEmails;
    if email.Some? {
      assert scheduled + SlotEmails(cal, day, cast, slots, i + 1) == dateEmails + [email.value];
      next := dateEmails + [email.value];
    }
  }

  /** One pass of the random-slot loop body, `continue` being an early return of nothing. */
  method GenerateSlot(cal: Calendar, day: int, stores: map<Kind, nat>, from: Sender, slot: SlotDraw)
    returns (email: Option<Email>)
    ensures email == SlotEmail(cal, day, stores, from, slot)
  {
    if from.kind !in stores || stores[from.kind] == 0 {
      return None;
    }
    if slot.result.None? {
      return None;
    }
    var index := slot.draw.templatePick % stores[from.kind];
    var override := TemplateOverride(cal, day, from.kind, index);
    var timestamp;
    if override.Some? {
      timestamp := TimestampAt(cal, day, override.value.hour, override.value.minute);
    } else {
      timestamp := TimestampForDate(cal, day, slot.draw.time);
    }
    email := Some(RandomEmail(cal, day, from, slot.result.value, timestamp, slot.draw));
  }

  /** One more slot adds that slot's message, if any. */
  lemma SlotStep(cal: Calendar, day: int, cast: Cast, slots: nat -> SlotDraw, i: nat)
    requires General(cast) != []
    ensures var s := slots(i);
            SlotEmails(cal, day, cast, slots, i + 1) ==
              SlotEmails(cal, day, cast, slots, i) +
              match SlotEmail(cal, day, cast.stores, SlotSender(General(cast), s), s)
              case None => []
              case Some(e) => [e]
  {
  }

  // ---------------------------------------------------------------------------
  // Properties of one day

  /** A day always runs at least one random slot, so it needs a general sender. */
  lemma SomeSlots(cal: Calendar, day: int, cast: Cast, d: DayDraws)
    requires DayReady(day, cal, cast)
    ensures Remaining(EmailCount(cal, day, d.count), |Scheduled(cal, day, cast, d)|) >= 1
  {
  }

  /** A day yields at most max(target, scheduled) messages. */
  lemma DayBound(cal: Calendar, day: int, cast: Cast, d: DayDraws)
    requires DayReady(day, cal, cast)
    ensures var target := EmailCount(cal, day, d.count);
            var scheduled := |Scheduled(cal, day, cast, d)|;
            |DayEmails(cal, day, cast, d)| <= if target > scheduled then target else scheduled
  {
  }

  /** Slots that all find a store and a template result each yield a message. */
  lemma {:induction false} SlotsAllYield(cal: Calendar, day: int, cast: Cast, slots: nat -> SlotDraw, n: nat)
    requires General(cast) != [] && AllStored(cast)
    requires forall i :: 0 <= i < n ==> slots(i).result.Some?
    ensures |SlotEmails(cal, day, cast, slots, n)| == n
  {
    if n > 0 {
      SlotsAllYield(cal, day, cast, slots, n - 1);
      var s := slots(n - 1);
      SlotYields(cal, day, cast, s);
      SlotStep(cal, day, cast, slots, n - 1);
    }
  }

  lemma SlotYields(cal: Calendar, day: int, cast: Cast, s: SlotDraw)
    requires General(cast) != [] && AllStored(cast) && s.result.Some?
    ensures SlotEmail(cal, day, cast.stores, SlotSender(General(cast), s), s).Some?
  {
    var from := SlotSender(General(cast), s);
    assert from.kind in cast.stores && cast.stores[from.kind] > 0;
  }

  /**
   * When every sender type has templates and every template result is a
   * message, as with the real cast, the day holds exactly max(target, scheduled).
   */
  lemma DayExact(cal: Calendar, day: int, cast: Cast, d: DayDraws)
    requires DayReady(day, cal, cast) && AllStored(cast)
    requires forall i :: 0 <= i < 25 ==> d.slots(i).result.Some?
    ensures var target := EmailCount(cal, day, d.count);
            var scheduled := |Scheduled(cal, day, cast, d)|;
            |DayEmails(cal, day, cast, d)| == if target > scheduled then target else scheduled
  {
    var scheduled := Scheduled(cal, day, cast, d);
    var remaining := Remaining(EmailCount(cal, day, d.count), |scheduled|);
    SlotsAllYield(cal, day, cast, d.slots, remaining);
  }

  /** The first message of a weekday is the brief: from research, read, unstarred, labelled internal-brief, 6:30–6:59. */
  lemma BriefShape(cal: Calendar, day: int, cast: Cast, d: DayDraws)
    requires DayReady(day, cal, cast) && !cal.isWeekend(day)
    ensures var b := DayEmails(cal, day, cast, d)[0];
      && b.from == ResearchEmail && b.to == UserEmail
      && b.isRead && !b.isStarred && b.labels == [InternalBrief] && b.attachments == []
      && exists m: Minute :: 30 <= m <= 59 && b.timestamp == TimestampAt(cal, day, 6, m)
  {
    var b := DayEmails(cal, day, cast, d)[0];
    assert b.timestamp == TimestampAt(cal, day, 6, d.briefMinute);
  }

  /** How many of the messages carry exactly the one label `kind`. */
  function CountLabel(emails: seq<Email>, kind: Kind): (n: nat)
    ensures n <= |emails|
  {
    if emails == [] then 0
    else CountLabel(emails[..|emails| - 1], kind) + (if emails[|emails| - 1].labels == [kind] then 1 else 0)
  }

  lemma {:induction false} CountLabelAppend(a: seq<Email>, b: seq<Email>, kind: Kind)
    ensures CountLabel(a + b, kind) == CountLabel(a, kind) + CountLabel(b, kind)
    decreases |b|
  {
    if b != [] {
      var b' := b[..|b| - 1];
      assert (a + b)[..|a + b| - 1] == a + b';
      CountLabelAppend(a, b', kind);
    } else {
      assert a + b == a;
    }
  }

  /** Random-slot messages have the shape of a message from a general sender. */
  ghost predicate FromGeneral(e: Email, general: seq<Sender>) {
    exists s :: s in general && RandomShape(e, s)
  }

  lemma {:induction false} SlotEmailsShape(cal: Calendar, day: int, cast: Cast, slots: nat -> SlotDraw, n: nat)
    requires General(cast) != []
    ensures forall e :: e in SlotEmails(cal, day, cast, slots, n) ==> FromGeneral(e, General(cast))
  {
    if n > 0 {
      SlotEmailsShape(cal, day, cast, slots, n - 1);
      var s := slots(n - 1);
      var from := SlotSender(General(cast), s);
      if !Skipped(cast.stores, from, s) {
        var index := s.draw.templatePick % cast.stores[from.kind];
        RandomEmailShape(cal, day, from, s.result.value, SlotTimestamp(cal, day, from.kind, index, s.draw.time), s.draw);
      }
    }
  }

  /** A slot takes the template's time when the template fixes one, the default time otherwise. */
  lemma SlotUsesOverride(cal: Calendar, day: int, stores: map<Kind, nat>, from: Sender, s: SlotDraw)
    requires SlotEmail(cal, day, stores, from, s).Some?
    ensures var index := s.draw.templatePick % stores[from.kind];
            SlotEmail(cal, day, stores, from, s).value.timestamp ==
              match TemplateOverride(cal, day, from.kind, index)
              case Some(lt) => TimestampAt(cal, day, lt.hour, lt.minute)
              case None => TimestampForDate(cal, day, s.draw.time)
  {
  }

  /** A slot yields nothing exactly when its sender's type has no templates or the template result is falsy. */
  lemma SlotSkipped(cal: Calendar, day: int, stores: map<Kind, nat>, from: Sender, s: SlotDraw)
    ensures SlotEmail(cal, day, stores, from, s).None? <==>
            from.kind !in stores || stores[from.kind] == 0 || s.result.None?
  {
  }

  lemma {:induction false} NoLabel(emails: seq<Email>, kind: Kind)
    requires forall e :: e in emails ==> e.labels != [kind]
    ensures CountLabel(emails, kind) == 0
  {
    if emails != [] {
      assert emails[|emails| - 1] in emails;
      NoLabel(emails[..|emails| - 1], kind);
    }
  }

  /** Random slots never carry the brief or all-staff label. */
  lemma SlotsNotScheduled(cal: Calendar, day: int, cast: Cast, slots: nat -> SlotDraw, n: nat)
    requires General(cast) != []
    ensures CountLabel(SlotEmails(cal, day, cast, slots, n), InternalBrief) == 0
    ensures CountLabel(SlotEmails(cal, day, cast, slots, n), InternalAllStaff) == 0
  {
    var r := SlotEmails(cal, day, cast, slots, n);
    SlotEmailsShape(cal, day, cast, slots, n);
    NoLabel(r, InternalBrief);
    NoLabel(r, InternalAllStaff);
  }

  lemma CountSingle(e: Email, kind: Kind)
    ensures CountLabel([e], kind) == if e.labels == [kind] then 1 else 0
  {
    assert [e][..0] == [];
  }

  /** Every weekday has exactly one brief and a weekend none. */
  lemma OneBriefOnWeekdays(cal: Calendar, day: int, cast: Cast, d: DayDraws)
    requires DayReady(day, cal, cast)
    ensures CountLabel(DayEmails(cal, day, cast, d), InternalBrief) == if cal.isWeekend(day) then 0 else 1
  {
    var brief := BriefPart(cal, day, cast, d);
    var staff := AllStaffPart(cal, day, cast, d);
    var scheduled := Scheduled(cal, day, cast, d);
    var n := Remaining(EmailCount(cal, day, d.count), |scheduled|);
    SlotsNotScheduled(cal, day, cast, d.slots, n);
    CountLabelAppend(brief, staff, InternalBrief);
    CountLabelAppend(scheduled, SlotEmails(cal, day, cast, d.slots, n), InternalBrief);
    if staff != [] {
      CountSingle(staff[0], InternalBrief);
    }
    if brief != [] {
      CountSingle(brief[0], InternalBrief);
    }
  }

  /** A day has at most one all-staff message. */
  lemma AtMostOneAllStaff(cal: Calendar, day: int, cast: Cast, d: DayDraws)
    requires DayReady(day, cal, cast)
    ensures CountLabel(DayEmails(cal, day, cast, d), InternalAllStaff) <= 1
  {
    var brief := BriefPart(cal, day, cast, d);
    var staff := AllStaffPart(cal, day, cast, d);
    var scheduled := Scheduled(cal, day, cast, d);
    var n := Remaining(EmailCount(cal, day, d.count), |scheduled|);
    SlotsNotScheduled(cal, day, cast, d.slots, n);
    CountLabelAppend(brief, staff, InternalAllStaff);
    CountLabelAppend(scheduled, SlotEmails(cal, day, cast, d.slots, n), InternalAllStaff);
    if brief != [] {
      CountSingle(brief[0], InternalAllStaff);
    }
  }

  /** The all-staff message, when there is one, comes from an all-staff sender of the cast. */
  lemma AllStaffFromExecutive(cal: Calendar, day: int, cast: Cast, d: DayDraws)
    ensures forall e :: e in AllStaffPart(cal, day, cast, d) ==>
      exists s :: s in cast.senders && IsAllStaff(s) && e.from == s.email
  {
    if AllStaffPart(cal, day, cast, d) != [] {
      var exec := Pick(Executives(cast), d.execPick);
      assert exec in cast.senders && IsAllStaff(exec);
    }
  }

  // ---------------------------------------------------------------------------
  // Monthly shards

  /** A shard file: a parsed list of messages, or content that does not parse. */
  datatype Shard = Parsed(emails: seq<Email>) | Unparsable

  /** The existing monthly data: the parsed file, or [] when it is missing or does not parse. */
  function Existing(files: map<string, Shard>, path: string): seq<Email> {
    if path in files && files[path].Parsed? then files[path].emails else []
  }

  /** The rewritten monthly file: existing contents then the sorted day, sorted by timestamp. */
  function Merge(existing: seq<Email>, day: seq<Email>): seq<Email> {
    SortByTime(existing + SortByTime(day))
  }

  /** The merge orders by timestamp and keeps exactly the old and the new messages. */
  lemma MergeKeepsAll(existing: seq<Email>, day: seq<Email>)
    ensures Chronological(Merge(existing, day))
    ensures multiset(Merge(existing, day)) == multiset(existing) + multiset(day)
    ensures |Merge(existing, day)| == |existing| + |day|
  {
    SortByTimeOrders(day);
    SortByTimeOrders(existing + SortByTime(day));
  }

  /** One iteration's effect on the files: the day's shard rewritten, nothing else touched. */
  function WriteDay(files: map<string, Shard>, path: string, day: seq<Email>): map<string, Shard> {
    files[path := Parsed(Merge(Existing(files, path), day))]
  }

  ghost predicate RangeReady(cal: Calendar, cast: Cast, start: int, stop: int) {
    forall day :: start <= day <= stop ==> DayReady(day, cal, cast)
  }

  /** The number of days from start through stop. */
  function DayCount(start: int, stop: int): nat {
    if stop < start then 0 else stop - start + 1
  }

  /** The monthly file a day's messages go to. */
  function DayPath(cal: Calendar, outdir: string, day: int): string {
    ShardPath(outdir, cal.yearOf(day), cal.monthOf(day))
  }

  /** The monthly file of each day from start through stop. */
  function DayPaths(cal: Calendar, outdir: string, start: int, stop: int): (r: seq<string>)
    ensures |r| == DayCount(start, stop)
    decreases stop - start
  {
    if stop < start then []
    else DayPaths(cal, outdir, start, stop - 1) + [DayPath(cal, outdir, stop)]
  }

  /** The messages of each day from start through stop. */
  function DayOutputs(cal: Calendar, cast: Cast, draws: int -> DayDraws, start: int, stop: int): (r: seq<seq<Email>>)
    requires RangeReady(cal, cast, start, stop)
    ensures |r| == DayCount(start, stop)
    decreases stop - start
  {
    if stop < start then []
    else DayOutputs(cal, cast, draws, start, stop - 1) + [DayEmails(cal, stop, cast, draws(stop))]
  }

  /** Each day from start through stop writes its own month's file. */
  lemma {:induction false} PathAt(cal: Calendar, outdir: string, start: int, stop: int, day: int)
    requires start <= day <= stop
    ensures DayPaths(cal, outdir, start, stop)[day - start] == DayPath(cal, outdir, day)
    decreases stop - start
  {
    var prefix := DayPaths(cal, outdir, start, stop - 1);
    if day < stop {
      PathAt(cal, outdir, start, stop - 1, day);
      assert DayPaths(cal, outdir, start, stop)[day - start] == prefix[day - start];
    } else {
      assert day == stop;
      assert DayPaths(cal, outdir, start, stop)[|prefix|] == DayPath(cal, outdir, stop);
      assert day - start == |prefix|;
    }
  }

  /** Each day from start through stop contributes its own messages. */
  lemma {:induction false} OutputAt(cal: Calendar, cast: Cast, draws: int -> DayDraws, start: int, stop: int, day: int)
    requires RangeReady(cal, cast, start, stop) && start <= day <= stop
    ensures DayOutputs(cal, cast, draws, start, stop)[day - start] == DayEmails(cal, day, cast, draws(day))
    decreases stop - start
  {
    var prefix := DayOutputs(cal, cast, draws, start, stop - 1);
    if day < stop {
      OutputAt(cal, cast, draws, start, stop - 1, day);
      assert DayOutputs(cal, cast, draws, start, stop)[day - start] == prefix[day - start];
    } else {
      assert day == stop;
      assert DayOutputs(cal, cast, draws, start, stop)[|prefix|] == DayEmails(cal, stop, cast, draws(stop));
      assert day - start == |prefix|;
    }
  }

  /** The files after writing day i's messages `outputs[i]` to `paths[i]`, for each day in turn. */
  function RunDays(paths: seq<string>, outputs: seq<seq<Email>>, files: map<string, Shard>): map<string, Shard>
    requires |paths| == |outputs|
  {
    if paths == [] then files
    else
      var n := |paths| - 1;
      WriteDay(RunDays(paths[..n], outputs[..n], files), paths[n], outputs[n])
  }

  lemma RunStep(paths: seq<string>, outputs: seq<seq<Email>>, path: string, day: seq<Email>, files: map<string, Shard>)
    requires |paths| == |outputs|
    ensures RunDays(paths + [path], outputs + [day], files) == WriteDay(RunDays(paths, outputs, files), path, day)
  {
    assert (paths + [path])[..|paths|] == paths;
    assert (outputs + [day])[..|outputs|] == outputs;
  }

  /** generateEmails: every day from start through end, in order, one iteration each. */
  method GenerateEmails(cal: Calendar, outdir: string, cast: Cast, draws: int -> DayDraws,
                        start: int, end: int, files: map<string, Shard>) returns (out: map<string, Shard>)
    requires RangeReady(cal, cast, start, end)
    ensures out == RunDays(DayPaths(cal, outdir, start, end), DayOutputs(cal, cast, draws, start, end), files)
  {
    out := files;
    var current := start;
    while current <= end
      invariant current == start || start < current <= end + 1
      invariant out == RunDays(DayPaths(cal, outdir, start, current - 1), DayOutputs(cal, cast, draws, start, current - 1), files)
    {
      var dateEmails := GenerateDay(cal, current, cast, draws(current));
      var monthlyFile := ShardPath(outdir, cal.yearOf(current), cal.monthOf(current));
      assert monthlyFile == DayPath(cal, outdir, current);
      RunStep(DayPaths(cal, outdir, start, current - 1), DayOutputs(cal, cast, draws, start, current - 1), monthlyFile, dateEmails, files);
      out := AppendToMonth(out, monthlyFile, dateEmails);
      current := current + 1;
    }
  }

  /** Rewrites a monthly file with the day's messages merged in. */
  method AppendToMonth(files: map<string, Shard>, monthlyFile: string, dateEmails: seq<Email>)
    returns (out: map<string, Shard>)
    ensures out == WriteDay(files, monthlyFile, dateEmails)
  {
    var existing := Existing(files, monthlyFile);
    var sorted := SortByTime(dateEmails);
    var all := SortByTime(existing + sorted);
    out := files[monthlyFile := Parsed(all)];
  }

  /** The messages of the days that write to `path`, in day order. */
  function Into(paths: seq<string>, outputs: seq<seq<Email>>, path: string): seq<Email>
    requires |paths| == |outputs|
  {
    if paths == [] then []
    else
      var n := |paths| - 1;
      Into(paths[..n], outputs[..n], path) + (if paths[n] == path then outputs[n] else [])
  }

  /** A file no day writes to is left exactly as it was. */
  lemma {:induction false} RunUntouched(paths: seq<string>, outputs: seq<seq<Email>>, files: map<string, Shard>, path: string)
    requires |paths| == |outputs| && path !in paths
    ensures path in RunDays(paths, outputs, files) <==> path in files
    ensures path in files ==> RunDays(paths, outputs, files)[path] == files[path]
  {
    if paths != [] {
      var n := |paths| - 1;
      assert forall p :: p in paths[..n] ==> p in paths;
      RunUntouched(paths[..n], outputs[..n], files, path);
    }
  }

  /** A file some day writes to holds a parsed list in timestamp order. */
  lemma {:induction false} RunWritten(paths: seq<string>, outputs: seq<seq<Email>>, files: map<string, Shard>, path: string)
    requires |paths| == |outputs| && path in paths
    ensures path in RunDays(paths, outputs, files)
    ensures RunDays(paths, outputs, files)[path].Parsed?
    ensures Chronological(RunDays(paths, outputs, files)[path].emails)
  {
    var n := |paths| - 1;
    var before := RunDays(paths[..n], outputs[..n], files);
    if paths[n] != path {
      var i :| 0 <= i < |paths| && paths[i] == path;
      assert paths[..n][i] == path;
      RunWritten(paths[..n], outputs[..n], files, path);
    }
    assert RunDays(paths, outputs, files) == WriteDay(before, paths[n], outputs[n]);
    WrittenStep(before, paths[n], outputs[n], path);
  }

  /** Writing a day leaves the file at `path` a parsed list in timestamp order, if it was one or is the one written. */
  lemma WrittenStep(before: map<string, Shard>, written: string, day: seq<Email>, path: string)
    requires written == path || (path in before && before[path].Parsed? && Chronological(before[path].emails))
    ensures var after := WriteDay(before, written, day);
      path in after && after[path].Parsed? && Chronological(after[path].emails)
  {
    if written == path {
      MergeKeepsAll(Existing(before, path), day);
    }
  }

  /**
   * Nothing is dropped or invented: each file ends up holding its earlier
   * readable contents plus the messages of exactly the days that write to it.
   */
  lemma {:induction false} RunContents(paths: seq<string>, outputs: seq<seq<Email>>, files: map<string, Shard>, path: string)
    requires |paths| == |outputs|
    ensures multiset(Existing(RunDays(paths, outputs, files), path)) ==
            multiset(Existing(files, path)) + multiset(Into(paths, outputs, path))
  {
    if paths != [] {
      var n := |paths| - 1;
      RunContents(paths[..n], outputs[..n], files, path);
      var before := RunDays(paths[..n], outputs[..n], files);
      var into := Into(paths[..n], outputs[..n], path);
      assert RunDays(paths, outputs, files) == WriteDay(before, paths[n], outputs[n]);
      assert Into(paths, outputs, path) == into + (if paths[n] == path then outputs[n] else []);
      ContentsStep(before, paths[n], outputs[n], path, Existing(files, path), into);
    }
  }

  /** One more day keeps the contents invariant of RunContents. */
  lemma ContentsStep(before: map<string, Shard>, written: string, day: seq<Email>, path: string,
                     base: seq<Email>, into: seq<Email>)
    requires multiset(Existing(before, path)) == multiset(base) + multiset(into)
    ensures multiset(Existing(WriteDay(before, written, day), path)) ==
            multiset(base) + multiset(into + (if written == path then day else []))
  {
    if written == path {
      WrittenContents(before, path, day);
    } else {
      OtherContents(before, written, day, path);
      assert into + [] == into;
    }
  }

  /** The file a day is written to holds its old readable messages and the day's. */
  lemma WrittenContents(before: map<string, Shard>, path: string, day: seq<Email>)
    ensures multiset(Existing(WriteDay(before, path, day), path)) == multiset(Existing(before, path)) + multiset(day)
  {
    MergeKeepsAll(Existing(before, path), day);
  }

  /** Writing a day to one file leaves every other file's messages as they were. */
  lemma OtherContents(before: map<string, Shard>, written: string, day: seq<Email>, path: string)
    requires written != path
    ensures Existing(WriteDay(before, written, day), path) == Existing(before, path)
  {
  }
}

/** The cast and template stores of generateFullDataset.js. */
module FullCast {
  import opened Wrappers
  import opened Schedule
  import opened FullDataset

  /** The cast, in source order: name, address and sender type. */
  const Senders: seq<Sender> := [
    Sender("Lyndon Fagan", "lyndon.fagan@jpmorgan.com", Internal),
    Sender("Hannah Pham", "hannah.pham@jpmorgan.com", Internal),
    Sender("Al Harvey", "al.harvey@jpmorgan.com", Internal),
    Sender("Bloomberg Terminal", "alerts@bloomberg.net", ExternalVendor),
    Sender("101 Collins Facilities", "facilities@101collins.com.au", ExternalFacilities),
    Sender("J.P. Morgan Research", "research@jpmorgan.com", InternalBrief),
    Sender("Microsoft Teams", "no-reply@teams.microsoft.com", ExternalTeams),
    Sender("Jamie Dimon", "jamie.dimon@jpmorgan.com", InternalAllStaff),
    Sender("Elaine Myers", "elaine.myers@jpmorgan.com", InternalAllStaff),
    Sender("Andrew Creber", "andrew.creber@jpmorgan.com", InternalAllStaff),
    Sender("Robert Singh", "investments@clubplus.com.au", ExternalClient),
    Sender("Lisa Tran", "investments@twusuper.com.au", ExternalClient),
    Sender("David Chen", "group.treasury@qbe.com", ExternalClient),
    Sender("Michael Jones", "investments@npf.org.nz", ExternalClient),
    Sender("J.P. Morgan Payroll", "payroll.au@jpmorgan.com", InternalHr),
    Sender("Sarah Connor", "sarah.connor@jpmorgan.com", InternalPm),
    Sender("Sunsuper Investments Team", "investments@sunsuper.com.au", ExternalClient),
    Sender("Future Fund Mandates", "mandates@futurefund.gov.au", ExternalClient),
    Sender("AMP Capital Investments", "investments@ampcapital.com", ExternalClient)]

  /** How many templates each sender type's store holds. */
  const Stores: map<Kind, nat> := map[
    Internal := 2,
    ExternalClient := 1,
    ExternalVendor := 1,
    InternalBrief := 1,
    ExternalTeams := 4,
    ExternalFacilities := 2,
    InternalAllStaff := 1,
    InternalHr := 1,
    InternalPm := 1]

  const Full: Cast := Cast(Senders, Stores)

  lemma FullStored()
    ensures AllStored(Full)
  {
    forall k: Kind ensures k in Stores && Stores[k] > 0 {
      match k
      case Internal =>
      case ExternalClient =>
      case ExternalVendor =>
      case InternalBrief =>
      case ExternalTeams =>
      case ExternalFacilities =>
      case InternalAllStaff =>
      case InternalHr =>
      case InternalPm =>
    }
  }

  /** The cast lists the research sender and has random-slot senders, so every day can run. */
  lemma FullReady(cal: Calendar, day: int)
    ensures DayReady(day, cal, Full)
  {
    var research := Senders[5];
    assert research in Senders && research.email == ResearchEmail;
    assert IsGeneral(Senders[0]) && Senders[0] in Senders;
  }
}
