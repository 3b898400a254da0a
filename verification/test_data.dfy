/**
 * The small test-week generator (generateTestData.js): four senders, two
 * template stores, and one message per slot for every day of the range,
 * each day's messages sorted by timestamp and appended to one list.
 *
 * Unlike the full generator there are no scheduled messages, no fixed-time
 * templates and no skipped slots: every sender's type has a store, and
 * every template returns a message.
 */
module TestData {
  import opened Wrappers
  import opened Sorting
  import opened Schedule

  /** The four senders of the test cast, in their listed order. */
  const TestSenders: seq<Sender> := [
    Sender("Lyndon Fagan", "lyndon.fagan@jpmorgan.com", Internal),
    Sender("Hannah Pham", "hannah.pham@jpmorgan.com", Internal),
    Sender("Al Harvey", "al.harvey@jpmorgan.com", Internal),
    Sender("Bloomberg Terminal", "alerts@bloomberg.net", ExternalVendor)]

  /** The number of templates in each store. */
  const TestStores: map<Kind, nat> := map[Internal := 2, ExternalVendor := 1]

  /** A slot's draws and the subject and body its template returned. */
  datatype TestSlot = TestSlot(draw: EmailDraw, text: TemplateText)

  /** A day's draws: the volume draws, then one slot per message. */
  datatype TestDraws = TestDraws(count: CountDraw, slots: nat -> TestSlot)

  /** Every test sender has a non-empty template store. */
  lemma TestSendersStored()
    ensures forall s :: s in TestSenders ==> s.kind in TestStores && TestStores[s.kind] > 0
  {
    forall s | s in TestSenders
      ensures s.kind in TestStores && TestStores[s.kind] > 0
    {
      assert s.kind == Internal || s.kind == ExternalVendor;
    }
  }

  /** The message of one slot: the drawn sender, its template's text, a default time of the day. */
  function SlotEmail(cal: Calendar, day: int, senders: seq<Sender>, s: TestSlot): Email
    requires senders != []
  {
    var from := Pick(senders, s.draw.senderPick);
    RandomEmail(cal, day, from, s.text, TimestampForDate(cal, day, s.draw.time), s.draw)
  }

  /** The messages of slots 0 .. n−1, one per slot, in slot order. */
  function SlotEmails(cal: Calendar, day: int, senders: seq<Sender>, slots: nat -> TestSlot, n: nat): (r: seq<Email>)
    requires senders != []
    ensures |r| == n
  {
    if n == 0 then []
    else SlotEmails(cal, day, senders, slots, n - 1) + [SlotEmail(cal, day, senders, slots(n - 1))]
  }

  /** Message i of the day is slot i's message. */
  lemma {:induction false} SlotAt(cal: Calendar, day: int, senders: seq<Sender>, slots: nat -> TestSlot, n: nat, i: nat)
    requires senders != [] && i < n
    ensures SlotEmails(cal, day, senders, slots, n)[i] == SlotEmail(cal, day, senders, slots(i))
  {
    if i < n - 1 {
      SlotAt(cal, day, senders, slots, n - 1, i);
    }
  }

  /** The day's messages before the sort: exactly the day's count of them. */
  function TestDay(cal: Calendar, day: int, senders: seq<Sender>, d: TestDraws): seq<Email>
    requires senders != []
  {
    SlotEmails(cal, day, senders, d.slots, EmailCount(cal, day, d.count))
  }

  /** The list generateEmails returns: each day from start through stop, its messages sorted, in day order. */
  function TestRun(cal: Calendar, senders: seq<Sender>, draws: int -> TestDraws, start: int, stop: int): seq<Email>
    requires senders != []
    decreases stop - start
  {
    if stop < start then []
    else TestRun(cal, senders, draws, start, stop - 1) + SortByTime(TestDay(cal, stop, senders, draws(stop)))
  }

  /** The total of the days' counts from start through stop. */
  function TotalCount(cal: Calendar, draws: int -> TestDraws, start: int, stop: int): nat
    decreases stop - start
  {
    if stop < start then 0
    else TotalCount(cal, draws, start, stop - 1) + EmailCount(cal, stop, draws(stop).count)
  }

  // ---------------------------------------------------------------------------
  // generateEmails

  /** The inner loop: one message per slot, then the sort. */
  method GenerateDay(cal: Calendar, day: int, d: TestDraws) returns (dateEmails: seq<Email>)
    ensures dateEmails == SortByTime(TestDay(cal, day, TestSenders, d))
  {
    var emailCount := EmailCount(cal, day, d.count);
    dateEmails := [];
    for i := 0 to emailCount
      invariant dateEmails == SlotEmails(cal, day, TestSenders, d.slots, i)
    {
      var slot := d.slots(i);
      var from := Pick(TestSenders, slot.draw.senderPick);
      var email := RandomEmail(cal, day, from, slot.text, TimestampForDate(cal, day, slot.draw.time), slot.draw);
      dateEmails := dateEmails + [email];
    }
    dateEmails := SortByTime(dateEmails);
  }

  /** generateEmails: every day from start through end, in order, its sorted messages appended. */
  method GenerateEmails(cal: Calendar, draws: int -> TestDraws, start: int, end: int) returns (allEmails: seq<Email>)
    ensures allEmails == TestRun(cal, TestSenders, draws, start, end)
  {
    allEmails := [];
    var current := start;
    while current <= end
      invariant current == start || start < current <= end + 1
      invariant allEmails == TestRun(cal, TestSenders, draws, start, current - 1)
    {
      var dateEmails := GenerateDay(cal, current, draws(current));
      allEmails := allEmails + dateEmails;
      current := current + 1;
    }
  }

  // ---------------------------------------------------------------------------
  // Properties

  /** The list holds exactly the days' counts added up. */
  lemma {:induction false} RunLength(cal: Calendar, senders: seq<Sender>, draws: int -> TestDraws, start: int, stop: int)
    requires senders != []
    ensures |TestRun(cal, senders, draws, start, stop)| == TotalCount(cal, draws, start, stop)
    decreases stop - start
  {
    if start <= stop {
      RunLength(cal, senders, draws, start, stop - 1);
      SortByTimeOrders(TestDay(cal, stop, senders, draws(stop)));
    }
  }

  /** Each day contributes 2 to 25 messages, so the list has between 2 and 25 per day. */
  lemma {:induction false} TotalBounds(cal: Calendar, draws: int -> TestDraws, start: int, stop: int)
    ensures start <= stop ==> 2 * (stop - start + 1) <= TotalCount(cal, draws, start, stop) <= 25 * (stop - start + 1)
    ensures stop < start ==> TotalCount(cal, draws, start, stop) == 0
    decreases stop - start
  {
    if start <= stop {
      TotalBounds(cal, draws, start, stop - 1);
    }
  }

  /** The list for an earlier last day is a prefix of the list for a later one. */
  lemma {:induction false} RunPrefix(cal: Calendar, senders: seq<Sender>, draws: int -> TestDraws, start: int, mid: int, stop: int)
    requires senders != [] && mid <= stop
    ensures var run := TestRun(cal, senders, draws, start, stop);
            var head := TestRun(cal, senders, draws, start, mid);
            |head| <= |run| && run[..|head|] == head
    decreases stop - mid
  {
    if mid < stop {
      RunPrefix(cal, senders, draws, start, mid, stop - 1);
      var run := TestRun(cal, senders, draws, start, stop);
      var before := TestRun(cal, senders, draws, start, stop - 1);
      var head := TestRun(cal, senders, draws, start, mid);
      if stop - 1 < start {
        assert head == [];
      } else {
        assert run == before + SortByTime(TestDay(cal, stop, senders, draws(stop)));
        assert run[..|head|] == before[..|head|];
      }
    }
  }

  /** Day `day`'s sorted messages follow the earlier days' messages in the list. */
  lemma DayAt(cal: Calendar, senders: seq<Sender>, draws: int -> TestDraws, start: int, stop: int, day: int)
    requires senders != [] && start <= day <= stop
    ensures var run := TestRun(cal, senders, draws, start, stop);
            var offset := |TestRun(cal, senders, draws, start, day - 1)|;
            var count := EmailCount(cal, day, draws(day).count);
            offset + count <= |run| && run[offset..offset + count] == SortByTime(TestDay(cal, day, senders, draws(day)))
  {
    var run, head := TestRun(cal, senders, draws, start, stop), TestRun(cal, senders, draws, start, day);
    var before := TestRun(cal, senders, draws, start, day - 1);
    var block := SortByTime(TestDay(cal, day, senders, draws(day)));
    RunPrefix(cal, senders, draws, start, day, stop);
    RunUnfold(cal, senders, draws, start, day);
    SliceAfter(run, head, before, block, EmailCount(cal, day, draws(day).count));
  }

  /** The list through `day` is the list through the day before, then the day's sorted messages. */
  lemma RunUnfold(cal: Calendar, senders: seq<Sender>, draws: int -> TestDraws, start: int, day: int)
    requires senders != [] && start <= day
    ensures TestRun(cal, senders, draws, start, day) ==
            TestRun(cal, senders, draws, start, day - 1) + SortByTime(TestDay(cal, day, senders, draws(day)))
    ensures |SortByTime(TestDay(cal, day, senders, draws(day)))| == EmailCount(cal, day, draws(day).count)
  {
    SortByTimeOrders(TestDay(cal, day, senders, draws(day)));
  }

  lemma SliceAfter(run: seq<Email>, head: seq<Email>, before: seq<Email>, block: seq<Email>, count: nat)
    requires |head| <= |run| && run[..|head|] == head && head == before + block && |block| == count
    ensures |before| + count <= |run| && run[|before|..|before| + count] == block
  {
    assert run[|before|..|before| + count] == head[|before|..];
  }

  /**
   * Day `day`'s messages sit together in the list, right after the earlier
   * days' messages: in timestamp order, and exactly the day's messages.
   */
  lemma DayBlock(cal: Calendar, senders: seq<Sender>, draws: int -> TestDraws, start: int, stop: int, day: int)
    requires senders != [] && start <= day <= stop
    ensures var run := TestRun(cal, senders, draws, start, stop);
            var offset := |TestRun(cal, senders, draws, start, day - 1)|;
            var count := EmailCount(cal, day, draws(day).count);
            offset + count <= |run|
            && Chronological(run[offset..offset + count])
            && multiset(run[offset..offset + count]) == multiset(TestDay(cal, day, senders, draws(day)))
  {
    DayAt(cal, senders, draws, start, stop, day);
    SortByTimeOrders(TestDay(cal, day, senders, draws(day)));
  }

  /** A message of a day: from one of the senders, with that sender's shape, at a default time of the day. */
  ghost predicate TestShape(cal: Calendar, day: int, senders: seq<Sender>, e: Email) {
    && (exists s :: s in senders && RandomShape(e, s))
    && (exists t: TimeDraw :: e.timestamp == TimestampForDate(cal, day, t))
  }

  lemma SlotShape(cal: Calendar, day: int, senders: seq<Sender>, s: TestSlot)
    requires senders != []
    ensures TestShape(cal, day, senders, SlotEmail(cal, day, senders, s))
  {
    var from := Pick(senders, s.draw.senderPick);
    RandomEmailShape(cal, day, from, s.text, TimestampForDate(cal, day, s.draw.time), s.draw);
  }

  /** Every message of a day has the shape. */
  lemma DayShape(cal: Calendar, day: int, senders: seq<Sender>, d: TestDraws)
    requires senders != []
    ensures forall e :: e in TestDay(cal, day, senders, d) ==> TestShape(cal, day, senders, e)
  {
    var n := EmailCount(cal, day, d.count);
    var r := TestDay(cal, day, senders, d);
    forall e | e in r
      ensures TestShape(cal, day, senders, e)
    {
      var i :| 0 <= i < n && r[i] == e;
      SlotAt(cal, day, senders, d.slots, n, i);
      SlotShape(cal, day, senders, d.slots(i));
    }
  }

  /** A message's timestamp is 8:00–21:59 local time of its day, and never after 17:59 on a weekend. */
  lemma ShapeHours(cal: Calendar, day: int, senders: seq<Sender>, e: Email)
    requires TestShape(cal, day, senders, e)
    ensures exists h: Hour, m: Minute ::
      e.timestamp == cal.instant(day, h, m) && 8 <= h <= 21 && (cal.isWeekend(day) ==> h <= 17)
  {
    var t: TimeDraw :| e.timestamp == TimestampForDate(cal, day, t);
    var lt := DefaultTime(cal, day, t);
    assert e.timestamp == cal.instant(day, lt.hour, lt.minute);
  }

  /** A test message is to the user and labelled internal or external-vendor, the types of the test senders. */
  lemma ShapeLabels(cal: Calendar, day: int, e: Email)
    requires TestShape(cal, day, TestSenders, e)
    ensures e.labels == [Internal] || e.labels == [ExternalVendor]
    ensures e.to == UserEmail && |e.attachments| <= 1
  {
    var s :| s in TestSenders && RandomShape(e, s);
    assert s.kind == Internal || s.kind == ExternalVendor;
  }

  /** Every message in the list has the shape of some day from start through stop. */
  lemma {:induction false} RunShape(cal: Calendar, senders: seq<Sender>, draws: int -> TestDraws, start: int, stop: int)
    requires senders != []
    ensures forall e :: e in TestRun(cal, senders, draws, start, stop) ==>
      exists day :: start <= day <= stop && TestShape(cal, day, senders, e)
    decreases stop - start
  {
    if start <= stop {
      RunShape(cal, senders, draws, start, stop - 1);
      var day := TestDay(cal, stop, senders, draws(stop));
      SortByTimeOrders(day);
      DayShape(cal, stop, senders, draws(stop));
      var before := TestRun(cal, senders, draws, start, stop - 1);
      var sorted := SortByTime(day);
      forall e | e in before + sorted
        ensures exists d :: start <= d <= stop && TestShape(cal, d, senders, e)
      {
        if e in sorted {
          assert e in multiset(sorted);
          assert e in day;
          assert TestShape(cal, stop, senders, e);
        } else {
          assert e in before;
        }
      }
    }
  }
}
