/**
 * The inbox screen's data logic (app/index.tsx): the avatar colour hash, the
 * two-digit pad, the row derived from each message, the newest-first month
 * order, the per-month cache and the page-by-page walk over all months.
 */
module Inbox {
  import opened Wrappers
  import opened Text
  import opened Sorting
  import opened DataLoader

  const PageSize: nat := 200
  const PreviewLength: nat := 90
  const Palette: seq<string> := ["#22c55e", "#ec4899", "#f59e0b", "#06b6d4", "#a78bfa"]
  const TwoTo32: nat := 0x1_0000_0000

  function Min(a: int, b: int): int {
    if a < b then a else b
  }

  // ---------------------------------------------------------------------------
  // colorFor

  /** h := (h * 31 + code unit) >>> 0 over the name, starting from 0. */
  function NameHash(name: string): (h: nat)
    ensures h < TwoTo32
  {
    if name == [] then 0
    else (NameHash(name[..|name| - 1]) * 31 + name[|name| - 1] as int) % TwoTo32
  }

  /** The palette entry colorFor picks: always one of the five, the first for "". */
  function PaletteColor(name: string): (color: string)
    ensures color in Palette
    ensures name == "" ==> color == Palette[0]
  {
    Palette[NameHash(name) % |Palette|]
  }

  /** colorFor: the rolling 32-bit hash of the name, taken modulo the palette size. */
  method ColorFor(name: string) returns (color: string)
    ensures color == PaletteColor(name)
  {
    var h := 0;
    for i := 0 to |name|
      invariant h == NameHash(name[..i])
    {
      assert name[..i + 1][..i] == name[..i];
      h := (h * 31 + name[i] as int) % TwoTo32;
    }
    assert name[..|name|] == name;
    color := Palette[h % |Palette|];
  }

  // ---------------------------------------------------------------------------
  // pad2

  /**
   * pad2: two digits for every n below 100, with a leading '0' exactly when
   * n < 10; the digits always read back as n.
   */
  function Pad2(n: nat): (r: string)
    ensures 2 <= |r|
    ensures n < 100 ==> |r| == 2
    ensures r[0] == '0' <==> n < 10
    ensures forall i :: 0 <= i < |r| ==> IsDigit(r[i])
    ensures DigitsValue(r) == n
  {
    if n < 10 then
      var r := "0" + Decimal(n);
      assert r[..1] == "0";
      r
    else Decimal(n)
  }

  // ---------------------------------------------------------------------------
  // The row shown for one message.

  /** The preview: whitespace runs collapsed to one space, trimmed, cut to 90 characters. */
  function PreviewText(body: string): (p: string)
    ensures |p| <= PreviewLength
  {
    var t := Trim(CollapseSpaces(body));
    t[..Min(PreviewLength, |t|)]
  }

  /** The preview holds no whitespace but single spaces, and does not start with one. */
  lemma PreviewCollapsed(body: string)
    ensures Collapsed(PreviewText(body))
    ensures PreviewText(body) != [] ==> !IsSpace(PreviewText(body)[0])
  {
    var c := CollapseSpaces(body);
    var t := Trim(c);
    var lead := LeadingSpaces(c);
    CollapsedSlice(c, lead, lead + |t|);
    CollapsedSlice(t, 0, Min(PreviewLength, |t|));
  }

  /** The preview is empty exactly when the body is all whitespace. */
  lemma PreviewEmpty(body: string)
    ensures PreviewText(body) == [] <==> forall i :: 0 <= i < |body| ==> IsSpace(body[i])
  {
    var c := CollapseSpaces(body);
    var t := Trim(c);
    CollapseKeepsText(body);
    NonSpaceEmpty(body);
    NonSpaceEmpty(c);
    TrimKeepsText(c);
    NonSpaceEmpty(t);
    assert PreviewText(body) == [] <==> t == [];
  }

  /**
   * When the trimmed, collapsed text fits in the preview, the preview keeps
   * all of the body's non-whitespace characters, in order.
   */
  lemma PreviewKeepsText(body: string)
    requires |Trim(CollapseSpaces(body))| <= PreviewLength
    ensures NonSpace(PreviewText(body)) == NonSpace(body)
  {
    var c := CollapseSpaces(body);
    assert PreviewText(body) == Trim(c);
    CollapseKeepsText(body);
    TrimKeepsText(c);
  }

  /**
   * A long body's preview is cut at 90 characters; whatever its length, the
   * preview's non-whitespace characters are the first ones of the body's.
   */
  lemma PreviewPrefix(body: string)
    ensures |PreviewText(body)| == Min(PreviewLength, |Trim(CollapseSpaces(body))|)
    ensures var p, n := NonSpace(PreviewText(body)), NonSpace(body);
      |p| <= |n| && n[..|p|] == p
  {
    var c := CollapseSpaces(body);
    var t := Trim(c);
    var k := Min(PreviewLength, |t|);
    assert PreviewText(body) == t[..k];
    assert t == t[..k] + t[k..];
    NonSpaceAppend(t[..k], t[k..]);
    TrimKeepsText(c);
    CollapseKeepsText(body);
    var p, q := NonSpace(t[..k]), NonSpace(t[k..]);
    assert (p + q)[..|p|] == p;
  }

  /** The non-empty parts, in order: the words of a name split at spaces. */
  function Words(parts: seq<string>): (words: seq<string>)
    ensures |words| <= |parts|
    ensures forall i :: 0 <= i < |words| ==> words[i] != "" && words[i] in parts
  {
    if parts == [] then [] else (if parts[0] == "" then [] else [parts[0]]) + Words(parts[1..])
  }

  /** The first character of every non-empty part, in order (undefined joins as ""). */
  function Heads(parts: seq<string>): string {
    if parts == [] then "" else (if parts[0] == "" then "" else [parts[0][0]]) + Heads(parts[1..])
  }

  lemma {:induction false} HeadsSplitEmpty(s: string)
    ensures Heads(Split(s, ' ')) == [] <==> forall i :: 0 <= i < |s| ==> s[i] == ' '
  {
    if s != [] {
      HeadsSplitEmpty(s[1..]);
      assert forall i :: 1 <= i < |s| ==> s[i] == s[1..][i - 1];
      var rest := Split(s[1..], ' ');
      if s[0] == ' ' {
        assert Split(s, ' ') == [""] + rest;
        assert ([""] + rest)[1..] == rest;
      } else {
        assert Split(s, ' ')[0][0] == s[0];
      }
    }
  }

  /** The heads are the first characters of the words, one per word. */
  lemma {:induction false} HeadsOfWords(parts: seq<string>)
    ensures |Heads(parts)| == |Words(parts)|
    ensures forall k :: 0 <= k < |Words(parts)| ==> Heads(parts)[k] == Words(parts)[k][0]
  {
    if parts != [] {
      HeadsOfWords(parts[1..]);
    }
  }

  lemma SplitQuestionMark()
    ensures Split("?", ' ') == ["?"]
  {
    var q := "?";
    assert q[1..] == [];
    assert Split(q[1..], ' ') == [""];
    assert [q[0]] + "" == q;
  }

  /**
   * The avatar initials: the first letters of the space-separated words of the
   * sender name ("?" for an empty name), at most two, upper-cased. They are
   * empty only for a name made of spaces.
   */
  function InitialsOf(fromName: string): (r: string)
    ensures |r| <= 2
    ensures fromName == "" ==> r == "?"
    ensures r == [] <==> fromName != [] && forall i :: 0 <= i < |fromName| ==> fromName[i] == ' '
  {
    var name := if fromName == "" then "?" else fromName;
    var heads := Heads(Split(name, ' '));
    HeadsSplitEmpty(name);
    SplitQuestionMark();
    ToUpper(heads[..Min(2, |heads|)])
  }

  /**
   * The initials of a non-empty name are the upper-cased first characters of
   * its first two space-separated words (fewer when it has fewer words).
   */
  lemma InitialsAreFirstLetters(fromName: string)
    requires fromName != ""
    ensures var words, r := Words(Split(fromName, ' ')), InitialsOf(fromName);
      && |r| == Min(2, |words|)
      && forall k :: 0 <= k < |r| ==> r[k] == UpperChar(words[k][0])
  {
    HeadsOfWords(Split(fromName, ' '));
  }

  /**
   * A row of the list. Its id, sender, subject, body and timestamp are those of
   * its message; the other fields it shows are computed from the message.
   */
  datatype Row = Row(message: RawEmail) {
    function Preview(): (p: string)
      ensures |p| <= PreviewLength
    {
      PreviewText(message.body)
    }

    /** The initials, "?" for a message without a sender name. */
    function Avatar(): (a: string)
      ensures |a| <= 2
      ensures message.fromName == "" ==> a == "?"
    {
      InitialsOf(message.fromName)
    }

    /** colorFor(fromName || 'Sender'). */
    function AvatarColor(): (c: string)
      ensures c in Palette
    {
      PaletteColor(if message.fromName == "" then "Sender" else message.fromName)
    }

    predicate IsUnread() {
      !message.isRead
    }
  }

  /** The rows of a list of messages, one per message, in order. */
  function Rows(s: seq<RawEmail>): (r: seq<Row>)
    ensures |r| == |s|
  {
    if s == [] then [] else Rows(s[..|s| - 1]) + [Row(s[|s| - 1])]
  }

  lemma {:induction false} RowsAppend(a: seq<RawEmail>, b: seq<RawEmail>)
    ensures Rows(a + b) == Rows(a) + Rows(b)
    decreases |b|
  {
    if b == [] {
      assert a + b == a;
    } else {
      var b' := b[..|b| - 1];
      assert (a + b)[..|a + b| - 1] == a + b';
      RowsAppend(a, b');
    }
  }

  /** The rows loadNextPage pushes for a slice of messages, one per message. */
  method MapRows(slice: seq<RawEmail>) returns (rows: seq<Row>)
    ensures rows == Rows(slice)
  {
    rows := [];
    for j := 0 to |slice|
      invariant rows == Rows(slice[..j])
    {
      rows := rows + [Row(slice[j])];
      assert slice[..j + 1][..j] == slice[..j];
    }
    assert slice[..|slice|] == slice;
  }

  // ---------------------------------------------------------------------------
  // allMonths

  /**
   * The sort key of a month: parseInt of the year followed by the month key's
   * prefix before '_' ("00" when that prefix is empty). A key that does not
   * parse ranks as 0 here; the comparator's behaviour for such keys is not
   * modelled.
   */
  function MonthNumber(m: MonthRef): int {
    var prefix := Split(m.monthKey, '_')[0];
    match ParseInt(m.year + (if prefix == "" then "00" else prefix))
    case Some(v) => v
    case None => 0
  }

  /**
   * For the month keys the generator writes (a year of digits, and two month
   * digits, '_' and the month's name) the sort key is year * 100 + month, so
   * greatest first is newest first.
   */
  lemma MonthNumberValue(year: string, mm: string, name: string)
    requires year != [] && forall i :: 0 <= i < |year| ==> IsDigit(year[i])
    requires |mm| == 2 && IsDigit(mm[0]) && IsDigit(mm[1])
    ensures MonthNumber(MonthRef(year, mm + "_" + name)) == DigitsValue(year) * 100 + DigitsValue(mm)
  {
    MonthKeyPrefix(mm, name);
    YearMonthValue(year, mm);
  }

  lemma MonthKeyPrefix(mm: string, name: string)
    requires |mm| == 2 && IsDigit(mm[0]) && IsDigit(mm[1])
    ensures Split(mm + "_" + name, '_')[0] == mm
  {
    assert mm + "_" + name == mm + ['_'] + name;
    SplitHead(mm, '_', name);
  }

  lemma YearMonthValue(year: string, mm: string)
    requires year != [] && forall i :: 0 <= i < |year| ==> IsDigit(year[i])
    requires |mm| == 2 && IsDigit(mm[0]) && IsDigit(mm[1])
    ensures ParseInt(year + mm) == Some(DigitsValue(year) * 100 + DigitsValue(mm))
  {
    DigitsValueAppend(year, mm);
    assert Pow10(2) == 100;
    ParseDigits(year + mm);
  }

  /** allMonths' sort: by month number, greatest first. */
  function SortMonths(list: seq<MonthRef>): seq<MonthRef> {
    SortBy(list, MonthNumber, Descending)
  }

  /**
   * allMonths lists every available month exactly once, greatest year and
   * month number first.
   */
  lemma AllMonthsOrder(index: MonthIndex)
    ensures var r := SortMonths(IndexMonths(index));
      && multiset(r) == multiset(IndexMonths(index))
      && forall i, j :: 0 <= i < j < |r| ==> MonthNumber(r[i]) >= MonthNumber(r[j])
  {
    var r := SortMonths(IndexMonths(index));
    SortByOrders(IndexMonths(index), MonthNumber, Descending);
    assert forall i, j :: 0 <= i < j < |r| ==> InOrder(Descending, MonthNumber(r[i]), MonthNumber(r[j]));
  }

  // ---------------------------------------------------------------------------
  // The newest-first message list that paging walks through.

  function Timestamp(e: RawEmail): int {
    e.timestamp
  }

  /** [...raw].sort((a, b) => b.timestamp - a.timestamp). */
  function NewestFirst(list: seq<RawEmail>): seq<RawEmail> {
    SortBy(list, Timestamp, Descending)
  }

  /** getMonthDesc's order: the same messages, newest first. */
  lemma NewestFirstOrder(list: seq<RawEmail>)
    ensures var r := NewestFirst(list);
      && multiset(r) == multiset(list)
      && forall i, j :: 0 <= i < j < |r| ==> r[i].timestamp >= r[j].timestamp
  {
    var r := NewestFirst(list);
    SortByOrders(list, Timestamp, Descending);
    assert forall i, j :: 0 <= i < j < |r| ==> InOrder(Descending, Timestamp(r[i]), Timestamp(r[j]));
  }

  /** A month's messages, newest first, as getMonthDesc caches them under `key`. */
  function KeyDesc(bundle: Bundle, key: string): seq<RawEmail> {
    NewestFirst(if key in bundle then bundle[key] else [])
  }

  function MonthDesc(bundle: Bundle, m: MonthRef): seq<RawEmail> {
    KeyDesc(bundle, PathKey(m.year, m.monthKey))
  }

  /** The lists of `lists`, one after the other. */
  function Concat<T>(lists: seq<seq<T>>): seq<T> {
    if lists == [] then [] else Concat(lists[..|lists| - 1]) + lists[|lists| - 1]
  }

  lemma {:induction false} ConcatPrefix<T>(lists: seq<seq<T>>, i: nat)
    requires i <= |lists|
    ensures |Concat(lists[..i])| <= |Concat(lists)|
    ensures Concat(lists)[..|Concat(lists[..i])|] == Concat(lists[..i])
    decreases |lists|
  {
    if i == |lists| {
      assert lists[..i] == lists;
    } else {
      var front := lists[..|lists| - 1];
      assert lists[..i] == front[..i];
      ConcatPrefix(front, i);
    }
  }

  lemma SliceOfSecond<T>(x: seq<T>, y: seq<T>, a: nat, b: nat)
    requires a <= b <= |y|
    ensures (x + y)[|x| + a..|x| + b] == y[a..b]
  {
    var z := (x + y)[|x| + a..|x| + b];
    assert |z| == b - a;
    forall k | 0 <= k < b - a ensures z[k] == y[a..b][k] {
      assert z[k] == (x + y)[|x| + a + k];
    }
  }

  /** The lists up to and including `p` concatenate to those before `p`, then list `p`. */
  lemma ConcatNext<T>(lists: seq<seq<T>>, p: nat)
    requires p < |lists|
    ensures Concat(lists[..p + 1]) == Concat(lists[..p]) + lists[p]
  {
    var upto := lists[..p + 1];
    assert upto[..|upto| - 1] == lists[..p] && upto[|upto| - 1] == lists[p];
  }

  /**
   * List `p` sits in the concatenation right after the lists before it.
   */
  lemma ConcatAt<T>(lists: seq<seq<T>>, p: nat, a: nat, b: nat)
    requires p < |lists| && a <= b <= |lists[p]|
    ensures |Concat(lists[..p])| + b <= |Concat(lists)|
    ensures Concat(lists)[|Concat(lists[..p])| + a..|Concat(lists[..p])| + b] == lists[p][a..b]
  {
    ConcatNext(lists, p);
    var u := Concat(lists[..p + 1]);
    var base := |Concat(lists[..p])|;
    ConcatPrefix(lists, p + 1);
    SliceOfPrefix(Concat(lists), u, base + a, base + b);
    SliceOfSecond(Concat(lists[..p]), lists[p], a, b);
  }

  /** A slice inside a prefix is the same slice of the prefix. */
  lemma SliceOfPrefix<T>(f: seq<T>, u: seq<T>, lo: nat, hi: nat)
    requires |u| <= |f| && f[..|u|] == u && lo <= hi <= |u|
    ensures f[lo..hi] == u[lo..hi]
  {
    assert forall k :: lo <= k < hi ==> f[k] == f[..|u|][k];
  }

  /** Index into the concatenation of offset `offset` in list `pos`. */
  function At<T>(lists: seq<seq<T>>, pos: nat, offset: nat): nat
    requires pos <= |lists|
  {
    |Concat(lists[..pos])| + offset
  }

  /**
   * The `take` elements of list `pos` from `offset` on are the `take`
   * elements of the concatenation from the matching index on.
   */
  lemma PageSlice<T>(lists: seq<seq<T>>, pos: nat, offset: nat, take: nat, from: nat, to: nat)
    requires pos < |lists| && offset + take <= |lists[pos]|
    requires At(lists, pos, offset) == from && to == from + take
    ensures to <= |Concat(lists)|
    ensures Concat(lists)[from..to] == lists[pos][offset..offset + take]
  {
    ConcatAt(lists, pos, offset, offset + take);
  }

  /** The end of list `pos` is the start of the next one. */
  lemma AtNext<T>(lists: seq<seq<T>>, pos: nat)
    requires pos < |lists|
    ensures At(lists, pos + 1, 0) == At(lists, pos, |lists[pos]|)
  {
    ConcatNext(lists, pos);
  }

  lemma SliceJoin<T>(s: seq<T>, i: nat, j: nat, k: nat)
    requires i <= j <= k <= |s|
    ensures s[i..k] == s[i..j] + s[j..k]
  {
  }

  /** Two adjacent slices, given by their contents, make up the slice that spans both. */
  lemma JoinSlices<T>(s: seq<T>, i: nat, j: nat, k: nat, a: seq<T>, b: seq<T>)
    requires i <= j <= k <= |s| && a == s[i..j] && b == s[j..k]
    ensures a + b == s[i..k]
  {
    SliceJoin(s, i, j, k);
  }

  /** What a run of loadNextPage's loop takes, and the month and offset it stops at. */
  datatype Collected<T> = Collected(msgs: seq<T>, pos: nat, offset: nat)

  /**
   * The loop of loadNextPage as a recursion: from month `pos`, offset
   * `offset`, with room for `room` more messages, skip a month with nothing
   * left, otherwise take as many as fit and move to the next month once this
   * one is used up.
   */
  function Collect<T>(lists: seq<seq<T>>, pos: nat, offset: nat, room: nat): Collected<T>
    requires pos <= |lists|
    decreases |lists| - pos, room
  {
    if room == 0 || pos == |lists| then Collected([], pos, offset)
    else if |lists[pos]| - offset <= 0 then Collect(lists, pos + 1, 0, room)
    else
      var take := Min(room, |lists[pos]| - offset);
      var rest := if offset + take >= |lists[pos]| then Collect(lists, pos + 1, 0, room - take)
                  else Collect(lists, pos, offset + take, room - take);
      Collected(lists[pos][offset..offset + take] + rest.msgs, rest.pos, rest.offset)
  }

  /**
   * One pass of the loop from (`pos`, `offset`) with room for `room` more
   * messages moves to (`pos'`, `offset'`) with room `room'`, taking `slice`:
   * a month with nothing left from `offset` on is skipped; otherwise as many
   * of its messages as fit are taken, and the month is left once used up.
   */
  ghost predicate Step<T>(lists: seq<seq<T>>, pos: nat, offset: nat, room: nat,
                    pos': nat, offset': nat, room': nat, slice: seq<T>)
    requires pos < |lists|
  {
    if |lists[pos]| - offset <= 0 then
      pos' == pos + 1 && offset' == 0 && room' == room && slice == []
    else
      var take := Min(room, |lists[pos]| - offset);
      && room' == room - take
      && slice == lists[pos][offset..offset + take]
      && if offset + take >= |lists[pos]| then pos' == pos + 1 && offset' == 0
         else pos' == pos && offset' == offset + take
  }

  /** One pass leaves the rest of the run to continue from the new position. */
  lemma CollectStep<T>(lists: seq<seq<T>>, pos: nat, offset: nat, room: nat,
                       pos': nat, offset': nat, room': nat, slice: seq<T>)
    requires pos < |lists| && room > 0
    requires Step(lists, pos, offset, room, pos', offset', room', slice)
    ensures pos' <= |lists|
    ensures var c, r := Collect(lists, pos, offset, room), Collect(lists, pos', offset', room');
      c.msgs == slice + r.msgs && c.pos == r.pos && c.offset == r.offset
  {
    if |lists[pos]| - offset <= 0 {
      assert [] + Collect(lists, pos', offset', room').msgs == Collect(lists, pos', offset', room').msgs;
    }
  }

  /**
   * One pass of the loop keeps its invariant: what is taken so far, then the
   * rest of the run, is the whole run; the rows so far are the rows of what
   * was taken.
   */
  lemma PassTaken(lists: seq<seq<RawEmail>>, pos: nat, offset: nat, room: nat,
                  pos': nat, offset': nat, room': nat, slice: seq<RawEmail>,
                  goal: Collected<RawEmail>, taken: seq<RawEmail>, next: seq<Row>, rows: seq<Row>)
    requires pos < |lists| && room > 0
    requires Step(lists, pos, offset, room, pos', offset', room', slice)
    requires var c := Collect(lists, pos, offset, room);
      goal.msgs == taken + c.msgs && goal.pos == c.pos && goal.offset == c.offset
    requires next == Rows(taken) && rows == Rows(slice)
    ensures pos' <= |lists|
    ensures var c := Collect(lists, pos', offset', room');
      goal.msgs == (taken + slice) + c.msgs && goal.pos == c.pos && goal.offset == c.offset
    ensures next + rows == Rows(taken + slice)
  {
    CollectStep(lists, pos, offset, room, pos', offset', room', slice);
    AppendAssoc(taken, slice, Collect(lists, pos', offset', room').msgs);
    RowsAppend(taken, slice);
  }

  lemma AppendAssoc<T>(a: seq<T>, b: seq<T>, c: seq<T>)
    ensures a + (b + c) == (a + b) + c
  {
  }

  /** The position (`pos`, `offset`) is inside list `pos`, or just past the last list. */
  predicate InRange<T>(lists: seq<seq<T>>, pos: nat, offset: nat) {
    && pos <= |lists|
    && (pos < |lists| ==> offset == 0 || offset < |lists[pos]|)
    && (pos == |lists| ==> offset == 0)
  }

  lemma AtBound<T>(lists: seq<seq<T>>, pos: nat, offset: nat)
    requires InRange(lists, pos, offset)
    ensures At(lists, pos, offset) <= |Concat(lists)|
    ensures pos == |lists| ==> At(lists, pos, offset) == |Concat(lists)|
  {
    if pos < |lists| {
      ConcatAt(lists, pos, offset, offset);
    } else {
      assert lists[..pos] == lists;
    }
  }

  /** One pass stays in range, and uses up the room unless it leaves the month. */
  lemma StepShape<T>(lists: seq<seq<T>>, pos: nat, offset: nat, room: nat,
                     pos': nat, offset': nat, room': nat, slice: seq<T>)
    requires InRange(lists, pos, offset) && pos < |lists| && room > 0
    requires Step(lists, pos, offset, room, pos', offset', room', slice)
    ensures InRange(lists, pos', offset')
    ensures room' == room - |slice| && (pos' == pos ==> room' == 0 && |slice| > 0)
  {
  }

  /** Skipping an empty month moves the position to the next month without passing any element. */
  lemma SkipConcat<T>(lists: seq<seq<T>>, pos: nat)
    requires pos < |lists| && lists[pos] == []
    ensures At(lists, pos, 0) <= |Concat(lists)|
    ensures At(lists, pos + 1, 0) == At(lists, pos, 0)
  {
    ConcatAt(lists, pos, 0, 0);
    AtNext(lists, pos);
  }

  /** Taking `take` elements of month `pos` passes the same elements of the concatenation. */
  lemma TakeConcat<T>(lists: seq<seq<T>>, pos: nat, offset: nat, take: nat, slice: seq<T>)
    requires pos < |lists| && offset + take <= |lists[pos]|
    requires slice == lists[pos][offset..offset + take]
    ensures At(lists, pos, offset) + take <= |Concat(lists)|
    ensures slice == Concat(lists)[At(lists, pos, offset)..At(lists, pos, offset) + take]
    ensures offset + take == |lists[pos]| ==> At(lists, pos + 1, 0) == At(lists, pos, offset) + take
  {
    var from := At(lists, pos, offset);
    PageSlice(lists, pos, offset, take, from, from + take);
    AtNext(lists, pos);
  }

  /** One pass takes the next elements of the concatenation and moves the position past them. */
  lemma StepConcat<T>(lists: seq<seq<T>>, pos: nat, offset: nat, room: nat,
                      pos': nat, offset': nat, room': nat, slice: seq<T>)
    requires InRange(lists, pos, offset) && pos < |lists| && room > 0
    requires Step(lists, pos, offset, room, pos', offset', room', slice)
    ensures At(lists, pos, offset) + |slice| <= |Concat(lists)|
    ensures At(lists, pos', offset') == At(lists, pos, offset) + |slice|
    ensures slice == Concat(lists)[At(lists, pos, offset)..At(lists, pos, offset) + |slice|]
  {
    if |lists[pos]| - offset <= 0 {
      assert offset == 0 && pos' == pos + 1 && offset' == 0 && slice == [];
      SkipConcat(lists, pos);
    } else {
      var take := Min(room, |lists[pos]| - offset);
      assert |slice| == take;
      TakeConcat(lists, pos, offset, take, slice);
    }
  }

  lemma StepSlice<T>(lists: seq<seq<T>>, pos: nat, offset: nat, room: nat,
                     pos': nat, offset': nat, room': nat, slice: seq<T>)
    requires InRange(lists, pos, offset) && pos < |lists| && room > 0
    requires Step(lists, pos, offset, room, pos', offset', room', slice)
    ensures InRange(lists, pos', offset')
    ensures room' == room - |slice| && (pos' == pos ==> room' == 0 && |slice| > 0)
    ensures At(lists, pos, offset) + |slice| <= |Concat(lists)|
    ensures At(lists, pos', offset') == At(lists, pos, offset) + |slice|
    ensures slice == Concat(lists)[At(lists, pos, offset)..At(lists, pos, offset) + |slice|]
  {
    StepShape(lists, pos, offset, room, pos', offset', room', slice);
    StepConcat(lists, pos, offset, room, pos', offset', room', slice);
  }

  /**
   * The next pass of a run from (`pos`, `offset`) with `room` left, as Step
   * describes it.
   */
  function NextStep<T>(lists: seq<seq<T>>, pos: nat, offset: nat, room: nat): (r: (nat, nat, nat, seq<T>))
    requires InRange(lists, pos, offset) && pos < |lists| && room > 0
    ensures Step(lists, pos, offset, room, r.0, r.1, r.2, r.3)
  {
    var skip := |lists[pos]| - offset <= 0;
    var take := if skip then 0 else Min(room, |lists[pos]| - offset);
    var leave := skip || offset + take >= |lists[pos]|;
    (if leave then pos + 1 else pos, if leave then 0 else offset + take, room - take,
     lists[pos][offset..offset + take])
  }

  /**
   * A run of the loop takes min(room, what is left) elements and stops at the
   * position just after them; it stops short of `room` only when the lists
   * run out.
   */
  lemma {:induction false} CollectCount<T>(lists: seq<seq<T>>, pos: nat, offset: nat, room: nat)
    requires InRange(lists, pos, offset)
    ensures At(lists, pos, offset) <= |Concat(lists)|
    ensures var c := Collect(lists, pos, offset, room);
      var from := At(lists, pos, offset);
      && InRange(lists, c.pos, c.offset)
      && |c.msgs| == Min(room, |Concat(lists)| - from)
      && At(lists, c.pos, c.offset) == from + |c.msgs|
      && (|c.msgs| == room || c.pos == |lists|)
    decreases |lists| - pos, room
  {
    AtBound(lists, pos, offset);
    if room > 0 && pos < |lists| {
      var n := NextStep(lists, pos, offset, room);
      StepSlice(lists, pos, offset, room, n.0, n.1, n.2, n.3);
      CollectStep(lists, pos, offset, room, n.0, n.1, n.2, n.3);
      CollectCount(lists, n.0, n.1, n.2);
    }
  }

  /** The elements a run takes are the next ones of the concatenation, in order. */
  lemma {:induction false} CollectSlice<T>(lists: seq<seq<T>>, pos: nat, offset: nat, room: nat)
    requires InRange(lists, pos, offset)
    ensures At(lists, pos, offset) + |Collect(lists, pos, offset, room).msgs| <= |Concat(lists)|
    ensures Collect(lists, pos, offset, room).msgs
         == Concat(lists)[At(lists, pos, offset)..At(lists, pos, offset) + |Collect(lists, pos, offset, room).msgs|]
    decreases |lists| - pos, room
  {
    if room == 0 || pos == |lists| {
      AtBound(lists, pos, offset);
    } else {
      var n := NextStep(lists, pos, offset, room);
      StepSlice(lists, pos, offset, room, n.0, n.1, n.2, n.3);
      CollectSlice(lists, n.0, n.1, n.2);
      CollectSliceStep(lists, pos, offset, room, n);
    }
  }

  /** The step of CollectSlice: this pass's slice, then what the rest of the run takes. */
  lemma CollectSliceStep<T>(lists: seq<seq<T>>, pos: nat, offset: nat, room: nat, n: (nat, nat, nat, seq<T>))
    requires InRange(lists, pos, offset) && pos < |lists| && room > 0
    requires n == NextStep(lists, pos, offset, room)
    requires InRange(lists, n.0, n.1)
    requires At(lists, pos, offset) + |n.3| <= |Concat(lists)|
    requires At(lists, n.0, n.1) == At(lists, pos, offset) + |n.3|
    requires n.3 == Concat(lists)[At(lists, pos, offset)..At(lists, pos, offset) + |n.3|]
    requires At(lists, n.0, n.1) + |Collect(lists, n.0, n.1, n.2).msgs| <= |Concat(lists)|
    requires Collect(lists, n.0, n.1, n.2).msgs
          == Concat(lists)[At(lists, n.0, n.1)..At(lists, n.0, n.1) + |Collect(lists, n.0, n.1, n.2).msgs|]
    ensures At(lists, pos, offset) + |Collect(lists, pos, offset, room).msgs| <= |Concat(lists)|
    ensures Collect(lists, pos, offset, room).msgs
         == Concat(lists)[At(lists, pos, offset)..At(lists, pos, offset) + |Collect(lists, pos, offset, room).msgs|]
  {
    CollectStep(lists, pos, offset, room, n.0, n.1, n.2, n.3);
    SliceThen(Concat(lists), At(lists, pos, offset), n.3, At(lists, n.0, n.1), Collect(lists, n.0, n.1, n.2).msgs);
  }

  /** A slice followed by the slice right after it is the slice spanning both. */
  lemma SliceThen<T>(flat: seq<T>, from: nat, slice: seq<T>, mid: nat, rest: seq<T>)
    requires mid == from + |slice| && mid + |rest| <= |flat|
    requires slice == flat[from..mid] && rest == flat[mid..mid + |rest|]
    ensures from + |slice + rest| <= |flat| && slice + rest == flat[from..from + |slice + rest|]
  {
    JoinSlices(flat, from, mid, mid + |rest|, slice, rest);
  }

  /** The cache holds each loaded month's sorted list, and each key was loaded once. */
  ghost predicate CacheOk(bundle: Bundle, cache: map<string, seq<RawEmail>>, loaded: seq<string>) {
    && (forall k :: k in cache ==> cache[k] == KeyDesc(bundle, k))
    && (forall k :: k in cache <==> k in loaded)
    && (forall i, j :: 0 <= i < j < |loaded| ==> loaded[i] != loaded[j])
  }

  /**
   * The position (`pos`, `offset`) is in range and `shown` holds the rows of
   * every element of the concatenation before it.
   */
  ghost predicate Paged(lists: seq<seq<RawEmail>>, pos: nat, offset: nat, shown: seq<Row>) {
    && InRange(lists, pos, offset)
    && At(lists, pos, offset) <= |Concat(lists)|
    && shown == Rows(Concat(lists)[..At(lists, pos, offset)])
  }

  /**
   * A page collected at the cursor: the cursor moves on by min(200, what is
   * left), and the rows so far followed by the page's rows are the rows of
   * every element before the new cursor.
   */
  lemma NextPage(lists: seq<seq<RawEmail>>, pos: nat, offset: nat, shown: seq<Row>,
                  c: Collected<RawEmail>, from: nat)
    requires InRange(lists, pos, offset) && pos < |lists|
    requires from == At(lists, pos, offset) && from <= |Concat(lists)|
    requires c == Collect(lists, pos, offset, PageSize)
    requires shown == Rows(Concat(lists)[..from])
    ensures InRange(lists, c.pos, c.offset)
    ensures |c.msgs| == Min(PageSize, |Concat(lists)| - from)
    ensures At(lists, c.pos, c.offset) == from + |c.msgs| <= |Concat(lists)|
    ensures |c.msgs| < PageSize ==> c.pos == |lists|
    ensures Rows(c.msgs) == Rows(Concat(lists)[from..At(lists, c.pos, c.offset)])
    ensures shown + Rows(c.msgs) == Rows(Concat(lists)[..At(lists, c.pos, c.offset)])
  {
    CollectCount(lists, pos, offset, PageSize);
    CollectSlice(lists, pos, offset, PageSize);
    PageRows(Concat(lists), from, from + |c.msgs|, c.msgs, shown);
  }

  /**
   * loadNextPage's effect on the paging state, in values: a non-empty page
   * moves the position to where the run stopped, past min(200, what is left)
   * more elements, and appends their rows; an empty page happens only at the
   * end, where there is nothing left to take.
   */
  lemma PageStep(lists: seq<seq<RawEmail>>, pos: nat, offset: nat, shown: seq<Row>,
                 c: Collected<RawEmail>, next: seq<Row>)
    requires Paged(lists, pos, offset, shown) && pos < |lists|
    requires c == Collect(lists, pos, offset, PageSize) && next == Rows(c.msgs)
    ensures InRange(lists, c.pos, c.offset)
    ensures var from, to := At(lists, pos, offset), At(lists, c.pos, c.offset);
      && to == from + Min(PageSize, |Concat(lists)| - from)
      && shown + next == shown + Rows(Concat(lists)[from..to])
      && (|next| > 0 ==> Paged(lists, c.pos, c.offset, shown + next))
      && (0 < |next| < PageSize ==> c.pos == |lists|)
      && (|next| == 0 ==> to == from && shown + next == shown)
  {
    var from := At(lists, pos, offset);
    NextPage(lists, pos, offset, shown, c, from);
  }

  /** The rows before a slice followed by the slice's rows are the rows up to its end. */
  lemma PageRows(flat: seq<RawEmail>, from: nat, to: nat, msgs: seq<RawEmail>, shown: seq<Row>)
    requires from <= to <= |flat| && msgs == flat[from..to]
    requires shown == Rows(flat[..from])
    ensures shown + Rows(msgs) == Rows(flat[..to])
  {
    var before := flat[..from];
    assert before == flat[0..from];
    JoinSlices(flat, 0, from, to, before, msgs);
    RowsAppend(before, msgs);
  }

  // ---------------------------------------------------------------------------
  // The inbox state.

  class Mailbox {
    const index: MonthIndex
    const bundle: Bundle
    /** allMonths: the available months, newest first. */
    const months: seq<MonthRef>
    /** monthCacheRef: "year/monthKey" -> that month's messages, newest first. */
    var cache: map<string, seq<RawEmail>>
    /** The keys passed to loadMonth, in call order. */
    ghost var loaded: seq<string>
    var monthPos: nat
    var monthOffset: nat
    var emails: seq<Row>

    /**
     * Each month's messages newest first, one list per entry of `months`:
     * what getMonthDesc returns for that month.
     */
    ghost const lists: seq<seq<RawEmail>>

    ghost predicate ListsValid() {
      && |lists| == |months|
      && forall i {:trigger MonthDesc(bundle, months[i])} :: 0 <= i < |months| ==> lists[i] == MonthDesc(bundle, months[i])
    }

    /** Every message of every month, newest month first and newest message first. */
    ghost function Flat(): seq<RawEmail> {
      Concat(lists)
    }

    /** How many messages of Flat() the paging has consumed. */
    ghost function Cursor(): nat
      reads this`monthPos, this`monthOffset
      requires monthPos <= |lists|
    {
      At(lists, monthPos, monthOffset)
    }

    /** The cache holds each loaded month's sorted list, and each key was loaded once. */
    ghost predicate CacheValid()
      reads this`cache, this`loaded
    {
      CacheOk(bundle, cache, loaded)
    }

    /**
     * The cursor points into a month (or just past the last one), and the rows
     * shown are those of every message before it.
     */
    ghost predicate PagingValid()
      reads this`monthPos, this`monthOffset, this`emails
    {
      Paged(lists, monthPos, monthOffset, emails)
    }

    ghost predicate Valid()
      reads this
    {
      ListsValid() && CacheOk(bundle, cache, loaded) && Paged(lists, monthPos, monthOffset, emails)
    }

    /** The screen's initial state; allMonths is computed once from the index. */
    constructor (index: MonthIndex, bundle: Bundle)
      ensures Valid()
      ensures this.index == index && this.bundle == bundle && months == SortMonths(IndexMonths(index))
      ensures emails == [] && monthPos == 0 && monthOffset == 0 && cache == map[] && loaded == []
    {
      this.index := index;
      this.bundle := bundle;
      var list := GetAvailableMonths(index);
      var sorted := SortMonths(list);
      months := sorted;
      lists := seq(|sorted|, i requires 0 <= i < |sorted| => MonthDesc(bundle, sorted[i]));
      cache := map[];
      loaded := [];
      monthPos := 0;
      monthOffset := 0;
      emails := [];
      new;
      assert lists[..0] == [];
    }

    /**
     * getMonthDesc: the month's messages newest first. The first request for a
     * key loads and sorts the month and caches it; a repeated request returns
     * the cached list, even an empty one, without loading again.
     */
    method GetMonthDesc(year: string, monthKey: string) returns (data: seq<RawEmail>)
      requires CacheValid()
      modifies this`cache, this`loaded
      ensures CacheValid()
      ensures data == KeyDesc(bundle, PathKey(year, monthKey))
      ensures PathKey(year, monthKey) in old(cache) ==> cache == old(cache) && loaded == old(loaded)
      ensures PathKey(year, monthKey) !in old(cache) ==>
        cache == old(cache)[PathKey(year, monthKey) := data] && loaded == old(loaded) + [PathKey(year, monthKey)]
    {
      var key := PathKey(year, monthKey);
      if key in cache {
        data := cache[key];
      } else {
        var m := LoadMonth(bundle, year, monthKey);
        assert m == (if key in bundle then bundle[key] else []);
        data := NewestFirst(m);
        cache := cache[key := data];
        loaded := loaded + [key];
      }
    }

    /**
     * The loop of loadNextPage: from the cursor on, takes messages month by
     * month (skipping months with nothing left) until 200 are taken or the
     * months run out, and returns their rows with the position it stopped at.
     * The cursor itself does not move.
     */
    method CollectPage() returns (next: seq<Row>, pos: nat, offset: nat)
      requires ListsValid() && CacheValid() && monthPos < |months|
      modifies this`cache, this`loaded
      ensures CacheValid()
      ensures var c := Collect(lists, monthPos, monthOffset, PageSize);
        next == Rows(c.msgs) && pos == c.pos && offset == c.offset
    {
      var added: nat := 0;
      next := [];
      pos := monthPos;
      offset := monthOffset;
      ghost var taken: seq<RawEmail> := [];
      ghost var goal := Collect(lists, pos, offset, PageSize);
      assert goal.msgs == taken + goal.msgs;
      while added < PageSize && pos < |months|
        invariant CacheValid()
        invariant pos <= |lists| && added <= PageSize
        invariant var c := Collect(lists, pos, offset, PageSize - added);
          goal.msgs == taken + c.msgs && goal.pos == c.pos && goal.offset == c.offset
        invariant next == Rows(taken)
        decreases |months| - pos, PageSize - added
      {
        var rows, pos', offset', added';
        ghost var slice;
        rows, pos', offset', added', slice := TakeMonth(pos, offset, added);
        PassTaken(lists, pos, offset, PageSize - added, pos', offset', PageSize - added', slice, goal, taken, next, rows);
        next := next + rows;
        taken := taken + slice;
        pos, offset, added := pos', offset', added';
      }
      assert taken + [] == taken;
    }

    /** One pass of loadNextPage's loop, at month `pos` with `added` messages already taken. */
    method TakeMonth(pos: nat, offset: nat, added: nat)
      returns (rows: seq<Row>, pos': nat, offset': nat, added': nat, ghost slice: seq<RawEmail>)
      requires ListsValid() && CacheValid() && pos < |months| && added < PageSize
      modifies this`cache, this`loaded
      ensures CacheValid()
      ensures added <= added' <= PageSize
      ensures pos' > pos || (pos' == pos && added' > added)
      ensures Step(lists, pos, offset, PageSize - added, pos', offset', PageSize - added', slice)
      ensures rows == Rows(slice)
    {
      var m := months[pos];
      var desc := GetMonthDesc(m.year, m.monthKey);
      assert desc == lists[pos] by {
        assert desc == MonthDesc(bundle, months[pos]);
      }
      var remaining := |desc| - offset;
      if remaining <= 0 {
        rows, pos', offset', added' := [], pos + 1, 0, added;
        slice := [];
        return;
      }
      var take: nat := Min(PageSize - added, remaining);
      var part := desc[offset..offset + take];
      rows := MapRows(part);
      slice := part;
      added' := added + take;
      offset' := offset + take;
      pos' := pos;
      if offset' >= |desc| {
        pos' := pos + 1;
        offset' := 0;
      }
    }

    /**
     * loadNextPage: appends the rows of the next (at most 200) messages of the
     * newest-first list, crossing month boundaries, and advances the cursor by
     * the number taken. A call that takes nothing changes neither the rows nor
     * the cursor; a page shorter than 200 exhausts the months.
     */
    method LoadNextPage()
      requires Valid()
      modifies this
      ensures Valid()
      ensures Cursor() == old(Cursor()) + Min(PageSize, |Flat()| - old(Cursor()))
      ensures emails == old(emails) + Rows(Flat()[old(Cursor())..Cursor()])
      ensures |emails| == |old(emails)| ==> monthPos == old(monthPos) && monthOffset == old(monthOffset)
      ensures 0 < |emails| - |old(emails)| < PageSize ==> monthPos == |months|
    {
      if monthPos >= |months| {
        AtBound(lists, monthPos, monthOffset);
        return;
      }
      ghost var c := Collect(lists, monthPos, monthOffset, PageSize);
      var next, pos, offset := CollectPage();
      PageStep(lists, monthPos, monthOffset, emails, c, next);
      if |next| > 0 {
        emails := emails + next;
        monthPos := pos;
        monthOffset := offset;
      }
    }

    /** The first render: loads the first page when there are months and no rows yet. */
    method Mount()
      requires Valid()
      modifies this
      ensures Valid()
      ensures old(emails) == [] && |months| > 0 ==> emails == Rows(Flat()[..Min(PageSize, |Flat()|)])
      ensures old(emails) != [] || |months| == 0 ==> emails == old(emails)
    {
      if |emails| == 0 && |months| > 0 {
        LoadNextPage();
      }
    }

    /** The "Load more conversations" button is shown. */
    predicate ShowLoadMore()
      reads this
    {
      monthPos < |months| || monthOffset > 0
    }

    /**
     * The button is shown exactly while some month is not yet passed; once it
     * is hidden the rows are those of every message of every month.
     */
    lemma LoadMoreHidden()
      requires Valid()
      ensures ShowLoadMore() <==> monthPos < |months|
      ensures !ShowLoadMore() ==> emails == Rows(Flat())
    {
      if monthPos == |months| {
        assert lists[..monthPos] == lists;
        assert Flat()[..|Flat()|] == Flat();
      }
    }
  }
}
