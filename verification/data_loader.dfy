/**
 * The client's access to the generated monthly shards (utils/dataLoader.ts).
 *
 * The month index (monthIndex.json) lists, per year, the month keys present,
 * such as "04_april". The bundler's static require map becomes `Bundle`, a map
 * from the path key "2023/04_april" to the shard's messages.
 */
module DataLoader {
  import opened Wrappers
  import opened Text

  /** A message as the client reads it from a shard. */
  datatype RawEmail = RawEmail(
    id: string, from: string, fromName: string, subject: string,
    body: string, timestamp: int, isRead: bool)

  /** One key of the month index with its list of month keys. */
  datatype YearEntry = YearEntry(year: string, months: seq<string>)

  /** The month index, its entries in the order Object.keys enumerates them. */
  type MonthIndex = seq<YearEntry>

  /** The bundled shards, keyed by "year/monthKey". */
  type Bundle = map<string, seq<RawEmail>>

  datatype MonthRef = MonthRef(year: string, monthKey: string)

  datatype LatestMonth = LatestMonth(year: string, monthKey: string, data: seq<RawEmail>)

  function PathKey(year: string, monthKey: string): string {
    year + "/" + monthKey
  }

  // ---------------------------------------------------------------------------
  // getAvailableMonths

  /** The months of one index entry, in their listed order. */
  function EntryMonths(e: YearEntry): (r: seq<MonthRef>)
    ensures |r| == |e.months|
    ensures forall j :: 0 <= j < |e.months| ==> r[j] == MonthRef(e.year, e.months[j])
  {
    seq(|e.months|, j requires 0 <= j < |e.months| => MonthRef(e.year, e.months[j]))
  }

  /** All (year, monthKey) pairs of the index: years in key order, months in listed order. */
  function IndexMonths(index: MonthIndex): seq<MonthRef> {
    if index == [] then [] else IndexMonths(index[..|index| - 1]) + EntryMonths(index[|index| - 1])
  }

  /** Total number of month keys listed in the index. */
  function MonthCount(index: MonthIndex): nat {
    if index == [] then 0 else MonthCount(index[..|index| - 1]) + |index[|index| - 1].months|
  }

  /** Position of month `j` of entry `i` in the flattened list. */
  function MonthPosition(index: MonthIndex, i: nat, j: nat): nat
    requires i <= |index|
  {
    MonthCount(index[..i]) + j
  }

  /**
   * getAvailableMonths: one pair per listed month key, so the length is the sum
   * of the list lengths, and month `j` of year entry `i` sits right after the
   * months of the entries before `i`.
   */
  lemma {:induction false} IndexMonthsLayout(index: MonthIndex)
    ensures |IndexMonths(index)| == MonthCount(index)
    ensures forall i, j :: 0 <= i < |index| && 0 <= j < |index[i].months| ==>
      MonthPosition(index, i, j) < |IndexMonths(index)| &&
      IndexMonths(index)[MonthPosition(index, i, j)] == MonthRef(index[i].year, index[i].months[j])
  {
    if index != [] {
      var n := |index| - 1;
      var front := index[..n];
      IndexMonthsLayout(front);
      var all := IndexMonths(index);
      assert all == IndexMonths(front) + EntryMonths(index[n]);
      forall i, j | 0 <= i < |index| && 0 <= j < |index[i].months|
        ensures MonthPosition(index, i, j) < |IndexMonths(index)| &&
          IndexMonths(index)[MonthPosition(index, i, j)] == MonthRef(index[i].year, index[i].months[j])
      {
        if i < n {
          assert index[..i] == front[..i];
          assert MonthPosition(index, i, j) == MonthPosition(front, i, j);
          assert front[i].months[j] == index[i].months[j];
        } else {
          assert index[..i] == front;
          assert all[MonthCount(front) + j] == EntryMonths(index[n])[j];
        }
      }
    }
  }

  /** getAvailableMonths: pushes every month of every year entry, in order. */
  method GetAvailableMonths(index: MonthIndex) returns (out: seq<MonthRef>)
    ensures out == IndexMonths(index)
  {
    out := [];
    for i := 0 to |index|
      invariant out == IndexMonths(index[..i])
    {
      var year := index[i].year;
      ghost var before := out;
      for j := 0 to |index[i].months|
        invariant out == before + EntryMonths(index[i])[..j]
      {
        out := out + [MonthRef(year, index[i].months[j])];
        assert EntryMonths(index[i])[..j + 1] == EntryMonths(index[i])[..j] + [MonthRef(year, index[i].months[j])];
      }
      assert EntryMonths(index[i])[..|index[i].months|] == EntryMonths(index[i]);
      assert index[..i + 1][..i] == index[..i];
    }
    assert index[..|index|] == index;
  }

  // ---------------------------------------------------------------------------
  // loadMonth

  /** loadMonth: the bundled shard for "year/monthKey", or no messages when it is absent. */
  function LoadMonth(bundle: Bundle, year: string, monthKey: string): (r: seq<RawEmail>)
    ensures PathKey(year, monthKey) in bundle ==> r == bundle[PathKey(year, monthKey)]
    ensures PathKey(year, monthKey) !in bundle ==> r == []
  {
    var key := PathKey(year, monthKey);
    if key in bundle then bundle[key] else []
  }

  // ---------------------------------------------------------------------------
  // loadLatestMonth

  /** Object.keys(monthIndex). */
  function Years(index: MonthIndex): (r: seq<string>)
    ensures |r| == |index| && forall i :: 0 <= i < |index| ==> r[i] == index[i].year
  {
    seq(|index|, i requires 0 <= i < |index| => index[i].year)
  }

  /** monthIndex[year]: the month list of the entry for `year`. */
  function YearMonths(index: MonthIndex, year: string): (r: Option<seq<string>>)
    ensures r.Some? <==> year in Years(index)
    ensures r.Some? ==> exists i :: 0 <= i < |index| && index[i] == YearEntry(year, r.value)
  {
    if index == [] then None
    else if index[0].year == year then Some(index[0].months)
    else YearMonths(index[1..], year)
  }

  /**
   * The last element of `keys` after the default sort: the greatest key in
   * code-unit order.
   */
  function GreatestKey(keys: seq<string>): (r: string)
    requires keys != []
    ensures r in keys
    ensures forall i :: 0 <= i < |keys| ==> !StrLess(r, keys[i])
  {
    if |keys| == 1 then
      StrLessIrreflexive(keys[0]);
      keys[0]
    else
      var m := GreatestKey(keys[1..]);
      if StrLess(m, keys[0]) then
        forall i | 0 <= i < |keys| ensures !StrLess(keys[0], keys[i]) {
          if i == 0 {
            StrLessIrreflexive(keys[0]);
          } else {
            assert keys[i] == keys[1..][i - 1];
            if StrLess(keys[0], keys[i]) {
              StrLessTransitive(m, keys[0], keys[i]);
            }
          }
        }
        keys[0]
      else
        StrLessTotal(m, keys[0]);
        StrLessIrreflexive(m);
        assert forall i :: 1 <= i < |keys| ==> keys[i] == keys[1..][i - 1];
        m
  }

  /** `year` is a key of the index and no key sorts after it. */
  ghost predicate IsGreatestYear(index: MonthIndex, year: string) {
    year in Years(index) && forall i :: 0 <= i < |index| ==> !StrLess(year, index[i].year)
  }

  /**
   * loadLatestMonth: null for an empty index or when the greatest year lists no
   * months; otherwise the last month listed under the greatest year, with its
   * messages as loadMonth gives them.
   */
  function LoadLatestMonth(index: MonthIndex, bundle: Bundle): (r: Option<LatestMonth>)
    ensures index == [] ==> r == None
    ensures r.None? && index != [] ==>
      exists y :: IsGreatestYear(index, y) && YearMonths(index, y) == Some([])
    ensures r.Some? ==>
      && IsGreatestYear(index, r.value.year)
      && YearMonths(index, r.value.year).Some?
      && var months := YearMonths(index, r.value.year).value;
      && months != []
      && r.value.monthKey == months[|months| - 1]
      && r.value.data == LoadMonth(bundle, r.value.year, r.value.monthKey)
  {
    if index == [] then None
    else
      var lastYear := GreatestKey(Years(index));
      var months := YearMonths(index, lastYear);
      if months.None? || months.value == [] then None
      else
        var lastMonthKey := months.value[|months.value| - 1];
        Some(LatestMonth(lastYear, lastMonthKey, LoadMonth(bundle, lastYear, lastMonthKey)))
  }
}
