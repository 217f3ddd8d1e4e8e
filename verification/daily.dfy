/** The daily path of `getSupporterGrowthTimeSeriesClient`
    (lib/queries-client.ts): the `mv_time_series_supporters` rows when the
    view has any, and otherwise a series computed from the supporter records:
    distinct supporters per UTC day, the supporters seen up to that day, and
    the supporters with a record in the 30 days up to the day's midnight.
    Times are epoch milliseconds (UTC). */
module DailySeries {
  import opened Wrappers
  import opened Seqs
  import opened Sorting
  import opened SeriesMerge

  /** A supporter record with a creation time (the query drops the others). */
  datatype DailyRecord = DailyRecord(createdAt: int, profileId: Option<Id>)

  /** A computed point: the day's midnight as a day number, and three counts. */
  datatype DayPoint = DayPoint(day: int, newSupporters: nat, cumulativeSupporters: nat, activeSupporters: nat)

  /** A record with its `toISOString()` date, computed once. */
  datatype Entry = Entry(day: int, createdAt: int, profileId: Option<Id>)

  function Stamp(records: seq<DailyRecord>): (es: seq<Entry>)
    ensures |es| == |records|
  {
    seq(|records|, i requires 0 <= i < |records| => Entry(UtcDay(records[i].createdAt), records[i].createdAt, records[i].profileId))
  }

  /** Each entry's day is the day its time falls in. */
  ghost predicate Stamped(es: seq<Entry>) {
    forall i :: 0 <= i < |es| ==> es[i].day == UtcDay(es[i].createdAt)
  }

  lemma StampStamped(records: seq<DailyRecord>)
    ensures Stamped(Stamp(records))
  {
  }

  lemma DayBounds(t: int)
    ensures UtcDay(t) * MsPerDay <= t < (UtcDay(t) + 1) * MsPerDay
  {
  }

  /** Supporters with a record on day `d`. */
  function OnDay(es: seq<Entry>, d: int): set<Option<Id>> {
    set r | r in es && r.day == d :: r.profileId
  }

  /** Supporters with a record on one of the days `ds`. */
  function OnDays(es: seq<Entry>, ds: seq<int>): set<Option<Id>> {
    set r | r in es && r.day in ds :: r.profileId
  }

  /** Supporters with a record on day `d` or earlier. */
  function UpTo(es: seq<Entry>, d: int): set<Option<Id>> {
    set r | r in es && r.day <= d :: r.profileId
  }

  /** `recordDate >= thirtyDaysAgo && recordDate <= dayDate`, with `dayDate`
      the midnight starting day `d`. */
  predicate InActiveWindow(r: Entry, d: int) {
    (d - 30) * MsPerDay <= r.createdAt <= d * MsPerDay
  }

  function ActiveAt(es: seq<Entry>, d: int): set<Option<Id>> {
    set r | r in es && InActiveWindow(r, d) :: r.profileId
  }

  function DayKeys(es: seq<Entry>): (ds: seq<int>)
    ensures |ds| == |es|
  {
    seq(|es|, i requires 0 <= i < |es| => es[i].day)
  }

  function DayKey(d: int): real {
    d as real
  }

  /** The `dailyMap` keys sorted by their midnight. */
  function SortedDays(es: seq<Entry>): seq<int> {
    SortBy(Dedup(DayKeys(es)), DayKey)
  }

  /** The days are strictly increasing and are exactly the entries' days. */
  lemma SortedDaysSpec(es: seq<Entry>)
    ensures var ds := SortedDays(es);
      && (forall i, j :: 0 <= i < j < |ds| ==> ds[i] < ds[j])
      && (forall i :: 0 <= i < |es| ==> es[i].day in ds)
      && (forall i :: 0 <= i < |ds| ==> exists j :: 0 <= j < |es| && es[j].day == ds[i])
  {
    SortedDaysIncreasing(es);
    SortedDaysCover(es);
    var ds := SortedDays(es);
    forall i | 0 <= i < |ds| ensures exists j :: 0 <= j < |es| && es[j].day == ds[i] {
      var j := DayWitness(es, i);
    }
  }

  lemma SortedDaysIncreasing(es: seq<Entry>)
    ensures var ds := SortedDays(es); forall i, j :: 0 <= i < j < |ds| ==> ds[i] < ds[j]
  {
    PermutationNoDups(Dedup(DayKeys(es)), SortedDays(es));
  }

  lemma SortedDaysCover(es: seq<Entry>)
    ensures forall i :: 0 <= i < |es| ==> es[i].day in SortedDays(es)
  {
    var ds := SortedDays(es);
    var d := Dedup(DayKeys(es));
    forall i | 0 <= i < |es| ensures es[i].day in ds {
      assert DayKeys(es)[i] in d;
      assert es[i].day in multiset(ds);
    }
  }

  /** The entry a day comes from. */
  lemma DayWitness(es: seq<Entry>, i: nat) returns (j: nat)
    requires i < |SortedDays(es)|
    ensures j < |es| && es[j].day == SortedDays(es)[i]
  {
    var ds := SortedDays(es);
    var d := Dedup(DayKeys(es));
    assert ds[i] in multiset(d);
    var m := PositionOf(d, ds[i]);
    j := PositionOf(DayKeys(es), d[m]);
  }

  /** The `for (const [dayKey, dayData] of sortedDays)` loop, with the
      `cumulativeSet` so far as `seen`. */
  function Walk(es: seq<Entry>, days: seq<int>, seen: set<Option<Id>>): (ps: seq<DayPoint>)
    ensures |ps| == |days|
    decreases |days|
  {
    if |days| == 0 then []
    else
      var d := days[0];
      var seen' := seen + OnDay(es, d);
      [DayPoint(d, |OnDay(es, d)|, |seen'|, |ActiveAt(es, d)|)] + Walk(es, days[1..], seen')
  }

  lemma OnDaysCons(es: seq<Entry>, ds: seq<int>)
    requires |ds| > 0
    ensures OnDays(es, ds) == OnDay(es, ds[0]) + OnDays(es, ds[1..])
  {
    assert forall x :: x in ds <==> x == ds[0] || x in ds[1..];
  }

  /** Each point's cumulative count is the size of the starting set joined
      with the supporters of the days so far. */
  lemma {:induction false} WalkSpec(es: seq<Entry>, days: seq<int>, seen: set<Option<Id>>, i: nat)
    requires i < |days|
    ensures Walk(es, days, seen)[i] ==
      DayPoint(days[i], |OnDay(es, days[i])|, |seen + OnDays(es, days[..i + 1])|, |ActiveAt(es, days[i])|)
    decreases i
  {
    var seen' := seen + OnDay(es, days[0]);
    OnDaysPrefix(es, days, i);
    if i > 0 {
      WalkSpec(es, days[1..], seen', i - 1);
      assert days[1..][i - 1] == days[i];
      assert seen' + OnDays(es, days[1..][..i]) == seen + OnDays(es, days[..i + 1]);
    }
  }

  /** The first `i + 1` days are the first day and the next `i`. */
  lemma OnDaysPrefix(es: seq<Entry>, days: seq<int>, i: nat)
    requires i < |days|
    ensures OnDays(es, days[..i + 1]) == OnDay(es, days[0]) + OnDays(es, days[1..][..i])
    ensures i == 0 ==> OnDays(es, days[1..][..i]) == {}
  {
    OnDaysCons(es, days[..i + 1]);
    assert days[..i + 1][1..] == days[1..][..i];
  }

  /** The computed series. */
  function DailyPoints(es: seq<Entry>): seq<DayPoint> {
    Walk(es, SortedDays(es), {})
  }

  /** The days up to the `i`-th are exactly the days not after it. */
  lemma PrefixDays(es: seq<Entry>, i: nat)
    requires i < |SortedDays(es)|
    ensures OnDays(es, SortedDays(es)[..i + 1]) == UpTo(es, SortedDays(es)[i])
  {
    var ds := SortedDays(es);
    var pre := ds[..i + 1];
    forall r | r in es ensures r.day in pre <==> r.day <= ds[i] {
      var j := PositionOfDay(es, r);
      if r.day <= ds[i] {
        assert j <= i by {
          SortedDaysIncreasing(es);
        }
        assert pre[j] == r.day;
      }
      if r.day in pre {
        var m :| 0 <= m < |pre| && pre[m] == r.day;
        assert ds[m] <= ds[i] by {
          SortedDaysIncreasing(es);
        }
      }
    }
    SameDaysSameSet(es, pre, ds[i]);
  }

  /** Records selected by day list or by a last day give the same supporters
      when the two selections agree on every record. */
  lemma SameDaysSameSet(es: seq<Entry>, ds: seq<int>, d: int)
    requires forall r :: r in es ==> (r.day in ds <==> r.day <= d)
    ensures OnDays(es, ds) == UpTo(es, d)
  {
    forall x ensures x in OnDays(es, ds) <==> x in UpTo(es, d) {
      if x in OnDays(es, ds) {
        var r :| r in es && r.day in ds && r.profileId == x;
      }
      if x in UpTo(es, d) {
        var r :| r in es && r.day <= d && r.profileId == x;
      }
    }
  }

  lemma PositionOfDay(es: seq<Entry>, r: Entry) returns (j: nat)
    requires r in es
    ensures j < |SortedDays(es)| && SortedDays(es)[j] == r.day
  {
    SortedDaysSpec(es);
    var k :| 0 <= k < |es| && es[k] == r;
    assert es[k].day in SortedDays(es);
    j :| 0 <= j < |SortedDays(es)| && SortedDays(es)[j] == r.day;
  }

  /** A record inside a day's window is from that day or earlier. */
  lemma ActiveNotLater(es: seq<Entry>, d: int)
    requires Stamped(es)
    ensures ActiveAt(es, d) <= UpTo(es, d)
  {
    forall r | r in es && InActiveWindow(r, d) ensures r.day <= d {
      var k :| 0 <= k < |es| && es[k] == r;
      DayBounds(r.createdAt);
    }
  }

  /** Point `i` is for the `i`-th distinct day; it counts the day's distinct
      supporters, every supporter seen up to that day (at least as many), and
      the distinct supporters in the window ending at that day's midnight. */
  lemma DailyPointSpec(es: seq<Entry>, i: nat)
    requires i < |DailyPoints(es)|
    ensures var p := DailyPoints(es)[i];
      && p.day == SortedDays(es)[i]
      && p.newSupporters == |OnDay(es, p.day)|
      && p.cumulativeSupporters == |UpTo(es, p.day)|
      && p.activeSupporters == |ActiveAt(es, p.day)|
      && p.newSupporters <= p.cumulativeSupporters
  {
    var d := SortedDays(es)[i];
    WalkSpec(es, SortedDays(es), {}, i);
    PrefixDays(es, i);
    assert {} + UpTo(es, d) == UpTo(es, d);
    SubsetCardinality(OnDay(es, d), UpTo(es, d));
  }

  /** Everyone active at a day was already seen by then, since the window
      ends at the day's midnight. */
  lemma DailyActiveBound(es: seq<Entry>, i: nat)
    requires Stamped(es) && i < |DailyPoints(es)|
    ensures DailyPoints(es)[i].activeSupporters <= DailyPoints(es)[i].cumulativeSupporters
  {
    var d := SortedDays(es)[i];
    DailyPointSpec(es, i);
    ActiveNotLater(es, d);
    SubsetCardinality(ActiveAt(es, d), UpTo(es, d));
  }

  /** Cumulative counts never decrease. */
  lemma DailyCumulativeMonotone(es: seq<Entry>, i: nat, j: nat)
    requires i < j < |DailyPoints(es)|
    ensures DailyPoints(es)[i].cumulativeSupporters <= DailyPoints(es)[j].cumulativeSupporters
  {
    DailyPointSpec(es, i);
    DailyPointSpec(es, j);
    SortedDaysSpec(es);
    var ds := SortedDays(es);
    assert UpTo(es, ds[i]) <= UpTo(es, ds[j]);
    SubsetCardinality(UpTo(es, ds[i]), UpTo(es, ds[j]));
  }

  /** Every supporter among the entries. */
  function AllSupporters(es: seq<Entry>): set<Option<Id>> {
    set r | r in es :: r.profileId
  }

  /** The last cumulative count is the number of distinct supporters among
      all the entries. */
  lemma DailyTotal(es: seq<Entry>) returns (last: nat)
    requires |es| > 0
    ensures last + 1 == |DailyPoints(es)|
    ensures DailyPoints(es)[last].cumulativeSupporters == |AllSupporters(es)|
  {
    var ds := SortedDays(es);
    SortedDaysCover(es);
    assert es[0].day in ds;
    last := |ds| - 1;
    DailyPointSpec(es, last);
    LastDayCoversAll(es);
  }

  lemma LastDayCoversAll(es: seq<Entry>)
    requires |SortedDays(es)| > 0
    ensures UpTo(es, SortedDays(es)[|SortedDays(es)| - 1]) == AllSupporters(es)
  {
    var ds := SortedDays(es);
    var last := ds[|ds| - 1];
    forall r | r in es ensures r.day <= last {
      var j := PositionOfDay(es, r);
      if j < |ds| - 1 {
        assert ds[j] < last by {
          SortedDaysIncreasing(es);
        }
      }
    }
    forall x ensures x in UpTo(es, last) <==> x in AllSupporters(es) {
      if x in AllSupporters(es) {
        var r :| r in es && r.profileId == x;
      }
    }
  }

  /** One supporter with a record on day 0 and another on day 1. */
  function TwoDayEntries(): seq<Entry> {
    [Entry(0, 0, Some("a")), Entry(1, MsPerDay, Some("a"))]
  }

  /** The cumulative count is a count of distinct supporters, not a running
      sum: one supporter recorded on two days counts once. */
  lemma CumulativeIsNotRunningSum()
    ensures var ps := DailyPoints(TwoDayEntries());
      && |ps| == 2
      && ps[0].newSupporters == 1 && ps[1].newSupporters == 1
      && ps[1].cumulativeSupporters == 1
  {
    var es := TwoDayEntries();
    TwoDays();
    DailyPointSpec(es, 0);
    DailyPointSpec(es, 1);
    TwoDaySets();
  }

  lemma TwoDays()
    ensures SortedDays(TwoDayEntries()) == [0, 1]
  {
    var es := TwoDayEntries();
    var ds := SortedDays(es);
    assert es[0].day == 0 && es[1].day == 1;
    assert 0 in ds && 1 in ds by {
      SortedDaysCover(es);
    }
    assert |ds| <= 2 by {
      assert |Dedup(DayKeys(es))| <= |DayKeys(es)| == 2;
    }
    var i :| 0 <= i < |ds| && ds[i] == 0;
    var j :| 0 <= j < |ds| && ds[j] == 1;
    assert i < j by {
      SortedDaysIncreasing(es);
    }
    assert i == 0 && j == 1 && |ds| == 2;
    PairIs(ds, 0, 1);
  }

  lemma PairIs(s: seq<int>, a: int, b: int)
    requires |s| == 2 && s[0] == a && s[1] == b
    ensures s == [a, b]
  {
  }

  lemma TwoDaySets()
    ensures OnDay(TwoDayEntries(), 0) == {Some("a")}
    ensures OnDay(TwoDayEntries(), 1) == {Some("a")}
    ensures UpTo(TwoDayEntries(), 1) == {Some("a")}
  {
    var es := TwoDayEntries();
    assert es[0] in es && es[1] in es;
  }

  /** What the daily path returns: the view's rows, or the computed series. */
  datatype DailyResult = FromView(points: seq<SeriesPoint>) | Computed(days: seq<DayPoint>)

  /** The daily path: the view's rows when its query succeeds with rows;
      otherwise the fallback query, whose error is thrown (and retried by the
      caller), with no records giving an empty series. */
  function DailyGrowth(viewFailed: bool, viewRows: seq<MvRow>, recordsFailed: bool,
                       records: seq<DailyRecord>): (r: Result<DailyResult, string>)
    ensures r.Success? && r.value.FromView? ==> !viewFailed && |viewRows| > 0 && |r.value.points| == |viewRows|
    ensures r.Success? && r.value.FromView? ==> forall i :: 0 <= i < |viewRows| ==> SameFields(r.value.points[i], viewRows[i])
    ensures !viewFailed && |viewRows| > 0 ==> r.Success? && r.value.FromView?
    ensures r.Failure? <==> (viewFailed || |viewRows| == 0) && recordsFailed
  {
    if !viewFailed && |viewRows| > 0 then Success(FromView(PassThrough(viewRows)))
    else if recordsFailed then Failure("daily query failed")
    else if |records| == 0 then Success(Computed([]))
    else Success(Computed(DailyPoints(Stamp(records))))
  }
}
