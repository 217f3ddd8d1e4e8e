/** The weekly and monthly paths of `getSupporterGrowthTimeSeriesClient`
    (lib/queries-client.ts) over rows of the `mv_time_series_supporters`
    view, and `getVerifiedSupporterCountClient`. Dates are epoch
    milliseconds (UTC). */
module SeriesMerge {
  import opened Wrappers
  import opened Seqs
  import opened Sorting

  const MsPerDay: nat := 86400000

  /** A row of the view, for one viewpoint group and one period. The view's
      count columns are taken as non-null. */
  datatype MvRow = MvRow(periodType: string, period: string, date: int,
                         newSupporters: nat, cumulativeSupporters: nat, activeSupporters: nat)

  /** `TimeSeriesDataPoint`, with the date kept as epoch milliseconds. */
  datatype SeriesPoint = SeriesPoint(date: int, period: string,
                                     newSupporters: nat, cumulativeSupporters: nat, activeSupporters: nat)

  /** A single-group row passed through as it is. */
  function AsPoint(row: MvRow): SeriesPoint {
    SeriesPoint(row.date, row.period, row.newSupporters, row.cumulativeSupporters, row.activeSupporters)
  }

  /** A point that carries exactly the fields of a view row. */
  predicate SameFields(p: SeriesPoint, row: MvRow) {
    && p.date == row.date && p.period == row.period
    && p.newSupporters == row.newSupporters && p.cumulativeSupporters == row.cumulativeSupporters
    && p.activeSupporters == row.activeSupporters
  }

  function PassThrough(rows: seq<MvRow>): seq<SeriesPoint> {
    Map(rows, AsPoint)
  }

  /** `` `${row.period_type}-${row.period}` ``. */
  function PeriodKey(row: MvRow): string {
    row.periodType + "-" + row.period
  }

  /** A row with its map key, computed once. */
  datatype Keyed = Keyed(key: string, row: MvRow)

  function Tag(rows: seq<MvRow>): (ks: seq<Keyed>)
    ensures |ks| == |rows|
  {
    seq(|rows|, i requires 0 <= i < |rows| => Keyed(PeriodKey(rows[i]), rows[i]))
  }

  function Keys(rows: seq<Keyed>): (ks: seq<string>)
    ensures |ks| == |rows|
  {
    seq(|rows|, i requires 0 <= i < |rows| => rows[i].key)
  }

  lemma KeysSnoc(rows: seq<Keyed>)
    requires |rows| > 0
    ensures Keys(rows) == Keys(rows[..|rows| - 1]) + [rows[|rows| - 1].key]
  {
  }

  /** One entry of the `aggregated` map: the date and period of the first row
      with the key, the summed new count, and the largest cumulative and active
      counts. */
  datatype Agg = Agg(date: int, period: string, newSupporters: nat, cumulativeMax: nat, activeSupporters: nat)

  /** The map with its keys in insertion order. */
  datatype Acc = Acc(order: seq<string>, aggs: map<string, Agg>)

  function Max(a: nat, b: nat): nat {
    if a >= b then a else b
  }

  /** One iteration of the `for (const row of data)` aggregation loop. */
  function Step(acc: Acc, kr: Keyed): Acc {
    var k := kr.key;
    var row := kr.row;
    var base := if k in acc.aggs then acc.aggs[k] else Agg(row.date, row.period, 0, 0, 0);
    var order := if k in acc.aggs then acc.order else acc.order + [k];
    Acc(order, acc.aggs[k := Agg(base.date, base.period, base.newSupporters + row.newSupporters,
                                 Max(base.cumulativeMax, row.cumulativeSupporters),
                                 Max(base.activeSupporters, row.activeSupporters))])
  }

  function Fold(rows: seq<Keyed>): Acc
    decreases |rows|
  {
    if |rows| == 0 then Acc([], map[]) else Step(Fold(rows[..|rows| - 1]), rows[|rows| - 1])
  }

  /** The index of the first row with key `k`. */
  function FirstWith(rows: seq<Keyed>, k: string): (i: nat)
    requires k in Keys(rows)
    ensures i < |rows| && rows[i].key == k
    ensures forall j :: 0 <= j < i ==> rows[j].key != k
    decreases |rows|
  {
    if rows[0].key == k then 0
    else
      assert Keys(rows) == [rows[0].key] + Keys(rows[1..]);
      1 + FirstWith(rows[1..], k)
  }

  function SumNewFor(rows: seq<Keyed>, k: string): nat
    decreases |rows|
  {
    if |rows| == 0 then 0
    else SumNewFor(rows[..|rows| - 1], k) + (if rows[|rows| - 1].key == k then rows[|rows| - 1].row.newSupporters else 0)
  }

  function MaxCumulativeFor(rows: seq<Keyed>, k: string): nat
    decreases |rows|
  {
    if |rows| == 0 then 0
    else
      var rest := MaxCumulativeFor(rows[..|rows| - 1], k);
      if rows[|rows| - 1].key == k then Max(rest, rows[|rows| - 1].row.cumulativeSupporters) else rest
  }

  function MaxActiveFor(rows: seq<Keyed>, k: string): nat
    decreases |rows|
  {
    if |rows| == 0 then 0
    else
      var rest := MaxActiveFor(rows[..|rows| - 1], k);
      if rows[|rows| - 1].key == k then Max(rest, rows[|rows| - 1].row.activeSupporters) else rest
  }

  /** What the aggregation loop stores for key `k`, stated per key. */
  function Expected(rows: seq<Keyed>, k: string): Agg
    requires k in Keys(rows)
  {
    var first := rows[FirstWith(rows, k)];
    Agg(first.row.date, first.row.period, SumNewFor(rows, k), MaxCumulativeFor(rows, k), MaxActiveFor(rows, k))
  }

  lemma FirstWithPrefix(rows: seq<Keyed>, k: string)
    requires |rows| > 0 && k in Keys(rows[..|rows| - 1])
    ensures k in Keys(rows) && FirstWith(rows, k) == FirstWith(rows[..|rows| - 1], k)
  {
    var init := rows[..|rows| - 1];
    var j := FirstWith(init, k);
    assert rows[j].key == k;
    assert Keys(rows)[j] == k;
    var i := FirstWith(rows, k);
    assert forall m :: 0 <= m < j ==> rows[m].key == init[m].key;
  }

  /** The aggregation loop keeps its keys in order of first occurrence. */
  lemma {:induction false} FoldKeys(rows: seq<Keyed>)
    ensures Fold(rows).order == Dedup(Keys(rows))
    ensures forall k :: k in Fold(rows).aggs <==> k in Keys(rows)
    decreases |rows|
  {
    if |rows| > 0 {
      var init := rows[..|rows| - 1];
      var k := rows[|rows| - 1].key;
      FoldKeys(init);
      var ks := Keys(rows);
      KeysSnoc(rows);
      assert ks[..|ks| - 1] == Keys(init) && ks[|ks| - 1] == k;
      var d := Dedup(Keys(init));
      assert Dedup(ks) == if k in d then d else d + [k];
      assert k in d <==> k in Keys(init) by {
        DedupMember(Keys(init), k);
      }
      assert Fold(rows) == Step(Fold(init), rows[|rows| - 1]);
    }
  }

  lemma DedupMember<T>(s: seq<T>, x: T)
    ensures x in Dedup(s) <==> x in s
  {
    if x in s {
      var i :| 0 <= i < |s| && s[i] == x;
    }
    if x in Dedup(s) {
      var i :| 0 <= i < |Dedup(s)| && Dedup(s)[i] == x;
    }
  }

  /** For each key the loop holds the first row's date and period, the sum of
      the rows' new counts and the largest of their cumulative and active
      counts. */
  lemma {:induction false} FoldAt(rows: seq<Keyed>, k: string)
    requires k in Keys(rows)
    ensures k in Fold(rows).aggs && Fold(rows).aggs[k] == Expected(rows, k)
    decreases |rows|
  {
    var init := rows[..|rows| - 1];
    KeysSnoc(rows);
    if k in Keys(init) {
      FoldAt(init, k);
      FoldAtSeen(rows, k);
    } else {
      FoldAtFresh(rows, k);
    }
  }

  /** The last row updates the entry of a key seen before. */
  lemma FoldAtSeen(rows: seq<Keyed>, k: string)
    requires |rows| > 0 && k in Keys(rows[..|rows| - 1])
    requires var acc := Fold(rows[..|rows| - 1]);
      k in acc.aggs && acc.aggs[k] == Expected(rows[..|rows| - 1], k)
    ensures k in Keys(rows) && k in Fold(rows).aggs && Fold(rows).aggs[k] == Expected(rows, k)
  {
    FirstWithPrefix(rows, k);
    assert Fold(rows) == Step(Fold(rows[..|rows| - 1]), rows[|rows| - 1]);
  }

  /** The last row creates the entry of a key not seen before. */
  lemma FoldAtFresh(rows: seq<Keyed>, k: string)
    requires k in Keys(rows) && k !in Keys(rows[..|rows| - 1])
    ensures k in Fold(rows).aggs && Fold(rows).aggs[k] == Expected(rows, k)
  {
    var init := rows[..|rows| - 1];
    KeysSnoc(rows);
    FoldKeys(init);
    FirstIsLast(rows, k);
    SumNewForAbsent(init, k);
    MaxForAbsent(init, k);
    assert Fold(rows) == Step(Fold(init), rows[|rows| - 1]);
  }

  lemma FirstIsLast(rows: seq<Keyed>, k: string)
    requires |rows| > 0 && k == rows[|rows| - 1].key && k !in Keys(rows[..|rows| - 1])
    ensures k in Keys(rows) && FirstWith(rows, k) == |rows| - 1
  {
    assert Keys(rows)[|rows| - 1] == k;
    var i := FirstWith(rows, k);
    assert forall m :: 0 <= m < |rows| - 1 ==> Keys(rows[..|rows| - 1])[m] == rows[m].key;
  }

  lemma {:induction false} SumNewForAbsent(rows: seq<Keyed>, k: string)
    requires k !in Keys(rows)
    ensures SumNewFor(rows, k) == 0
    decreases |rows|
  {
    if |rows| > 0 {
      assert Keys(rows) == Keys(rows[..|rows| - 1]) + [rows[|rows| - 1].key];
      SumNewForAbsent(rows[..|rows| - 1], k);
    }
  }

  lemma {:induction false} MaxForAbsent(rows: seq<Keyed>, k: string)
    requires k !in Keys(rows)
    ensures MaxCumulativeFor(rows, k) == 0 && MaxActiveFor(rows, k) == 0
    decreases |rows|
  {
    if |rows| > 0 {
      assert Keys(rows) == Keys(rows[..|rows| - 1]) + [rows[|rows| - 1].key];
      MaxForAbsent(rows[..|rows| - 1], k);
    }
  }

  /** The per-key active count is the largest active count among that key's
      rows, and is one of them. */
  lemma {:induction false} MaxActiveForSpec(rows: seq<Keyed>, k: string)
    ensures forall i :: 0 <= i < |rows| && rows[i].key == k ==> rows[i].row.activeSupporters <= MaxActiveFor(rows, k)
    ensures k in Keys(rows) ==> exists i :: 0 <= i < |rows| && rows[i].key == k && rows[i].row.activeSupporters == MaxActiveFor(rows, k)
    decreases |rows|
  {
    if |rows| > 0 {
      var init := rows[..|rows| - 1];
      MaxActiveForSpec(init, k);
      assert Keys(rows) == Keys(init) + [rows[|rows| - 1].key];
      assert forall i :: 0 <= i < |init| ==> init[i] == rows[i];
      if k in Keys(rows) && k !in Keys(init) {
        MaxForAbsent(init, k);
      }
    }
  }

  function AggDate(a: Agg): real {
    a.date as real
  }

  function AggNew(a: Agg): nat {
    a.newSupporters
  }

  function RowNew(r: MvRow): int {
    r.newSupporters
  }

  /** The map's entries for `ks`, in that order. */
  function AggList(acc: Acc, ks: seq<string>): (r: seq<Agg>)
    ensures |r| == |ks|
    decreases |ks|
  {
    if |ks| == 0 then []
    else [if ks[0] in acc.aggs then acc.aggs[ks[0]] else Agg(0, "", 0, 0, 0)] + AggList(acc, ks[1..])
  }

  /** `Array.from(aggregated.entries())` sorted by date; ties keep insertion order. */
  function SortedAggs(rows: seq<Keyed>): (r: seq<Agg>)
    ensures SortedBy(r, AggDate)
  {
    var acc := Fold(rows);
    SortBy(AggList(acc, acc.order), AggDate)
  }

  /** `sorted.map(...)` with the running `cumulative` from `c`. */
  function Running(aggs: seq<Agg>, c: int): (ps: seq<SeriesPoint>)
    requires c >= 0
    ensures |ps| == |aggs|
    decreases |aggs|
  {
    if |aggs| == 0 then []
    else
      var a := aggs[0];
      [SeriesPoint(a.date, a.period, a.newSupporters, c + a.newSupporters, a.activeSupporters)]
        + Running(aggs[1..], c + a.newSupporters)
  }

  /** Each merged point copies its entry and carries the running sum of the
      new counts up to and including it. */
  lemma {:induction false} RunningSpec(aggs: seq<Agg>, c: int, i: nat)
    requires c >= 0 && i < |aggs|
    ensures var p := Running(aggs, c)[i];
      && p.date == aggs[i].date && p.period == aggs[i].period
      && p.newSupporters == aggs[i].newSupporters && p.activeSupporters == aggs[i].activeSupporters
      && p.cumulativeSupporters == c + SumF(aggs[..i + 1], AggNew)
    decreases |aggs|
  {
    if i > 0 {
      RunningSpec(aggs[1..], c + aggs[0].newSupporters, i - 1);
      assert aggs[..i + 1][1..] == aggs[1..][..i];
    }
  }

  /** Sum over distinct keys of the per-key new counts. */
  function SumKeys(rows: seq<Keyed>, ks: seq<string>): nat
    decreases |ks|
  {
    if |ks| == 0 then 0 else SumNewFor(rows, ks[0]) + SumKeys(rows, ks[1..])
  }

  /** Sum of the rows' new counts. */
  function SumRows(rows: seq<Keyed>): nat
    decreases |rows|
  {
    if |rows| == 0 then 0 else SumRows(rows[..|rows| - 1]) + rows[|rows| - 1].row.newSupporters
  }



  lemma {:induction false} SumKeysSnoc(rows: seq<Keyed>, ks: seq<string>)
    requires |rows| > 0
    ensures SumKeys(rows, ks) == SumKeys(rows[..|rows| - 1], ks) + CountEq(ks, rows[|rows| - 1].key) * rows[|rows| - 1].row.newSupporters
    decreases |ks|
  {
    if |ks| > 0 {
      SumKeysSnoc(rows, ks[1..]);
      var last := rows[|rows| - 1];
      var c := if ks[0] == last.key then 1 else 0;
      var r := CountEq(ks[1..], last.key);
      assert SumNewFor(rows, ks[0]) == SumNewFor(rows[..|rows| - 1], ks[0]) + c * last.row.newSupporters;
      assert CountEq(ks, last.key) == c + r;
      MulAdd(c, r, last.row.newSupporters);
    }
  }

  lemma MulAdd(a: nat, b: nat, n: nat)
    ensures (a + b) * n == a * n + b * n
  {
  }

  lemma {:induction false} SumKeysEmpty(ks: seq<string>)
    ensures SumKeys([], ks) == 0
    decreases |ks|
  {
    if |ks| > 0 {
      SumKeysEmpty(ks[1..]);
    }
  }

  /** Distinct keys covering every row split the rows' new counts. */
  lemma {:induction false} SumKeysPartition(rows: seq<Keyed>, ks: seq<string>)
    requires NoDups(ks) && forall i :: 0 <= i < |rows| ==> rows[i].key in ks
    ensures SumKeys(rows, ks) == SumRows(rows)
    decreases |rows|
  {
    if |rows| == 0 {
      SumKeysEmpty(ks);
    } else {
      SumKeysPartition(rows[..|rows| - 1], ks);
      SumKeysSnoc(rows, ks);
      CountEqOne(ks, rows[|rows| - 1].key);
    }
  }

  /** The entries listed for keys of the rows sum to the per-key sums. */
  lemma {:induction false} AggListSum(rows: seq<Keyed>, ks: seq<string>)
    requires forall i :: 0 <= i < |ks| ==> ks[i] in Keys(rows)
    ensures SumF(AggList(Fold(rows), ks), AggNew) == SumKeys(rows, ks)
    decreases |ks|
  {
    if |ks| > 0 {
      FoldAt(rows, ks[0]);
      AggListSum(rows, ks[1..]);
    }
  }

  /** The merged series' last cumulative count is the sum of every row's new
      count, whichever order the periods sort into. */
  lemma MergeTotal(rows: seq<MvRow>)
    requires |rows| > 0
    ensures var ps := MergeRows(rows);
      |ps| > 0 && ps[|ps| - 1].cumulativeSupporters == SumRows(Tag(rows))
  {
    var krs := Tag(rows);
    var sorted := SortedAggs(krs);
    SortedAggsTotal(krs);
    assert |sorted| > 0 by {
      assert Keys(krs)[0] in Dedup(Keys(krs));
    }
    RunningSpec(sorted, 0, |sorted| - 1);
    assert sorted[..|sorted|] == sorted;
    assert MergeRows(rows) == Running(sorted, 0);
  }

  /** One entry per distinct key, and together they hold every row's new count. */
  lemma SortedAggsTotal(krs: seq<Keyed>)
    ensures |SortedAggs(krs)| == |Dedup(Keys(krs))|
    ensures SumF(SortedAggs(krs), AggNew) == SumRows(krs)
  {
    var acc := Fold(krs);
    FoldKeys(krs);
    var list := AggList(acc, acc.order);
    forall i | 0 <= i < |acc.order| ensures acc.order[i] in Keys(krs) { }
    AggListSum(krs, acc.order);
    forall i | 0 <= i < |krs| ensures krs[i].key in acc.order {
      assert Keys(krs)[i] == krs[i].key;
    }
    SumKeysPartition(krs, acc.order);
    SumFPermutation(list, SortedAggs(krs), AggNew);
  }

  lemma {:induction false} AggListAt(acc: Acc, ks: seq<string>, m: nat)
    requires m < |ks| && ks[m] in acc.aggs
    ensures AggList(acc, ks)[m] == acc.aggs[ks[m]]
    decreases m
  {
    if m > 0 {
      AggListAt(acc, ks[1..], m - 1);
    }
  }

  /** Every merged entry is the aggregate of one period key. */
  lemma SortedAggsEntry(krs: seq<Keyed>, i: nat) returns (k: string)
    requires i < |SortedAggs(krs)|
    ensures k in Keys(krs) && SortedAggs(krs)[i] == Expected(krs, k)
  {
    var acc := Fold(krs);
    FoldKeys(krs);
    var list := AggList(acc, acc.order);
    assert SortedAggs(krs)[i] in multiset(list);
    var m := PositionOf(list, SortedAggs(krs)[i]);
    k := acc.order[m];
    AggListAt(acc, acc.order, m);
    FoldAt(krs, k);
  }

  /** Every period key of the rows has its own merged entry. */
  lemma SortedAggsCover(krs: seq<Keyed>, k: string) returns (i: nat)
    requires k in Keys(krs)
    ensures i < |SortedAggs(krs)| && SortedAggs(krs)[i] == Expected(krs, k)
  {
    var acc := Fold(krs);
    FoldKeys(krs);
    DedupMember(Keys(krs), k);
    var list := AggList(acc, acc.order);
    var m :| 0 <= m < |acc.order| && acc.order[m] == k;
    FoldAt(krs, k);
    AggListAt(acc, acc.order, m);
    assert list[m] in multiset(SortedAggs(krs));
    i := PositionOf(SortedAggs(krs), list[m]);
  }

  /** With several groups, each period key of the rows has a point: the
      date and period of the key's first row, the sum of its rows' new
      counts, and the largest of their active counts. */
  lemma MergeCovers(rows: seq<MvRow>, k: string) returns (i: nat)
    requires k in Keys(Tag(rows))
    ensures i < |MergeRows(rows)|
    ensures var p := MergeRows(rows)[i];
      var krs := Tag(rows);
      && p.date == rows[FirstWith(krs, k)].date && p.period == rows[FirstWith(krs, k)].period
      && p.newSupporters == SumNewFor(krs, k)
      && p.activeSupporters == MaxActiveFor(krs, k)
  {
    var krs := Tag(rows);
    i := SortedAggsCover(krs, k);
    RunningSpec(SortedAggs(krs), 0, i);
    assert krs[FirstWith(krs, k)].row == rows[FirstWith(krs, k)];
  }

  /** With several groups, each point is one period key's aggregate: the
      date and period of that key's first row, the sum of its rows' new
      counts, and the largest of their active counts; the points are in date
      order, one per distinct key. */
  lemma MergePoint(rows: seq<MvRow>, i: nat)
    ensures |MergeRows(rows)| == |Dedup(Keys(Tag(rows)))|
    ensures i < |MergeRows(rows)| ==>
      var p := MergeRows(rows)[i];
      var krs := Tag(rows);
      exists k :: k in Keys(krs)
        && p.date == rows[FirstWith(krs, k)].date && p.period == rows[FirstWith(krs, k)].period
        && p.newSupporters == SumNewFor(krs, k)
        && p.activeSupporters == MaxActiveFor(krs, k)
  {
    var krs := Tag(rows);
    SortedAggsTotal(krs);
    if i < |MergeRows(rows)| {
      var k := SortedAggsEntry(krs, i);
      RunningSpec(SortedAggs(krs), 0, i);
      assert krs[FirstWith(krs, k)].row == rows[FirstWith(krs, k)];
    }
  }

  /** The merged points are in date order. */
  lemma MergeOrdered(rows: seq<MvRow>, i: nat, j: nat)
    requires i < j < |MergeRows(rows)|
    ensures MergeRows(rows)[i].date <= MergeRows(rows)[j].date
  {
    var sorted := SortedAggs(Tag(rows));
    RunningSpec(sorted, 0, i);
    RunningSpec(sorted, 0, j);
    assert AggDate(sorted[i]) <= AggDate(sorted[j]);
  }

  /** The multi-group merge. */
  function MergeRows(rows: seq<MvRow>): seq<SeriesPoint> {
    Running(SortedAggs(Tag(rows)), 0)
  }

  /** The weekly and monthly result: the query error is thrown (and retried
      by the caller), no rows give an empty series, several network groups
      are merged and a single group's rows pass through unchanged. */
  function ViewSeries(networkSize: nat, queryFailed: bool, rows: seq<MvRow>): (r: Result<seq<SeriesPoint>, string>)
    ensures queryFailed <==> r.Failure?
    ensures r.Success? && |rows| == 0 ==> r.value == []
    ensures r.Success? && networkSize <= 1 ==>
      |r.value| == |rows| && forall i :: 0 <= i < |rows| ==> SameFields(r.value[i], rows[i])
    ensures r.Success? && networkSize > 1 ==> r.value == MergeRows(rows)
  {
    if queryFailed then Failure("query failed")
    else if |rows| == 0 then Success([])
    else if networkSize > 1 then Success(MergeRows(rows))
    else Success(PassThrough(rows))
  }

  /** A row of the daily view for the verified count. */
  datatype CountRow = CountRow(cumulativeSupporters: nat, date: int)

  /** `new Date(row.date).toISOString().split("T")[0]`, as a UTC day number. */
  function UtcDay(ms: int): int {
    ms / MsPerDay
  }

  function CumulativeOnDay(rows: seq<CountRow>, day: int): (r: seq<nat>)
    ensures |r| <= |rows|
    decreases |rows|
  {
    if |rows| == 0 then []
    else (if UtcDay(rows[0].date) == day then [rows[0].cumulativeSupporters] else []) + CumulativeOnDay(rows[1..], day)
  }

  /** `getVerifiedSupporterCountClient`: the rows come newest first, and the
      count is the largest cumulative count among the rows on the first row's
      day; no rows give 0 and a query error is thrown. */
  function VerifiedCount(queryFailed: bool, rows: seq<CountRow>): (r: Result<nat, string>)
    ensures r.Failure? <==> queryFailed
  {
    if queryFailed then Failure("query failed")
    else if |rows| == 0 then Success(0)
    else Success(MaxNat(CumulativeOnDay(rows, UtcDay(rows[0].date))))
  }

  lemma {:induction false} CumulativeOnDaySpec(rows: seq<CountRow>, day: int, x: nat)
    ensures x in CumulativeOnDay(rows, day) <==> exists i :: 0 <= i < |rows| && UtcDay(rows[i].date) == day && rows[i].cumulativeSupporters == x
    decreases |rows|
  {
    if |rows| > 0 {
      CumulativeOnDaySpec(rows[1..], day, x);
      if exists i :: 0 <= i < |rows| && UtcDay(rows[i].date) == day && rows[i].cumulativeSupporters == x {
        var i :| 0 <= i < |rows| && UtcDay(rows[i].date) == day && rows[i].cumulativeSupporters == x;
        if i > 0 {
          assert rows[1..][i - 1] == rows[i];
        }
      }
      if x in CumulativeOnDay(rows[1..], day) {
        var i :| 0 <= i < |rows| - 1 && UtcDay(rows[1..][i].date) == day && rows[1..][i].cumulativeSupporters == x;
        assert rows[i + 1] == rows[1..][i];
      }
    }
  }

  /** The verified count is the cumulative count of some row on the latest
      day and no row on that day has a larger one; no rows give 0. */
  lemma VerifiedCountSpec(rows: seq<CountRow>)
    ensures |rows| == 0 ==> VerifiedCount(false, rows) == Success(0)
    ensures |rows| > 0 ==>
      var n := VerifiedCount(false, rows).value;
      var day := UtcDay(rows[0].date);
      && (exists i :: 0 <= i < |rows| && UtcDay(rows[i].date) == day && rows[i].cumulativeSupporters == n)
      && (forall i :: 0 <= i < |rows| && UtcDay(rows[i].date) == day ==> rows[i].cumulativeSupporters <= n)
  {
    if |rows| > 0 {
      var day := UtcDay(rows[0].date);
      var vals := CumulativeOnDay(rows, day);
      var n := MaxNat(vals);
      CumulativeOnDaySpec(rows, day, rows[0].cumulativeSupporters);
      assert n in vals;
      CumulativeOnDaySpec(rows, day, n);
      forall i | 0 <= i < |rows| && UtcDay(rows[i].date) == day ensures rows[i].cumulativeSupporters <= n {
        CumulativeOnDaySpec(rows, day, rows[i].cumulativeSupporters);
        var m :| 0 <= m < |vals| && vals[m] == rows[i].cumulativeSupporters;
      }
    }
  }
}
