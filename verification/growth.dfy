/** `getSupporterGrowthTimeSeries` (lib/queries.ts): supporter rows bucketed
    by month or ISO week, with running totals and a 30-day activity count per
    bucket. Instants are local time. */
module GrowthSeries {
  import opened Wrappers
  import opened Seqs
  import opened Strings
  import opened Calendar

  datatype Point = Point(endDay: int, period: string, newSupporters: nat, cumulativeSupporters: nat, activeSupporters: nat)

  /** The rows with a creation time, in query order. */
  function Dated(createdAts: seq<Option<Instant>>): (r: seq<Instant>)
    ensures |r| <= |createdAts|
    ensures forall t :: t in r ==> Some(t) in createdAts
    ensures forall o :: o in createdAts && o.Some? ==> o.value in r
    decreases |createdAts|
  {
    if |createdAts| == 0 then []
    else match createdAts[0]
      case None => Dated(createdAts[1..])
      case Some(t) => [t] + Dated(createdAts[1..])
  }

  function KeyOf(t: Instant, kind: PeriodKind): string {
    FormatPeriod(t.date, kind)
  }

  /** A dated row with the period key `formatPeriod` gives it, and its
      instant in milliseconds (`new Date(created_at).getTime()`). */
  datatype Tagged = Tagged(key: string, at: Instant, millis: int)

  function Tag(dates: seq<Instant>, kind: PeriodKind): (r: seq<Tagged>)
    ensures |r| == |dates|
  {
    seq(|dates|, i requires 0 <= i < |dates| => Tagged(KeyOf(dates[i], kind), dates[i], Millis(dates[i])))
  }

  /** `periodMap.get(key)`: the dates with that key, in row order. */
  function Bucket(tags: seq<Tagged>, key: string): (b: seq<Instant>)
    ensures |b| <= |tags|
    decreases |tags|
  {
    if |tags| == 0 then []
    else (if tags[0].key == key then [tags[0].at] else []) + Bucket(tags[1..], key)
  }

  /** The rows as (key, date) pairs. */
  function KeyedDates(tags: seq<Tagged>): (r: seq<(string, Instant)>)
    ensures |r| == |tags|
  {
    seq(|tags|, i requires 0 <= i < |tags| => (tags[i].key, tags[i].at))
  }

  /** A bucket holds each tagged date with that key, as often as it occurs. */
  lemma {:induction false} BucketExact(tags: seq<Tagged>, key: string, t: Instant)
    ensures multiset(Bucket(tags, key))[t] == multiset(KeyedDates(tags))[(key, t)]
    decreases |tags|
  {
    if |tags| > 0 {
      BucketExact(tags[1..], key, t);
      assert KeyedDates(tags) == [(tags[0].key, tags[0].at)] + KeyedDates(tags[1..]);
    }
  }

  /** The tagged rows pair each date with its period key. */
  lemma KeyedDatesOfTag(dates: seq<Instant>, kind: PeriodKind)
    ensures |KeyedDates(Tag(dates, kind))| == |dates|
    ensures forall i :: 0 <= i < |dates| ==> KeyedDates(Tag(dates, kind))[i] == (KeyOf(dates[i], kind), dates[i])
  {
  }

  /** A date lands in the bucket of `key` exactly when it is one of the rows'
      dates and `formatPeriod` gives it that key. */
  lemma BucketOfTag(dates: seq<Instant>, kind: PeriodKind, key: string, t: Instant)
    ensures t in Bucket(Tag(dates, kind), key) <==> t in dates && KeyOf(t, kind) == key
  {
    var tags := Tag(dates, kind);
    var kd := KeyedDates(tags);
    KeyedDatesOfTag(dates, kind);
    BucketExact(tags, key, t);
    assert t in Bucket(tags, key) <==> (key, t) in kd;
    if (key, t) in kd {
      var i :| 0 <= i < |kd| && kd[i] == (key, t);
      assert dates[i] == t;
    }
    if t in dates && KeyOf(t, kind) == key {
      var i :| 0 <= i < |dates| && dates[i] == t;
      assert kd[i] == (key, t);
    }
  }

  function Keys(tags: seq<Tagged>): (ks: seq<string>)
    ensures |ks| == |tags|
  {
    seq(|tags|, i requires 0 <= i < |tags| => tags[i].key)
  }

  /** `Array.from(periodMap.keys()).sort()`. */
  function SortedKeys(tags: seq<Tagged>): seq<string> {
    SortStrings(Dedup(Keys(tags)))
  }

  /** The period keys are distinct, in increasing order, and are exactly the
      keys of the rows. */
  lemma SortedKeysSpec(tags: seq<Tagged>)
    ensures var ks := SortedKeys(tags);
      && (forall i, j :: 0 <= i < j < |ks| ==> StrLt(ks[i], ks[j]))
      && (forall k :: k in ks <==> exists i :: 0 <= i < |tags| && tags[i].key == k)
  {
    var ks := SortedKeys(tags);
    SortedDistinct(Keys(tags));
    assert forall i, j :: 0 <= i < j < |ks| ==> StrLt(ks[i], ks[j]);
    forall k ensures k in ks <==> exists i :: 0 <= i < |tags| && tags[i].key == k {
      var keys := Keys(tags);
      assert k in ks <==> k in keys;
      if k in keys {
        var i :| 0 <= i < |keys| && keys[i] == k;
        assert tags[i].key == k;
      }
      if exists i :: 0 <= i < |tags| && tags[i].key == k {
        var i :| 0 <= i < |tags| && tags[i].key == k;
        assert keys[i] == k;
      }
    }
  }

  /** Sorting the distinct strings of `ks` gives them in increasing order. */
  lemma SortedDistinct(ks: seq<string>)
    ensures var s := SortStrings(Dedup(ks));
      && (forall i, j :: 0 <= i < j < |s| ==> StrLt(s[i], s[j]))
      && (forall k :: k in s <==> k in ks)
  {
    var s := SortStrings(Dedup(ks));
    var d := Dedup(ks);
    PermutationNoDups(d, s);
    forall i, j | 0 <= i < j < |s| ensures StrLt(s[i], s[j]) {
      StrLtTotal(s[i], s[j]);
    }
    forall k ensures k in s <==> k in ks {
      assert k in s <==> k in multiset(d);
    }
  }

  /** An instant, in milliseconds, in the window `[periodEnd - 30 days,
      periodEnd]`, with `periodEnd` at midnight of `endDay`. */
  predicate InWindow(millis: int, endDay: int) {
    (endDay - 30) * MsPerDay <= millis <= endDay * MsPerDay
  }

  /** The number of dates in the bucket of `key` inside the window. */
  function ActiveIn(tags: seq<Tagged>, key: string, endDay: int): (n: nat)
    ensures n <= |Bucket(tags, key)|
    decreases |tags|
  {
    if |tags| == 0 then 0
    else (if tags[0].key == key && InWindow(tags[0].millis, endDay) then 1 else 0) + ActiveIn(tags[1..], key, endDay)
  }

  /** `(d) => d >= thirtyDaysAgo && d <= periodEnd` for the period ending at
      midnight of `endDay`, with `ms` reading a date in milliseconds. */
  function WindowBy(ms: Instant -> int, endDay: int): Instant -> bool {
    (d: Instant) => InWindow(ms(d), endDay)
  }

  /** Every row's milliseconds are `ms` of its date. */
  ghost predicate WellTagged(tags: seq<Tagged>, ms: Instant -> int) {
    forall i :: 0 <= i < |tags| ==> tags[i].millis == ms(tags[i].at)
  }

  lemma TagWellTagged(dates: seq<Instant>, kind: PeriodKind)
    ensures WellTagged(Tag(dates, kind), Millis)
  {
  }

  /** The active count of a key is the number of dates of its bucket inside
      the window, as `dates.filter(...).length` computes it. */
  lemma {:induction false} ActiveInWindow(tags: seq<Tagged>, key: string, endDay: int, ms: Instant -> int)
    requires WellTagged(tags, ms)
    ensures ActiveIn(tags, key, endDay) == Count(Bucket(tags, key), WindowBy(ms, endDay))
    decreases |tags|
  {
    if |tags| > 0 {
      var rest := tags[1..];
      assert WellTagged(rest, ms) by {
        forall i | 0 <= i < |rest| ensures rest[i].millis == ms(rest[i].at) {
          assert rest[i] == tags[i + 1];
        }
      }
      ActiveInWindow(rest, key, endDay, ms);
      var w := WindowBy(ms, endDay);
      if tags[0].key == key {
        assert Bucket(tags, key) == [tags[0].at] + Bucket(rest, key);
        assert w(tags[0].at) == InWindow(tags[0].millis, endDay);
        CountCons(tags[0].at, Bucket(rest, key), w);
      } else {
        assert Bucket(tags, key) == Bucket(rest, key);
      }
    }
  }

  /** Sum of the bucket sizes of `keys`. */
  function SumBuckets(tags: seq<Tagged>, keys: seq<string>): nat
    decreases |keys|
  {
    if |keys| == 0 then 0 else |Bucket(tags, keys[0])| + SumBuckets(tags, keys[1..])
  }


  lemma {:induction false} SumBucketsCons(t: Tagged, rest: seq<Tagged>, keys: seq<string>)
    ensures SumBuckets([t] + rest, keys) == SumBuckets(rest, keys) + CountEq(keys, t.key)
    decreases |keys|
  {
    if |keys| > 0 {
      SumBucketsCons(t, rest, keys[1..]);
      assert ([t] + rest)[1..] == rest;
    }
  }


  /** Distinct keys that cover every row's key split the rows: their bucket
      sizes add up to the number of rows. */
  lemma {:induction false} SumBucketsPartition(tags: seq<Tagged>, keys: seq<string>)
    requires NoDups(keys)
    requires forall i :: 0 <= i < |tags| ==> tags[i].key in keys
    ensures SumBuckets(tags, keys) == |tags|
    decreases |tags|
  {
    if |tags| == 0 {
      SumBucketsEmpty(keys);
    } else {
      SumBucketsPartition(tags[1..], keys);
      assert tags == [tags[0]] + tags[1..];
      SumBucketsCons(tags[0], tags[1..], keys);
      CountEqOne(keys, tags[0].key);
    }
  }

  lemma {:induction false} SumBucketsEmpty(keys: seq<string>)
    ensures SumBuckets([], keys) == 0
    decreases |keys|
  {
    if |keys| > 0 {
      SumBucketsEmpty(keys[1..]);
    }
  }

  /** One point of the series: the key, its bucket size, the running total
      after it, and its active count. */
  function PointFor(tags: seq<Tagged>, key: string, total: nat, endDay: int): Point {
    var bucket := Bucket(tags, key);
    Point(endDay, key, |bucket|, total, ActiveIn(tags, key, endDay))
  }

  /** The `periods.forEach` loop from a running total `cumulative`, given the
      period end of each key (`ends[i]` for `keys[i]`); a key whose period end
      does not parse makes `toISOString()` throw. */
  function BuildPoints(tags: seq<Tagged>, keys: seq<string>, ends: seq<Result<int, string>>,
                       cumulative: nat): (r: Result<seq<Point>, string>)
    requires |ends| == |keys|
    ensures r.Success? ==> |r.value| == |keys|
    decreases |keys|
  {
    if |keys| == 0 then Success([])
    else
      var total := cumulative + |Bucket(tags, keys[0])|;
      var rest := BuildPoints(tags, keys[1..], ends[1..], total);
      if ends[0].Failure? then Failure(ends[0].error)
      else if rest.Failure? then Failure(rest.error)
      else Success([PointFor(tags, keys[0], total, ends[0].value)] + rest.value)
  }

  /** Each point carries its key, its period end, the size of its bucket, the
      active count of its key at that end (at most the bucket size), and the
      running total of the buckets up to and including its own. */
  lemma BuildPointsSpec(tags: seq<Tagged>, keys: seq<string>,
                        ends: seq<Result<int, string>>, cumulative: nat, i: nat)
    requires |ends| == |keys|
    requires BuildPoints(tags, keys, ends, cumulative).Success? && i < |keys|
    ensures ends[i].Success?
    ensures var p := BuildPoints(tags, keys, ends, cumulative).value[i];
      && p.period == keys[i]
      && p.endDay == ends[i].value
      && p.newSupporters == |Bucket(tags, keys[i])|
      && p.activeSupporters == ActiveIn(tags, keys[i], ends[i].value)
      && p.activeSupporters <= p.newSupporters
      && p.cumulativeSupporters == cumulative + SumBuckets(tags, keys[..i + 1])
  {
    BuildPointsAt(tags, keys, ends, cumulative, i);
  }

  /** The `i`-th point is the point of the `i`-th key, with the running total
      of the first `i + 1` buckets. */
  lemma {:induction false} BuildPointsAt(tags: seq<Tagged>, keys: seq<string>,
                                         ends: seq<Result<int, string>>, cumulative: nat, i: nat)
    requires |ends| == |keys|
    requires BuildPoints(tags, keys, ends, cumulative).Success? && i < |keys|
    ensures ends[i].Success?
    ensures BuildPoints(tags, keys, ends, cumulative).value[i]
         == PointFor(tags, keys[i], cumulative + SumBuckets(tags, keys[..i + 1]), ends[i].value)
    decreases |keys|
  {
    var total := cumulative + |Bucket(tags, keys[0])|;
    BuildPointsCons(tags, keys, ends, cumulative);
    SumBucketsPrefixCons(tags, keys, i);
    if i == 0 {
      assert keys[1..][..0] == [];
    } else {
      BuildPointsAt(tags, keys[1..], ends[1..], total, i - 1);
      assert keys[1..][i - 1] == keys[i] && ends[1..][i - 1] == ends[i];
    }
  }

  /** A successful series starts with the first key's point, followed by the
      series of the other keys. */
  lemma BuildPointsCons(tags: seq<Tagged>, keys: seq<string>, ends: seq<Result<int, string>>, cumulative: nat)
    requires |ends| == |keys| > 0 && BuildPoints(tags, keys, ends, cumulative).Success?
    ensures var total := cumulative + |Bucket(tags, keys[0])|;
      var rest := BuildPoints(tags, keys[1..], ends[1..], total);
      && ends[0].Success? && rest.Success?
      && BuildPoints(tags, keys, ends, cumulative).value == [PointFor(tags, keys[0], total, ends[0].value)] + rest.value
  {
  }

  lemma SumBucketsPrefixCons(tags: seq<Tagged>, keys: seq<string>, i: nat)
    requires i < |keys|
    ensures SumBuckets(tags, keys[..i + 1]) == |Bucket(tags, keys[0])| + SumBuckets(tags, keys[1..][..i])
  {
    assert keys[..i + 1][0] == keys[0];
    assert keys[..i + 1][1..] == keys[1..][..i];
  }

  /** `BuildPoints` fails only when some key's period end fails. */
  lemma {:induction false} BuildPointsSucceeds(tags: seq<Tagged>, keys: seq<string>,
                                               ends: seq<Result<int, string>>, cumulative: nat)
    requires |ends| == |keys| && forall i :: 0 <= i < |ends| ==> ends[i].Success?
    ensures BuildPoints(tags, keys, ends, cumulative).Success?
    decreases |keys|
  {
    if |keys| > 0 {
      BuildPointsSucceeds(tags, keys[1..], ends[1..], cumulative + |Bucket(tags, keys[0])|);
    }
  }

  function PeriodEnds(keys: seq<string>, kind: PeriodKind): (ends: seq<Result<int, string>>)
    ensures |ends| == |keys|
  {
    seq(|keys|, i requires 0 <= i < |keys| => PeriodEnd(keys[i], kind))
  }

  /** The points of the distinct period keys of `tags`, in key order, given
      the period end of each key. */
  function Points(tags: seq<Tagged>, ends: seq<Result<int, string>>): Result<seq<Point>, string>
    requires |ends| == |SortedKeys(tags)|
  {
    BuildPoints(tags, SortedKeys(tags), ends, 0)
  }

  /** `getSupporterGrowthTimeSeries(periodType)`: empty when the query fails or
      returns no rows. */
  function GrowthSeries(createdAts: seq<Option<Instant>>, kind: PeriodKind, queryFailed: bool): Result<seq<Point>, string> {
    if queryFailed || |createdAts| == 0 then Success([])
    else
      var tags := Tag(Dated(createdAts), kind);
      Points(tags, PeriodEnds(SortedKeys(tags), kind))
  }

  /** Every key comes from `formatPeriod`, so `getPeriodEnd` never meets an
      unparseable key and the series is always produced, one point per
      distinct period. */
  lemma GrowthNeverFails(createdAts: seq<Option<Instant>>, kind: PeriodKind, queryFailed: bool)
    ensures GrowthSeries(createdAts, kind, queryFailed).Success?
    ensures queryFailed ==> GrowthSeries(createdAts, kind, queryFailed).value == []
    ensures !queryFailed && |createdAts| > 0 ==>
      |GrowthSeries(createdAts, kind, queryFailed).value| == |SortedKeys(Tag(Dated(createdAts), kind))|
  {
    if !queryFailed && |createdAts| > 0 {
      var dates := Dated(createdAts);
      var tags := Tag(dates, kind);
      var keys := SortedKeys(tags);
      var ends := PeriodEnds(keys, kind);
      EndsSucceed(dates, kind);
      BuildPointsSucceeds(tags, keys, ends, 0);
    }
  }

  /** Each period key of the rows parses back into a period end. */
  lemma EndsSucceed(dates: seq<Instant>, kind: PeriodKind)
    ensures var ends := PeriodEnds(SortedKeys(Tag(dates, kind)), kind);
      forall i :: 0 <= i < |ends| ==> ends[i].Success?
  {
    var tags := Tag(dates, kind);
    var keys := SortedKeys(tags);
    forall i | 0 <= i < |keys| ensures PeriodEnd(keys[i], kind).Success? {
      var j := KeyWitness(tags, i);
      TagKeyParses(dates, kind, j);
    }
  }

  /** The row a period key comes from. */
  lemma KeyWitness(tags: seq<Tagged>, i: nat) returns (j: nat)
    requires i < |SortedKeys(tags)|
    ensures j < |tags| && tags[j].key == SortedKeys(tags)[i]
  {
    SortedKeysSpec(tags);
    var k := SortedKeys(tags)[i];
    assert k in SortedKeys(tags);
    j :| 0 <= j < |tags| && tags[j].key == k;
  }

  lemma TagKeyParses(dates: seq<Instant>, kind: PeriodKind, j: nat)
    requires j < |dates|
    ensures PeriodEnd(Tag(dates, kind)[j].key, kind).Success?
  {
    KeyRoundTrip(dates[j].date, kind);
  }

  /** Point `i` of the series: its period is a key of some dated row, its
      end is that key's period end, it counts the rows of its bucket, its
      active count is the number of those rows in the 30 days up to the
      period end, and its cumulative count is the total of the buckets up to
      it. */
  lemma GrowthSeriesPoint(createdAts: seq<Option<Instant>>, kind: PeriodKind, i: nat)
    ensures var r := GrowthSeries(createdAts, kind, false);
      && r.Success?
      && (i < |r.value| ==>
            var p := r.value[i];
            var tags := Tag(Dated(createdAts), kind);
            && p.period == SortedKeys(tags)[i]
            && (exists j :: 0 <= j < |tags| && tags[j].key == p.period)
            && PeriodEnd(p.period, kind) == Success(p.endDay)
            && p.newSupporters == |Bucket(tags, p.period)|
            && p.activeSupporters == Count(Bucket(tags, p.period), WindowBy(Millis, p.endDay))
            && p.activeSupporters <= p.newSupporters
            && p.cumulativeSupporters == SumBuckets(tags, SortedKeys(tags)[..i + 1]))
  {
    GrowthNeverFails(createdAts, kind, false);
    if |createdAts| > 0 {
      var tags := Tag(Dated(createdAts), kind);
      var ends := PeriodEnds(SortedKeys(tags), kind);
      PointAt(tags, ends, i);
      if i < |SortedKeys(tags)| {
        var p := Points(tags, ends).value[i];
        TagWellTagged(Dated(createdAts), kind);
        ActiveInWindow(tags, p.period, p.endDay, Millis);
      }
    }
  }

  /** Point `i` of a successful `Points`, on any tagged rows: its key, its
      end, its bucket size, its active count and its running total. */
  lemma PointAt(tags: seq<Tagged>, ends: seq<Result<int, string>>, i: nat)
    requires |ends| == |SortedKeys(tags)| && Points(tags, ends).Success?
    ensures |Points(tags, ends).value| == |SortedKeys(tags)|
    ensures i < |SortedKeys(tags)| ==>
      var p := Points(tags, ends).value[i];
      && p.period == SortedKeys(tags)[i]
      && ends[i] == Success(p.endDay)
      && (exists j :: 0 <= j < |tags| && tags[j].key == p.period)
      && p.newSupporters == |Bucket(tags, p.period)|
      && p.activeSupporters == ActiveIn(tags, p.period, p.endDay)
      && p.activeSupporters <= p.newSupporters
      && p.cumulativeSupporters == SumBuckets(tags, SortedKeys(tags)[..i + 1])
  {
    var keys := SortedKeys(tags);
    if i < |keys| {
      BuildPointsSpec(tags, keys, ends, 0, i);
      var j := KeyWitness(tags, i);
    }
  }

  /** On any tagged rows, the last point's cumulative count is the number of
      rows, and there are points exactly when there are rows. */
  lemma PointsTotal(tags: seq<Tagged>, ends: seq<Result<int, string>>)
    requires |ends| == |SortedKeys(tags)| && Points(tags, ends).Success?
    ensures var ps := Points(tags, ends).value;
      && (|ps| == 0 <==> |tags| == 0)
      && (|ps| > 0 ==> ps[|ps| - 1].cumulativeSupporters == |tags|)
  {
    SortedKeysTotal(tags);
    var n := |SortedKeys(tags)|;
    PointAt(tags, ends, if n > 0 then n - 1 else 0);
  }

  /** On any tagged rows, cumulative counts never decrease. */
  lemma PointsMonotone(tags: seq<Tagged>, ends: seq<Result<int, string>>, i: nat, j: nat)
    requires |ends| == |SortedKeys(tags)| && Points(tags, ends).Success?
    ensures var ps := Points(tags, ends).value;
      i <= j < |ps| ==> ps[i].cumulativeSupporters <= ps[j].cumulativeSupporters
  {
    PointAt(tags, ends, i);
    PointAt(tags, ends, j);
    if i <= j < |SortedKeys(tags)| {
      SumBucketsPrefixMonotone(tags, SortedKeys(tags), i + 1, j + 1);
    }
  }

  /** The points come in strictly increasing order of their period keys. */
  lemma GrowthSeriesOrdered(createdAts: seq<Option<Instant>>, kind: PeriodKind, i: nat, j: nat)
    ensures var r := GrowthSeries(createdAts, kind, false);
      && r.Success?
      && (i < j < |r.value| ==> StrLt(r.value[i].period, r.value[j].period))
  {
    GrowthSeriesPoint(createdAts, kind, i);
    GrowthSeriesPoint(createdAts, kind, j);
    if |createdAts| > 0 {
      SortedKeysSpec(Tag(Dated(createdAts), kind));
    }
  }

  /** The last point's cumulative count is the number of rows with a creation
      time; the series is empty exactly when no row has one. */
  lemma GrowthSeriesTotal(createdAts: seq<Option<Instant>>, kind: PeriodKind)
    ensures var r := GrowthSeries(createdAts, kind, false);
      && r.Success?
      && (|r.value| == 0 <==> |Dated(createdAts)| == 0)
      && (|r.value| > 0 ==> r.value[|r.value| - 1].cumulativeSupporters == |Dated(createdAts)|)
  {
    GrowthNeverFails(createdAts, kind, false);
    if |createdAts| > 0 {
      var tags := Tag(Dated(createdAts), kind);
      PointsTotal(tags, PeriodEnds(SortedKeys(tags), kind));
    }
  }

  /** There are period keys exactly when there are rows, and all their
      buckets together hold every row. */
  lemma SortedKeysTotal(tags: seq<Tagged>)
    ensures |SortedKeys(tags)| == 0 <==> |tags| == 0
    ensures SumBuckets(tags, SortedKeys(tags)[..|SortedKeys(tags)|]) == |tags|
  {
    var keys := SortedKeys(tags);
    SortedKeysCover(tags);
    if |tags| > 0 {
      assert tags[0].key in keys;
    }
    assert keys[..|keys|] == keys;
  }

  lemma {:induction false} SumBucketsSnoc(tags: seq<Tagged>, keys: seq<string>, k: string)
    ensures SumBuckets(tags, keys + [k]) == SumBuckets(tags, keys) + |Bucket(tags, k)|
    decreases |keys|
  {
    if |keys| == 0 {
      assert keys + [k] == [k];
      assert [k][1..] == [];
    } else {
      assert (keys + [k])[1..] == keys[1..] + [k];
      SumBucketsSnoc(tags, keys[1..], k);
    }
  }

  lemma {:induction false} SumBucketsPrefixMonotone(tags: seq<Tagged>, keys: seq<string>, i: nat, j: nat)
    requires i <= j <= |keys|
    ensures SumBuckets(tags, keys[..i]) <= SumBuckets(tags, keys[..j])
    decreases j - i
  {
    if i < j {
      SumBucketsPrefixMonotone(tags, keys, i, j - 1);
      assert keys[..j] == keys[..j - 1] + [keys[j - 1]];
      SumBucketsSnoc(tags, keys[..j - 1], keys[j - 1]);
    }
  }

  /** The cumulative count never decreases along the series. */
  lemma GrowthCumulativeMonotone(createdAts: seq<Option<Instant>>, kind: PeriodKind, i: nat, j: nat)
    ensures var r := GrowthSeries(createdAts, kind, false);
      && r.Success?
      && (i <= j < |r.value| ==> r.value[i].cumulativeSupporters <= r.value[j].cumulativeSupporters)
  {
    GrowthNeverFails(createdAts, kind, false);
    if |createdAts| > 0 {
      var tags := Tag(Dated(createdAts), kind);
      PointsMonotone(tags, PeriodEnds(SortedKeys(tags), kind), i, j);
    }
  }

  /** Every row's key is among the sorted keys, and the buckets of the sorted
      keys together hold every row once. */
  lemma SortedKeysCover(tags: seq<Tagged>)
    ensures forall i :: 0 <= i < |tags| ==> tags[i].key in SortedKeys(tags)
    ensures SumBuckets(tags, SortedKeys(tags)) == |tags|
  {
    var keys := SortedKeys(tags);
    SortedKeysSpec(tags);
    PermutationNoDups(Dedup(Keys(tags)), keys);
    forall t | 0 <= t < |tags| ensures tags[t].key in keys {
      assert exists i :: 0 <= i < |tags| && tags[i].key == tags[t].key;
    }
    SumBucketsPartition(tags, keys);
  }
}
