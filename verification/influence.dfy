/** Per-jurisdiction metrics of `getJurisdictionsWithInfluence`, the turnout
    table `estimateTurnout`, and `calculateInfluenceScore` (lib/queries.ts).
    Shares and rates are exact reals. */
module Influence {
  import opened Wrappers
  import opened Seqs
  import opened Calendar
  import opened Batching
  import opened SupporterMap

  /** `estimateTurnout(level)`: a placeholder electorate size per level. */
  function EstimateTurnout(level: Option<string>): (t: nat)
    ensures t > 0
  {
    match level
    case Some("country") => 150000000
    case Some("state") => 5000000
    case Some("county") => 500000
    case Some("city") => 50000
    case Some("district") => 10000
    case _ => 10000
  }

  /** The five named levels get their own sizes and anything else, including
      a missing level, gets the district size. */
  lemma TurnoutTable(level: Option<string>)
    ensures level == Some("country") ==> EstimateTurnout(level) == 150000000
    ensures level == Some("state") ==> EstimateTurnout(level) == 5000000
    ensures level == Some("county") ==> EstimateTurnout(level) == 500000
    ensures level == Some("city") ==> EstimateTurnout(level) == 50000
    ensures level !in {Some("country"), Some("state"), Some("county"), Some("city")} ==> EstimateTurnout(level) == 10000
    ensures EstimateTurnout(level) in {150000000, 5000000, 500000, 50000, 10000}
  {
  }

  /** A row of `jurisdictions`. */
  datatype JurisdictionRow = JurisdictionRow(id: Id, name: Option<string>, level: Option<string>)

  /** `JurisdictionInfluence`. */
  datatype JurisdictionInfluence = JurisdictionInfluence(
    jurisdictionId: Id, name: string, level: Option<string>, supporterCount: nat,
    estimatedTurnout: nat, supporterShare: Option<real>, activeSupporterCount: nat,
    activeRate: real, growth30d: real)

  /** `createdAts.filter((date) => date >= thirtyDaysAgo).length`. */
  function RecentCount(createdAts: seq<Instant>, cutoff: int): (n: nat)
    ensures n <= |createdAts|
    decreases |createdAts|
  {
    if |createdAts| == 0 then 0
    else (if Millis(createdAts[0]) >= cutoff then 1 else 0) + RecentCount(createdAts[1..], cutoff)
  }

  /** `(date) => date >= thirtyDaysAgo`. */
  function RecentBy(cutoff: int): Instant -> bool {
    (d: Instant) => Millis(d) >= cutoff
  }

  /** The recent count is the number of dates at or after the cutoff. */
  lemma {:induction false} RecentCountSpec(createdAts: seq<Instant>, cutoff: int)
    ensures RecentCount(createdAts, cutoff) == Count(createdAts, RecentBy(cutoff))
    decreases |createdAts|
  {
    if |createdAts| > 0 {
      RecentCountSpec(createdAts[1..], cutoff);
      assert createdAts == [createdAts[0]] + createdAts[1..];
      CountCons(createdAts[0], createdAts[1..], RecentBy(cutoff));
    }
  }

  /** `jurisdiction.name || "Unknown"`. */
  function DisplayName(name: Option<string>): (s: string)
    ensures |s| > 0
    ensures name.Some? && |name.value| > 0 ==> s == name.value
  {
    if name.Some? && |name.value| > 0 then name.value else "Unknown"
  }

  /** `(recent / previous) * 100` when there were supporters before the
      window, else 100 or 0. */
  function Growth(supporterCount: nat, recent: nat): real {
    var previous := supporterCount - recent;
    if previous > 0 then (recent as real / previous as real) * 100.0
    else if recent > 0 then 100.0
    else 0.0
  }

  /** `(active / total) * 100`, and 0 with no supporters. */
  function Rate(active: nat, total: nat): real {
    if total > 0 then (active as real / total as real) * 100.0 else 0.0
  }

  /** Times the whole, the rate gives back the part (times 100). */
  lemma PercentOf(part: real, whole: real)
    requires whole > 0.0
    ensures (part / whole) * 100.0 * whole == part * 100.0
  {
    calc {
      (part / whole) * 100.0 * whole;
      (part / whole) * whole * 100.0;
      { assert (part / whole) * whole == part; }
      part * 100.0;
    }
  }

  lemma RateSpec(active: nat, total: nat)
    ensures total > 0 ==> Rate(active, total) * total as real == active as real * 100.0
    ensures total == 0 ==> Rate(active, total) == 0.0
    ensures Rate(active, total) >= 0.0
  {
    if total > 0 {
      PercentOf(active as real, total as real);
    }
  }

  lemma GrowthSpec(supporterCount: nat, recent: nat)
    ensures var previous := supporterCount - recent;
      && (previous > 0 ==> Growth(supporterCount, recent) * previous as real == recent as real * 100.0)
      && (previous <= 0 ==> Growth(supporterCount, recent) == (if recent > 0 then 100.0 else 0.0))
      && Growth(supporterCount, recent) >= 0.0
  {
    var previous := supporterCount - recent;
    if previous > 0 {
      PercentOf(recent as real, previous as real);
    }
  }

  /** The dates of a jurisdiction's supporters, `supporters?.createdAts || []`. */
  function CreatedAtsOf(id: Id, byJurisdiction: map<Id, Entry>): seq<Instant> {
    if id in byJurisdiction then byJurisdiction[id].createdAts else []
  }

  /** The metrics of one jurisdiction row, with `cutoff` the instant thirty
      days before the call. */
  function Metrics(j: JurisdictionRow, byJurisdiction: map<Id, Entry>, cutoff: int): JurisdictionInfluence {
    var supporterCount := if j.id in byJurisdiction then |byJurisdiction[j.id].profileIds| else 0;
    var recent := RecentCount(CreatedAtsOf(j.id, byJurisdiction), cutoff);
    var turnout := EstimateTurnout(j.level);
    JurisdictionInfluence(j.id, DisplayName(j.name), j.level, supporterCount, turnout,
                          if turnout > 0 then Some((supporterCount as real / turnout as real) * 100.0) else None,
                          recent, Rate(recent, supporterCount), Growth(supporterCount, recent))
  }

  /** What the metrics promise: the count is the size of the jurisdiction's
      profile set, the share is the count over the turnout estimate, and the
      active count is the number of dates in the last thirty days. The rate
      fields are stated by MetricsRatesSpec. */
  lemma MetricsSpec(j: JurisdictionRow, byJurisdiction: map<Id, Entry>, cutoff: int)
    ensures var m := Metrics(j, byJurisdiction, cutoff);
      && m.jurisdictionId == j.id
      && m.supporterCount == (if j.id in byJurisdiction then |byJurisdiction[j.id].profileIds| else 0)
      && m.estimatedTurnout == EstimateTurnout(j.level)
      && m.supporterShare == Some(m.supporterCount as real * 100.0 / m.estimatedTurnout as real)
      && m.activeSupporterCount == Count(CreatedAtsOf(j.id, byJurisdiction), RecentBy(cutoff))
  {
    RecentCountSpec(CreatedAtsOf(j.id, byJurisdiction), cutoff);
  }

  /** The active rate is the active count over the supporter count (0
      without supporters), and growth is the recent count over the earlier
      count, or 100 or 0 when no supporter predates the window; both are
      stated multiplied out. */
  lemma MetricsRatesSpec(j: JurisdictionRow, byJurisdiction: map<Id, Entry>, cutoff: int)
    ensures var m := Metrics(j, byJurisdiction, cutoff);
      var previous := m.supporterCount - m.activeSupporterCount;
      && (m.supporterCount > 0 ==> m.activeRate * m.supporterCount as real == m.activeSupporterCount as real * 100.0)
      && (m.supporterCount == 0 ==> m.activeRate == 0.0)
      && (previous > 0 ==> m.growth30d * previous as real == m.activeSupporterCount as real * 100.0)
      && (previous <= 0 ==> m.growth30d == (if m.activeSupporterCount > 0 then 100.0 else 0.0))
      && m.growth30d >= 0.0 && m.activeRate >= 0.0
  {
    MetricsRates(Metrics(j, byJurisdiction, cutoff));
  }

  /** The rate and growth fields, multiplied out. */
  lemma MetricsRates(m: JurisdictionInfluence)
    requires m.activeRate == Rate(m.activeSupporterCount, m.supporterCount)
    requires m.growth30d == Growth(m.supporterCount, m.activeSupporterCount)
    ensures var previous := m.supporterCount - m.activeSupporterCount;
      && (m.supporterCount > 0 ==> m.activeRate * m.supporterCount as real == m.activeSupporterCount as real * 100.0)
      && (m.supporterCount == 0 ==> m.activeRate == 0.0)
      && (previous > 0 ==> m.growth30d * previous as real == m.activeSupporterCount as real * 100.0)
      && (previous <= 0 ==> m.growth30d == (if m.activeSupporterCount > 0 then 100.0 else 0.0))
      && m.growth30d >= 0.0 && m.activeRate >= 0.0
  {
    RateSpec(m.activeSupporterCount, m.supporterCount);
    GrowthSpec(m.supporterCount, m.activeSupporterCount);
  }

  /** The active rate can pass 100: one supporter reached along two
      verification paths has two creation dates in the window. */
  lemma ActiveRateAbove100(j: Id, p: Id, t: Instant)
    ensures var m := Metrics(JurisdictionRow(j, None, None), map[j := Entry({p}, [t, t])], Millis(t));
      m.supporterCount == 1 && m.activeSupporterCount == 2 && m.activeRate == 200.0
  {
    assert [t, t][1..] == [t];
    assert RecentCount([t], Millis(t)) == 1;
  }

  function RowKey(j: JurisdictionRow): Option<Id> {
    Some(j.id)
  }

  /** `getJurisdictionsWithInfluence`: the rows of the jurisdictions of the
      map, fetched 100 ids at a time (`failed` holds the failing batches),
      each with its metrics; empty when no jurisdiction has supporters or no
      row comes back. `ids` is `Array.from(map.keys())`. */
  function JurisdictionsWithInfluence(byJurisdiction: map<Id, Entry>, ids: seq<Id>, table: seq<JurisdictionRow>,
                                      failed: set<nat>, cutoff: int): (r: seq<JurisdictionInfluence>)
    requires forall k :: k in ids <==> k in byJurisdiction
  {
    if |ids| == 0 then []
    else
      var rows := BatchedLookup(table, RowKey, ids, failed);
      seq(|rows|, i requires 0 <= i < |rows| => Metrics(rows[i], byJurisdiction, cutoff))
  }

  /** One result per fetched row, in fetch order, each for a jurisdiction of
      the map and a row of the table; nothing without jurisdictions. */
  lemma JurisdictionsWithInfluenceSpec(byJurisdiction: map<Id, Entry>, ids: seq<Id>, table: seq<JurisdictionRow>,
                                       failed: set<nat>, cutoff: int, i: nat)
    requires forall k :: k in ids <==> k in byJurisdiction
    ensures |byJurisdiction| == 0 ==> JurisdictionsWithInfluence(byJurisdiction, ids, table, failed, cutoff) == []
    ensures var r := JurisdictionsWithInfluence(byJurisdiction, ids, table, failed, cutoff);
      i < |r| ==>
        && r[i].jurisdictionId in byJurisdiction
        && r[i].supporterCount == |byJurisdiction[r[i].jurisdictionId].profileIds|
        && (exists row :: row in table && row.id == r[i].jurisdictionId && r[i].level == row.level)
  {
    if |ids| > 0 {
      assert ids[0] in byJurisdiction;
      assert |byJurisdiction| > 0;
    }
    var r := JurisdictionsWithInfluence(byJurisdiction, ids, table, failed, cutoff);
    if i < |r| {
      var rows := BatchedLookup(table, RowKey, ids, failed);
      assert rows[i] in rows;
      BatchedLookupSound(table, RowKey, ids, failed, rows[i]);
      assert r[i] == Metrics(rows[i], byJurisdiction, cutoff);
    }
  }

  /** With no failing batch, every table row of a jurisdiction with
      supporters comes back with its metrics. */
  lemma JurisdictionsWithInfluenceComplete(byJurisdiction: map<Id, Entry>, ids: seq<Id>, table: seq<JurisdictionRow>,
                                           cutoff: int, row: JurisdictionRow)
    requires forall k :: k in ids <==> k in byJurisdiction
    requires row in table && row.id in byJurisdiction
    ensures Metrics(row, byJurisdiction, cutoff) in JurisdictionsWithInfluence(byJurisdiction, ids, table, {}, cutoff)
  {
    var rows := BatchedLookup(table, RowKey, ids, {});
    BatchedLookupComplete(table, RowKey, ids, row);
    var j :| 0 <= j < |rows| && rows[j] == row;
    assert JurisdictionsWithInfluence(byJurisdiction, ids, table, {}, cutoff)[j] == Metrics(row, byJurisdiction, cutoff);
  }

  /** `Math.min(Math.max(x, lo), hi)`. */
  function Clamp(x: real, lo: real, hi: real): (r: real)
    requires lo <= hi
    ensures lo <= r <= hi
    ensures lo <= x <= hi ==> r == x
  {
    if x < lo then lo else if x > hi then hi else x
  }

  /** `Number(a.weight) || 0`: a missing weight counts as 0. */
  function WeightOf(w: Option<real>): real {
    if w.Some? then w.value else 0.0
  }

  function WeightSum(weights: seq<Option<real>>): real
    decreases |weights|
  {
    if |weights| == 0 then 0.0 else WeightSum(weights[..|weights| - 1]) + WeightOf(weights[|weights| - 1])
  }

  /** The mean alignment weight, capped at 1; 0 with no rows (a failed query
      has no rows). */
  function Alignment(weights: seq<Option<real>>): real {
    if |weights| > 0 then
      var mean := WeightSum(weights) / |weights| as real;
      if mean < 1.0 then mean else 1.0
    else 0.0
  }

  /** `calculateInfluenceScore`: half the share of a 10000-voter electorate,
      half the alignment, clamped to [0, 100]; 0 without an influence target. */
  function InfluenceScore(supporterCount: nat, target: Option<Id>, weights: seq<Option<real>>): (s: real)
    ensures 0.0 <= s <= 100.0
    ensures target.None? ==> s == 0.0
  {
    if target.None? then 0.0
    else Clamp(supporterCount as real / 10000.0 * 50.0 + Alignment(weights) * 50.0, 0.0, 100.0)
  }

  /** The alignment never exceeds 1; with weights in [0, 1] it is their mean
      and the score is exactly the weighted sum while that stays below 100. */
  lemma AlignmentSpec(weights: seq<Option<real>>)
    ensures Alignment(weights) <= 1.0
    ensures |weights| == 0 ==> Alignment(weights) == 0.0
    ensures (forall i :: 0 <= i < |weights| ==> 0.0 <= WeightOf(weights[i]) <= 1.0) ==>
      0.0 <= Alignment(weights) && (|weights| > 0 ==> Alignment(weights) == WeightSum(weights) / |weights| as real)
  {
    if forall i :: 0 <= i < |weights| ==> 0.0 <= WeightOf(weights[i]) <= 1.0 {
      WeightSumBounds(weights);
    }
  }

  lemma {:induction false} WeightSumBounds(weights: seq<Option<real>>)
    requires forall i :: 0 <= i < |weights| ==> 0.0 <= WeightOf(weights[i]) <= 1.0
    ensures 0.0 <= WeightSum(weights) <= |weights| as real
    decreases |weights|
  {
    if |weights| > 0 {
      WeightSumBounds(weights[..|weights| - 1]);
    }
  }

  /** More supporters never lower the score. */
  lemma ScoreMonotone(a: nat, b: nat, target: Option<Id>, weights: seq<Option<real>>)
    requires a <= b
    ensures InfluenceScore(a, target, weights) <= InfluenceScore(b, target, weights)
  {
  }

  /** With a target, the score is the unclamped sum whenever that lies in
      [0, 100]. */
  lemma ScoreUnclamped(supporterCount: nat, target: Id, weights: seq<Option<real>>)
    ensures var x := supporterCount as real / 10000.0 * 50.0 + Alignment(weights) * 50.0;
      0.0 <= x <= 100.0 ==> InfluenceScore(supporterCount, Some(target), weights) == x
  {
  }
}
