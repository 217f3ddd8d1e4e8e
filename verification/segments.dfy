/** The selection rules of the dashboard views: the three short lists of
    `InfluenceInsights` (components/influence-insights.tsx) and the
    stronghold / sleeping giant / emerging market segments of the two
    jurisdiction pages (app/jurisdictions/page.tsx and page-client.tsx). */
module Segments {
  import opened Wrappers
  import opened Seqs
  import opened Sorting
  import opened Influence
  import opened Elections
  import opened JurisdictionsClient
  import opened Dashboard

  /** A numeric property as the page reads it: a number, or `undefined` when
      the object has no such property. */
  datatype Num = Undefined | Num(value: real)

  /** `x || 0`. */
  function OrZero(n: Num): real {
    if n.Num? then n.value else 0.0
  }

  /** `x >= c`: a comparison with `undefined` is false. */
  predicate AtLeast(n: Num, c: real) {
    n.Num? && n.value >= c
  }

  /** `x < c`: a comparison with `undefined` is false. */
  predicate Below(n: Num, c: real) {
    n.Num? && n.value < c
  }

  /** The four properties the segment filters read. */
  datatype View = View(supporterCount: Num, supporterShare: Num, activeRate: Num, growth30d: Num)

  /** A server-side jurisdiction carries all four (the share only ever
      appears as `supporterShare || 0`, where null and 0 agree). */
  function ServerView(j: JurisdictionInfluence): View {
    View(Num(j.supporterCount as real), if j.supporterShare.Some? then Num(j.supporterShare.value) else Undefined,
         Num(j.activeRate), Num(j.growth30d))
  }

  /** An object of `getJurisdictionsWithInfluenceClient` has a supporter count
      but no share, active rate or growth. */
  function ClientView(j: JurisdictionSummary): View {
    View(Num(j.supporterCount as real), Undefined, Undefined, Undefined)
  }

  predicate IsStronghold(v: View) { OrZero(v.supporterShare) >= 5.0 && AtLeast(v.activeRate, 50.0) }

  predicate IsSleepingGiant(v: View) { AtLeast(v.supporterCount, 100.0) && Below(v.activeRate, 30.0) }

  predicate IsEmerging(v: View) { AtLeast(v.growth30d, 20.0) && OrZero(v.supporterShare) < 5.0 }

  datatype Segmentation<T> = Segmentation(strongholds: seq<T>, sleepingGiants: seq<T>, emergingMarkets: seq<T>)

  /** The three `filter`s of `JurisdictionsContent`. */
  function Segment<T>(js: seq<T>, view: T -> View): Segmentation<T> {
    Segmentation(Filter(js, (j: T) => IsStronghold(view(j))),
                 Filter(js, (j: T) => IsSleepingGiant(view(j))),
                 Filter(js, (j: T) => IsEmerging(view(j))))
  }

  /** Each segment is the order-preserving selection of its rule, and a
      stronghold is never a sleeping giant or an emerging market. */
  lemma SegmentSpec<T>(js: seq<T>, view: T -> View, x: T)
    ensures var s := Segment(js, view);
      && (x in s.strongholds <==> x in js && IsStronghold(view(x)))
      && (x in s.sleepingGiants <==> x in js && IsSleepingGiant(view(x)))
      && (x in s.emergingMarkets <==> x in js && IsEmerging(view(x)))
      && !(x in s.strongholds && x in s.sleepingGiants)
      && !(x in s.strongholds && x in s.emergingMarkets)
      && IsSubsequence(s.strongholds, js) && IsSubsequence(s.sleepingGiants, js) && IsSubsequence(s.emergingMarkets, js)
  {
    FilterIsSubsequence(js, (j: T) => IsStronghold(view(j)));
    FilterIsSubsequence(js, (j: T) => IsSleepingGiant(view(j)));
    FilterIsSubsequence(js, (j: T) => IsEmerging(view(j)));
  }

  /** `getJurisdictions` of the server page: the route's list sorted by share,
      largest first, or an empty list when the request fails. */
  function ServerPageJurisdictions(route: Result<seq<JurisdictionInfluence>, string>): (r: seq<JurisdictionInfluence>)
    ensures route.Failure? ==> r == []
    ensures route.Success? ==> multiset(r) == multiset(route.value)
  {
    if route.Failure? then [] else SortServerJurisdictions(route.value, Some("supporterShare"), Some("desc"))
  }

  /** The server page's segments. */
  function ServerPageSegments(route: Result<seq<JurisdictionInfluence>, string>): Segmentation<JurisdictionInfluence> {
    Segment(ServerPageJurisdictions(route), ServerView)
  }

  /** On the server page a jurisdiction is a stronghold exactly when it was
      returned with a share of at least 5 and an active rate of at least 50;
      a failing request shows no segment. */
  lemma ServerPageSegmentsSpec(route: Result<seq<JurisdictionInfluence>, string>, x: JurisdictionInfluence)
    ensures route.Failure? ==> ServerPageSegments(route) == Segmentation([], [], [])
    ensures route.Success? ==>
      (x in ServerPageSegments(route).strongholds <==> x in route.value && ShareKey(x) >= 5.0 && x.activeRate >= 50.0)
    ensures route.Success? ==>
      (x in ServerPageSegments(route).sleepingGiants <==> x in route.value && x.supporterCount >= 100 && x.activeRate < 30.0)
    ensures route.Success? ==>
      (x in ServerPageSegments(route).emergingMarkets <==> x in route.value && x.growth30d >= 20.0 && ShareKey(x) < 5.0)
  {
    var js := ServerPageJurisdictions(route);
    SegmentSpec(js, ServerView, x);
    if route.Success? {
      assert x in js <==> x in multiset(route.value);
    }
  }

  function ClientShareKey(j: JurisdictionSummary): real { OrZero(ClientView(j).supporterShare) }

  /** `JurisdictionsContent` of page-client.tsx as written: the hook's list
      sorted by `supporterShare || 0`, then segmented. */
  function ClientPageAsWritten(data: seq<JurisdictionSummary>): (seq<JurisdictionSummary>, Segmentation<JurisdictionSummary>) {
    var sorted := SortDescBy(data, ClientShareKey);
    (sorted, Segment(sorted, ClientView))
  }

  /** As written, the client page keeps the hook's order and shows no segment
      at all: the objects it reads have no share, active rate or growth. */
  lemma ClientPageAsWrittenEmpty(data: seq<JurisdictionSummary>)
    ensures ClientPageAsWritten(data).0 == data
    ensures ClientPageAsWritten(data).1 == Segmentation([], [], [])
  {
    ClientShareSortKeepsOrder(data);
    var s := Segment(data, ClientView);
    if |s.strongholds| > 0 {
      SegmentSpec(data, ClientView, s.strongholds[0]);
    }
    if |s.sleepingGiants| > 0 {
      SegmentSpec(data, ClientView, s.sleepingGiants[0]);
    }
    if |s.emergingMarkets| > 0 {
      SegmentSpec(data, ClientView, s.emergingMarkets[0]);
    }
  }

  /** Every share reads as 0, so the stable sort changes nothing. */
  lemma ClientShareSortKeepsOrder(data: seq<JurisdictionSummary>)
    ensures SortDescBy(data, ClientShareKey) == data
  {
    var sorted := SortDescBy(data, ClientShareKey);
    var all := (j: JurisdictionSummary) => ClientShareKey(j) == 0.0;
    SortDescByStable(data, ClientShareKey, all, 0.0);
    FilterAll(sorted, all);
    FilterAll(data, all);
  }

  /** The client page as intended: the same sort and segments over
      jurisdictions that carry their share, active rate and growth. */
  function ClientPage(data: seq<JurisdictionInfluence>): (seq<JurisdictionInfluence>, Segmentation<JurisdictionInfluence>) {
    var sorted := SortDescBy(data, ShareKey);
    (sorted, Segment(sorted, ServerView))
  }

  /** The intended page lists a permutation of the data by share, largest
      first, and its segments select exactly by their rules. */
  lemma ClientPageSpec(data: seq<JurisdictionInfluence>, x: JurisdictionInfluence)
    ensures var (sorted, s) := ClientPage(data);
      && multiset(sorted) == multiset(data) && SortedDescBy(sorted, ShareKey)
      && (x in s.strongholds <==> x in data && ShareKey(x) >= 5.0 && x.activeRate >= 50.0)
      && (x in s.sleepingGiants <==> x in data && x.supporterCount >= 100 && x.activeRate < 30.0)
      && (x in s.emergingMarkets <==> x in data && x.growth30d >= 20.0 && ShareKey(x) < 5.0)
  {
    var sorted := SortDescBy(data, ShareKey);
    SegmentSpec(sorted, ServerView, x);
    assert x in sorted <==> x in multiset(data);
  }

  /** A jurisdiction with a 10 percent share and an 80 percent active rate is
      a stronghold on the intended page and on no segment as written. */
  lemma StrongholdShown(j: JurisdictionInfluence, c: JurisdictionSummary)
    requires j.supporterShare == Some(10.0) && j.activeRate == 80.0
    ensures ClientPage([j]).1.strongholds == [j]
    ensures ClientPageAsWritten([c]).1.strongholds == []
  {
    ClientPageSpec([j], j);
    ClientPageAsWrittenEmpty([c]);
  }

  // ---- components/influence-insights.tsx ----

  predicate IsWakeUpZone(j: JurisdictionInfluence) { j.supporterCount >= 50 && j.activeRate < 30.0 }

  predicate IsGrowthHotspot(j: JurisdictionInfluence) { j.growth30d >= 20.0 }

  datatype Insights = Insights(highLeverageElections: seq<ElectionInfluence>,
                               wakeUpZones: seq<JurisdictionInfluence>, growthHotspots: seq<JurisdictionInfluence>)

  /** The three lists: `filter(...).slice(0, 5)`. */
  function InfluenceInsights(elections: seq<ElectionInfluence>, js: seq<JurisdictionInfluence>): Insights {
    Insights(Take(Filter(elections, IsHighLeverage), 5), Take(Filter(js, IsWakeUpZone), 5),
             Take(Filter(js, IsGrowthHotspot), 5))
  }

  /** Each list holds at most five entries, keeps its input's order, holds
      only entries meeting its rule, and holds all of them when at most five
      qualify. */
  lemma InfluenceInsightsSpec(elections: seq<ElectionInfluence>, js: seq<JurisdictionInfluence>)
    ensures var r := InfluenceInsights(elections, js);
      && |r.highLeverageElections| <= 5 && |r.wakeUpZones| <= 5 && |r.growthHotspots| <= 5
      && IsSubsequence(r.highLeverageElections, elections)
      && IsSubsequence(r.wakeUpZones, js) && IsSubsequence(r.growthHotspots, js)
      && (forall i :: 0 <= i < |r.highLeverageElections| ==> IsHighLeverage(r.highLeverageElections[i]))
      && (forall i :: 0 <= i < |r.wakeUpZones| ==> IsWakeUpZone(r.wakeUpZones[i]))
      && (forall i :: 0 <= i < |r.growthHotspots| ==> IsGrowthHotspot(r.growthHotspots[i]))
      && (Count(js, IsWakeUpZone) <= 5 ==> r.wakeUpZones == Filter(js, IsWakeUpZone))
      && (Count(js, IsGrowthHotspot) <= 5 ==> r.growthHotspots == Filter(js, IsGrowthHotspot))
      && (Count(elections, IsHighLeverage) <= 5 ==> r.highLeverageElections == Filter(elections, IsHighLeverage))
  {
    TakeFilterIsSubsequence(elections, IsHighLeverage, 5);
    TakeFilterIsSubsequence(js, IsWakeUpZone, 5);
    TakeFilterIsSubsequence(js, IsGrowthHotspot, 5);
  }

  // ---- app/page-client.tsx ----

  /** An election's share as `InfluenceInsights` reads it: `None` for null,
      `Some(Undefined)` for a missing property. */
  function ServerElectionShare(e: ElectionInfluence): Option<Num> {
    if e.supporterShareInScope.Some? then Some(Num(e.supporterShareInScope.value)) else None
  }

  /** An object of `getUpcomingElectionsClient` has no `supporterShareInScope`. */
  function ClientElectionShare(e: ElectionSummary): Option<Num> {
    Some(Undefined)
  }

  /** `s !== null && s >= 5`. */
  predicate IsHighLeverageShare(s: Option<Num>) { s.Some? && AtLeast(s.value, 5.0) }

  predicate IsWakeUpView(v: View) { AtLeast(v.supporterCount, 50.0) && Below(v.activeRate, 30.0) }

  predicate IsHotspotView(v: View) { AtLeast(v.growth30d, 20.0) }

  function HighLeverageBy<E>(share: E -> Option<Num>): E -> bool {
    (e: E) => IsHighLeverageShare(share(e))
  }

  function WakeUpBy<J>(view: J -> View): J -> bool {
    (j: J) => IsWakeUpView(view(j))
  }

  function HotspotBy<J>(view: J -> View): J -> bool {
    (j: J) => IsHotspotView(view(j))
  }

  /** The three lists of `InfluenceInsights`, on the properties as the
      component reads them from whatever objects it is given. */
  function InsightsOf<E, J>(elections: seq<E>, share: E -> Option<Num>, js: seq<J>, view: J -> View)
    : (seq<E>, seq<J>, seq<J>)
  {
    (Take(Filter(elections, HighLeverageBy(share)), 5), Take(Filter(js, WakeUpBy(view)), 5),
     Take(Filter(js, HotspotBy(view)), 5))
  }

  /** The home page as written: the insights over the client hooks' objects. */
  function HomeInsightsAsWritten(elections: seq<ElectionSummary>, js: seq<JurisdictionSummary>)
    : (seq<ElectionSummary>, seq<JurisdictionSummary>, seq<JurisdictionSummary>)
  {
    InsightsOf(elections, ClientElectionShare, js, ClientView)
  }

  /** As written, all three lists are empty whatever the data: the objects
      have no share, active rate or growth. */
  lemma HomeInsightsAsWrittenEmpty(elections: seq<ElectionSummary>, js: seq<JurisdictionSummary>)
    ensures HomeInsightsAsWritten(elections, js) == ([], [], [])
  {
    forall i | 0 <= i < |elections|
      ensures !HighLeverageBy(ClientElectionShare)(elections[i])
    {
      assert HighLeverageBy(ClientElectionShare)(elections[i]) == IsHighLeverageShare(ClientElectionShare(elections[i]));
    }
    forall i | 0 <= i < |js|
      ensures !WakeUpBy(ClientView)(js[i]) && !HotspotBy(ClientView)(js[i])
    {
      assert WakeUpBy(ClientView)(js[i]) == IsWakeUpView(ClientView(js[i]));
      assert HotspotBy(ClientView)(js[i]) == IsHotspotView(ClientView(js[i]));
    }
    FilterNone(elections, HighLeverageBy(ClientElectionShare));
    FilterNone(js, WakeUpBy(ClientView));
    FilterNone(js, HotspotBy(ClientView));
  }

  /** Over objects that carry the metrics, the component selects exactly the
      lists of `InfluenceInsights`. */
  lemma HomeInsightsSpec(elections: seq<ElectionInfluence>, js: seq<JurisdictionInfluence>)
    ensures var r := InfluenceInsights(elections, js);
      InsightsOf(elections, ServerElectionShare, js, ServerView) == (r.highLeverageElections, r.wakeUpZones, r.growthHotspots)
  {
    ServerHighLeverage(elections);
    ServerWakeUp(js);
    ServerHotspots(js);
  }

  lemma ServerHighLeverage(elections: seq<ElectionInfluence>)
    ensures Filter(elections, HighLeverageBy(ServerElectionShare)) == Filter(elections, IsHighLeverage)
  {
    forall i | 0 <= i < |elections|
      ensures HighLeverageBy(ServerElectionShare)(elections[i]) == IsHighLeverage(elections[i])
    {
      assert HighLeverageBy(ServerElectionShare)(elections[i]) == IsHighLeverageShare(ServerElectionShare(elections[i]));
    }
    FilterSame(elections, HighLeverageBy(ServerElectionShare), IsHighLeverage);
  }

  lemma ServerWakeUp(js: seq<JurisdictionInfluence>)
    ensures Filter(js, WakeUpBy(ServerView)) == Filter(js, IsWakeUpZone)
  {
    forall i | 0 <= i < |js|
      ensures WakeUpBy(ServerView)(js[i]) == IsWakeUpZone(js[i])
    {
      assert WakeUpBy(ServerView)(js[i]) == IsWakeUpView(ServerView(js[i]));
    }
    FilterSame(js, WakeUpBy(ServerView), IsWakeUpZone);
  }

  lemma ServerHotspots(js: seq<JurisdictionInfluence>)
    ensures Filter(js, HotspotBy(ServerView)) == Filter(js, IsGrowthHotspot)
  {
    forall i | 0 <= i < |js|
      ensures HotspotBy(ServerView)(js[i]) == IsGrowthHotspot(js[i])
    {
      assert HotspotBy(ServerView)(js[i]) == IsHotspotView(ServerView(js[i]));
    }
    FilterSame(js, HotspotBy(ServerView), IsGrowthHotspot);
  }

  /** A jurisdiction with 60 supporters and a 10 percent active rate is a
      wake-up zone over the metrics and missing from the page as written. */
  lemma WakeUpZoneShown(j: JurisdictionInfluence, c: JurisdictionSummary)
    requires j.supporterCount == 60 && j.activeRate == 10.0
    ensures InfluenceInsights([], [j]).wakeUpZones == [j]
    ensures HomeInsightsAsWritten([], [c]).1 == []
  {
    HomeInsightsAsWrittenEmpty([], [c]);
  }

  const ToFixedError: string := "TypeError: Cannot read properties of undefined (reading 'toFixed')"

  /** The growth labels of the table rows, `${j.growth30d.toFixed(1)}% growth`:
      the first row whose growth is undefined throws. The labels are counted,
      not formatted. */
  function GrowthLabels(vs: seq<View>): (r: Result<nat, string>)
    decreases |vs|
  {
    if |vs| == 0 then Success(0)
    else if vs[0].growth30d.Undefined? then Failure(ToFixedError)
    else
      match GrowthLabels(vs[1..])
      case Success(n) => Success(n + 1)
      case Failure(e) => Failure(e)
  }

  /** Labelling succeeds exactly when every row has a growth, with one label
      per row; otherwise it throws. */
  lemma {:induction false} GrowthLabelsSpec(vs: seq<View>)
    ensures GrowthLabels(vs).Success? <==> forall i :: 0 <= i < |vs| ==> vs[i].growth30d.Num?
    ensures GrowthLabels(vs).Success? ==> GrowthLabels(vs).value == |vs|
    ensures GrowthLabels(vs).Failure? ==> GrowthLabels(vs).error == ToFixedError
    decreases |vs|
  {
    if |vs| > 0 {
      GrowthLabelsSpec(vs[1..]);
      assert forall i :: 1 <= i < |vs| ==> vs[i] == vs[1..][i - 1];
    }
  }

  /** `jurisdictions.slice(0, 10).map(...)` of `DashboardContent`. */
  function HomeTable<J>(js: seq<J>, view: J -> View): Result<nat, string> {
    GrowthLabels(Map(Take(js, 10), view))
  }

  /** As written, the home page throws as soon as the hook returns a
      jurisdiction. */
  lemma HomeTableAsWrittenThrows(js: seq<JurisdictionSummary>)
    requires |js| > 0
    ensures HomeTable(js, ClientView) == Failure(ToFixedError)
  {
    GrowthLabelsSpec(Map(Take(js, 10), ClientView));
  }

  /** Over objects that carry the metrics, the table shows the first ten
      jurisdictions. */
  lemma HomeTableSpec(js: seq<JurisdictionInfluence>)
    ensures HomeTable(js, ServerView) == Success(if |js| < 10 then |js| else 10)
  {
    GrowthLabelsSpec(Map(Take(js, 10), ServerView));
  }
}
