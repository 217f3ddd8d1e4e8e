/** The composition and sort rules of the API routes and data hooks:
    `GET` of app/api/summary/route.ts, the sort of app/api/jurisdictions/route.ts,
    and `useSummaryMetrics` and `useJurisdictions` of
    lib/hooks/use-dashboard-data.ts. */
module Dashboard {
  import opened Wrappers
  import opened Seqs
  import opened Sorting
  import opened SupporterMap
  import opened Influence
  import opened Elections
  import opened JurisdictionsClient
  import opened StateDistribution

  // ---- app/api/summary/route.ts ----

  /** The fields of the top jurisdiction copied into the summary. */
  datatype TopJurisdiction = TopJurisdiction(jurisdictionId: Id, name: string, supporterCount: nat, supporterShare: Option<real>)

  datatype SummaryMetrics = SummaryMetrics(
    totalSupporters: nat, activeSupporters: nat, activeRate: real,
    topJurisdiction: Option<TopJurisdiction>, highLeverageElectionsCount: nat)

  predicate HasShare(j: JurisdictionInfluence) { j.supporterShare.Some? }

  /** `supporterShare || 0`. */
  function ShareKey(j: JurisdictionInfluence): real {
    if j.supporterShare.Some? then j.supporterShare.value else 0.0
  }

  /** The jurisdictions with a share, sorted by share with the largest first,
      and the first of them. */
  function TopByShare(js: seq<JurisdictionInfluence>): Option<JurisdictionInfluence> {
    var ranked := SortDescBy(Filter(js, HasShare), ShareKey);
    if |ranked| > 0 then Some(ranked[0]) else None
  }

  /** An election whose share in scope is present and at least 5 percent. */
  predicate IsHighLeverage(e: ElectionInfluence) {
    e.supporterShareInScope.Some? && e.supporterShareInScope.value >= 5.0
  }

  function Top(j: JurisdictionInfluence): TopJurisdiction {
    TopJurisdiction(j.jurisdictionId, j.name, j.supporterCount, j.supporterShare)
  }

  /** The summary metrics from the four fetched results. */
  function Summary(totalSupporters: nat, activeSupporters: nat, js: seq<JurisdictionInfluence>,
                   elections: seq<ElectionInfluence>): (m: SummaryMetrics)
    ensures m.totalSupporters == totalSupporters && m.activeSupporters == activeSupporters
    ensures m.highLeverageElectionsCount == |Filter(elections, IsHighLeverage)|
    ensures m.highLeverageElectionsCount == |Positions(elections, IsHighLeverage)|
    ensures m.activeRate >= 0.0
  {
    var top := TopByShare(js);
    SummaryMetrics(totalSupporters, activeSupporters, Rate(activeSupporters, totalSupporters),
                   if top.Some? then Some(Top(top.value)) else None,
                   HighLeverageCount(elections))
  }

  /** `elections.filter(...).length`: the number of positions holding a
      high-leverage election. */
  function HighLeverageCount(elections: seq<ElectionInfluence>): (n: nat)
    ensures n == |Filter(elections, IsHighLeverage)|
    ensures n == |Positions(elections, IsHighLeverage)|
  {
    CountPositions(elections, IsHighLeverage);
    Count(elections, IsHighLeverage)
  }

  /** The active rate is the percentage of active supporters, and 0 without
      supporters. */
  lemma SummaryActiveRate(totalSupporters: nat, activeSupporters: nat, js: seq<JurisdictionInfluence>,
                          elections: seq<ElectionInfluence>)
    ensures var m := Summary(totalSupporters, activeSupporters, js, elections);
      && (totalSupporters == 0 ==> m.activeRate == 0.0)
      && (totalSupporters > 0 ==> m.activeRate * totalSupporters as real == activeSupporters as real * 100.0)
      && (activeSupporters <= totalSupporters ==> m.activeRate <= 100.0)
  {
  }

  /** There is no top jurisdiction exactly when none has a share. */
  lemma TopByShareNone(js: seq<JurisdictionInfluence>)
    ensures TopByShare(js).None? <==> forall i :: 0 <= i < |js| ==> js[i].supporterShare.None?
  {
    if exists i :: 0 <= i < |js| && js[i].supporterShare.Some? {
      var i :| 0 <= i < |js| && js[i].supporterShare.Some?;
      assert js[i] in Filter(js, HasShare);
    }
  }

  /** The top jurisdiction is one of the input with a share no other share
      exceeds, and the earliest of those with that share. */
  lemma TopByShareMax(js: seq<JurisdictionInfluence>, x: JurisdictionInfluence)
    requires TopByShare(js).Some?
    ensures var t := TopByShare(js).value;
      && t in js && t.supporterShare.Some?
      && (x in js && x.supporterShare.Some? ==> x.supporterShare.value <= t.supporterShare.value)
      && t == Filter(Filter(js, HasShare), (y: JurisdictionInfluence) => ShareKey(y) == ShareKey(t))[0]
  {
    var c := Filter(js, HasShare);
    var t := TopByShare(js).value;
    assert t in multiset(SortDescBy(c, ShareKey));
    if x in js && x.supporterShare.Some? {
      SortedDescHeadIsMax(c, ShareKey, x);
    }
    SortedDescHeadIsFirstMax(c, ShareKey, (y: JurisdictionInfluence) => ShareKey(y) == ShareKey(t));
  }

  /** The summary copies the top jurisdiction's fields and counts the high
      leverage elections. */
  lemma SummaryTop(totalSupporters: nat, activeSupporters: nat, js: seq<JurisdictionInfluence>,
                   elections: seq<ElectionInfluence>)
    ensures var m := Summary(totalSupporters, activeSupporters, js, elections);
      && (m.topJurisdiction.None? <==> TopByShare(js).None?)
      && (m.topJurisdiction.Some? ==>
            var t := TopByShare(js).value;
            m.topJurisdiction.value == TopJurisdiction(t.jurisdictionId, t.name, t.supporterCount, t.supporterShare))
      && ((forall i :: 0 <= i < |elections| ==> IsHighLeverage(elections[i])) ==> m.highLeverageElectionsCount == |elections|)
  {
    var m := Summary(totalSupporters, activeSupporters, js, elections);
    if forall i :: 0 <= i < |elections| ==> IsHighLeverage(elections[i]) {
      FilterAll(elections, IsHighLeverage);
    }
  }

  /** A filter whose predicate every element meets keeps everything. */
  lemma {:induction false} FilterAll<T>(s: seq<T>, p: T -> bool)
    requires forall i :: 0 <= i < |s| ==> p(s[i])
    ensures Filter(s, p) == s
    decreases |s|
  {
    if |s| > 0 {
      FilterAll(s[1..], p);
    }
  }

  // ---- app/api/jurisdictions/route.ts ----

  datatype ServerSortKey = BySupporterCount | BySupporterShare | ByActiveRate | ByGrowth30d

  /** `searchParams.get("sortBy") || "supporterShare"` and the `switch`: a
      missing, empty or unknown value selects the share. */
  function ServerSortKeyOf(param: Option<string>): ServerSortKey {
    match param
    case Some("supporterCount") => BySupporterCount
    case Some("activeRate") => ByActiveRate
    case Some("growth30d") => ByGrowth30d
    case _ => BySupporterShare
  }

  /** `(searchParams.get("order") || "desc") === "asc"`. */
  function Ascending(param: Option<string>): bool {
    param == Some("asc")
  }

  function ServerKey(k: ServerSortKey): JurisdictionInfluence -> real {
    match k
    case BySupporterCount => (j: JurisdictionInfluence) => j.supporterCount as real
    case BySupporterShare => ShareKey
    case ByActiveRate => (j: JurisdictionInfluence) => j.activeRate
    case ByGrowth30d => (j: JurisdictionInfluence) => j.growth30d
  }

  /** `a - b` for ascending and `b - a` otherwise. */
  function SortInOrder<T>(s: seq<T>, key: T -> real, ascending: bool): (r: seq<T>)
    ensures multiset(r) == multiset(s) && |r| == |s|
    ensures ascending ==> SortedBy(r, key)
    ensures !ascending ==> SortedDescBy(r, key)
  {
    if ascending then SortBy(s, key) else SortDescBy(s, key)
  }

  /** The sorted response of the jurisdictions route. */
  function SortServerJurisdictions(js: seq<JurisdictionInfluence>, sortBy: Option<string>, order: Option<string>): seq<JurisdictionInfluence> {
    SortInOrder(js, ServerKey(ServerSortKeyOf(sortBy)), Ascending(order))
  }

  /** The response is a permutation of the input ordered by the chosen key, and
      jurisdictions with equal keys keep their input order. */
  lemma SortServerJurisdictionsSpec(js: seq<JurisdictionInfluence>, sortBy: Option<string>, order: Option<string>,
                                    p: JurisdictionInfluence -> bool, k: real)
    requires forall y :: p(y) <==> ServerKey(ServerSortKeyOf(sortBy))(y) == k
    ensures var r := SortServerJurisdictions(js, sortBy, order);
      && multiset(r) == multiset(js)
      && (order == Some("asc") ==> SortedBy(r, ServerKey(ServerSortKeyOf(sortBy))))
      && (order != Some("asc") ==> SortedDescBy(r, ServerKey(ServerSortKeyOf(sortBy))))
      && Filter(r, p) == Filter(js, p)
  {
    var key := ServerKey(ServerSortKeyOf(sortBy));
    if Ascending(order) {
      SortByStable(js, key, p, k);
    } else {
      SortDescByStable(js, key, p, k);
    }
  }

  /** Without parameters the route sorts by share, largest first, a missing
      share sorting as 0; an unknown key also sorts by share. */
  lemma ServerSortDefaults(sortBy: string, j: JurisdictionInfluence)
    requires sortBy !in {"supporterCount", "activeRate", "growth30d"}
    ensures ServerSortKeyOf(None) == BySupporterShare && !Ascending(None)
    ensures ServerSortKeyOf(Some(sortBy)) == BySupporterShare
    ensures j.supporterShare.None? ==> ServerKey(BySupporterShare)(j) == 0.0
    ensures !Ascending(Some("desc")) && !Ascending(Some("")) && Ascending(Some("asc"))
  {
  }

  // ---- lib/hooks/use-dashboard-data.ts ----

  datatype TopState = TopState(state: string, supporterCount: nat)

  datatype DashboardSummary = DashboardSummary(
    totalSupporters: nat, topState: Option<TopState>, electionsWithAccess: nat, totalBallotItems: nat)

  predicate HasAccess(e: ElectionSummary) { e.supportersInScope > 0 }

  function BallotItemsCount(e: ElectionSummary): nat { e.ballotItemsCount }

  /** The fetcher of `useSummaryMetrics`: any failing query fails the whole
      summary (`Promise.all`). */
  function SummaryMetricsHook(totalSupporters: Result<nat, string>, states: Result<seq<StateCount>, string>,
                              elections: Result<seq<ElectionSummary>, string>): (r: Result<DashboardSummary, string>)
    ensures r.Success? <==> totalSupporters.Success? && states.Success? && elections.Success?
  {
    if totalSupporters.Failure? then Failure(totalSupporters.error)
    else if states.Failure? then Failure(states.error)
    else if elections.Failure? then Failure(elections.error)
    else
      var ds := states.value;
      var es := elections.value;
      Success(DashboardSummary(totalSupporters.value,
                               if |ds| > 0 then Some(TopState(ds[0].state, ds[0].supporterCount)) else None,
                               Count(es, HasAccess), SumF(es, BallotItemsCount)))
  }

  /** The top state is the state with the most supporters, absent exactly
      when the distribution is empty. */
  lemma SummaryMetricsHookTopState(total: nat, rows: seq<MappingRow>, jurisdictions: seq<StateRow>,
                                   failed: set<nat>, es: seq<ElectionSummary>, c: StateCount)
    ensures var ds := StateDistributionClient(false, rows, jurisdictions, failed);
      var r := SummaryMetricsHook(Success(total), ds, Success(es));
      && r.Success?
      && (r.value.topState.None? <==> |ds.value| == 0)
      && (c in ds.value ==> r.value.topState.Some? && c.supporterCount <= r.value.topState.value.supporterCount)
  {
    var ds := StateDistributionClient(false, rows, jurisdictions, failed);
    if c in ds.value {
      var sm := JurisdictionStates(rows, jurisdictions, failed);
      DistributionSorted(Tags((j: Id) => StateOf(sm, j), rows));
      var i :| 0 <= i < |ds.value| && ds.value[i] == c;
      if i > 0 {
        assert SupporterKey(ds.value[0]) >= SupporterKey(ds.value[i]);
      }
    }
  }

  /** The access count is the number of elections with a supporter in
      scope, the item total is the sum of the per-election item counts, and
      since a client election lists at least one ballot item, the access
      count never exceeds the elections and they never exceed the items. */
  lemma SummaryMetricsHookElections(total: nat, ds: seq<StateCount>, elections: seq<Election>, store: Store,
                                    byJurisdiction: map<Id, Entry>)
    ensures var es := UpcomingElectionsClient(false, elections, store, byJurisdiction);
      var r := SummaryMetricsHook(Success(total), Success(ds), es);
      && r.Success?
      && r.value.electionsWithAccess == |Filter(es.value, HasAccess)| == |Positions(es.value, HasAccess)|
      && r.value.totalBallotItems == SumF(es.value, BallotItemsCount)
      && r.value.electionsWithAccess <= |es.value| <= r.value.totalBallotItems
  {
    var es := UpcomingElectionsClient(false, elections, store, byJurisdiction).value;
    CountPositions(es, HasAccess);
    forall i | 0 <= i < |es| ensures BallotItemsCount(es[i]) >= 1 {
      UpcomingElectionsClientSpec(elections, store, byJurisdiction, (x: Id) => [], i);
    }
    SumAtLeastLength(es, BallotItemsCount);
  }

  /** A sum of terms that are each at least 1 is at least the number of terms. */
  lemma {:induction false} SumAtLeastLength<T>(s: seq<T>, f: T -> nat)
    requires forall i :: 0 <= i < |s| ==> f(s[i]) >= 1
    ensures SumF(s, f) >= |s|
    decreases |s|
  {
    if |s| > 0 {
      SumAtLeastLength(s[1..], f);
    }
  }

  datatype ClientSortKey = ByCount | ByElections | ByBallotItems

  /** The `switch` of `useJurisdictions`: an unknown key sorts by supporter
      count. */
  function ClientSortKeyOf(sortBy: string): ClientSortKey {
    match sortBy
    case "upcomingElectionsCount" => ByElections
    case "upcomingBallotItemsCount" => ByBallotItems
    case _ => ByCount
  }

  function ClientKey(k: ClientSortKey): JurisdictionSummary -> real {
    match k
    case ByCount => (j: JurisdictionSummary) => j.supporterCount as real
    case ByElections => (j: JurisdictionSummary) => j.upcomingElectionsCount as real
    case ByBallotItems => (j: JurisdictionSummary) => j.upcomingBallotItemsCount as real
  }

  /** `useJurisdictions(viewpointGroupId, sortBy = "supporterCount", order = "desc")`:
      a missing argument takes the default. */
  function SortClientJurisdictions(js: seq<JurisdictionSummary>, sortBy: Option<string>, order: Option<string>): seq<JurisdictionSummary> {
    var key := ClientSortKeyOf(if sortBy.Some? then sortBy.value else "supporterCount");
    SortInOrder(js, ClientKey(key), Ascending(if order.Some? then order else Some("desc")))
  }

  /** The hook's list is a permutation of the fetched list ordered by the
      chosen key, supporter count largest first by default, with ties in
      fetch order. */
  lemma SortClientJurisdictionsSpec(js: seq<JurisdictionSummary>, sortBy: Option<string>, order: Option<string>,
                                    p: JurisdictionSummary -> bool, k: real)
    requires forall y :: p(y) <==> ClientKey(ClientSortKeyOf(if sortBy.Some? then sortBy.value else "supporterCount"))(y) == k
    ensures var r := SortClientJurisdictions(js, sortBy, order);
      var key := ClientKey(ClientSortKeyOf(if sortBy.Some? then sortBy.value else "supporterCount"));
      && multiset(r) == multiset(js)
      && (order == Some("asc") ==> SortedBy(r, key))
      && (order != Some("asc") ==> SortedDescBy(r, key))
      && Filter(r, p) == Filter(js, p)
    ensures sortBy.None? || sortBy == Some("supporterCount") || sortBy == Some("other") ==>
      ClientSortKeyOf(if sortBy.Some? then sortBy.value else "supporterCount") == ByCount
  {
    var key := ClientKey(ClientSortKeyOf(if sortBy.Some? then sortBy.value else "supporterCount"));
    if order == Some("asc") {
      SortByStable(js, key, p, k);
    } else {
      SortDescByStable(js, key, p, k);
    }
  }
}
