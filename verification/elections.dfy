/** Election aggregation: `getUpcomingElections` (lib/queries.ts), and
    `getUpcomingElectionsClient` and `getElectionDetailClient`
    (lib/queries-client.ts). The `elections` query is given as its rows
    (already restricted to the poll-date window and ordered by poll date);
    `ballots` is the `ballot_items` table joined to `jurisdictions`. */
module Elections {
  import opened Wrappers
  import opened Seqs
  import opened Sorting
  import opened Batching
  import opened SupporterMap
  import opened Influence

  datatype Election = Election(id: Id, name: Option<string>, pollDate: int)

  /** A `ballot_items` row with its joined jurisdiction's name. */
  datatype BallotRow = BallotRow(id: Id, electionId: Id, jurisdictionId: Option<Id>,
                                 jurisdictionName: Option<string>, title: Option<string>)

  datatype RaceRow = RaceRow(id: Id, ballotItemId: Id, influenceTargetId: Option<Id>)

  datatype MeasureRow = MeasureRow(id: Id, ballotItemId: Id, influenceTargetId: Option<Id>, title: Option<string>)

  /** The tables the election queries read; `ballotFailed` holds the elections
      whose ballot-item query returns an error. */
  datatype Store = Store(ballots: seq<BallotRow>, ballotFailed: set<Id>, races: seq<RaceRow>, measures: seq<MeasureRow>)

  datatype ItemType = Race | Measure

  /** A `BallotItem`; `detailId` is the id of the race or measure whose detail
      is attached, absent for the fallback. */
  datatype BallotItem = BallotItem(ballotItemId: Id, title: Option<string>, jurisdictionId: string,
                                   jurisdictionName: Option<string>, itemType: ItemType, detailId: Option<Id>)

  /** What the two `.limit(1)` queries found for a ballot item. */
  datatype Match = RaceMatch(race: RaceRow) | MeasureMatch(measure: MeasureRow) | NoMatch

  /** `x || null` on a string. */
  function NonEmpty(s: Option<string>): (r: Option<string>)
    ensures r.Some? <==> s.Some? && |s.value| > 0
    ensures r.Some? ==> r == s
  {
    if s.Some? && |s.value| > 0 then s else None
  }

  /** `election.name || "Unnamed Election"`. */
  function ElectionName(name: Option<string>): (s: string)
    ensures |s| > 0
  {
    if name.Some? && |name.value| > 0 then name.value else "Unnamed Election"
  }

  /** The first element satisfying `p`, as `.limit(1)` returns it. */
  function FirstWhere<T>(s: seq<T>, p: T -> bool): (r: Option<T>)
    ensures r.Some? ==> r.value in s && p(r.value)
    ensures r.None? <==> forall i :: 0 <= i < |s| ==> !p(s[i])
  {
    var f := Filter(s, p);
    if |f| > 0 then Some(f[0]) else None
  }

  /** `.eq("election_id", id)` on the ballot items. */
  function ItemsOf(ballots: seq<BallotRow>, electionId: Id): (r: seq<BallotRow>)
    ensures forall i :: 0 <= i < |r| ==> r[i] in ballots && r[i].electionId == electionId
    ensures forall b :: b in ballots && b.electionId == electionId ==> b in r
  {
    Filter(ballots, (b: BallotRow) => b.electionId == electionId)
  }

  /** Race first, then measure, else nothing. */
  function MatchOf(store: Store, b: BallotRow): Match {
    var race := FirstWhere(store.races, (r: RaceRow) => r.ballotItemId == b.id);
    var measure := FirstWhere(store.measures, (m: MeasureRow) => m.ballotItemId == b.id);
    if race.Some? then RaceMatch(race.value)
    else if measure.Some? then MeasureMatch(measure.value)
    else NoMatch
  }

  /** The ballot item built for a row: a measure takes its title from the
      measure when the row has none; the fallback is typed "race". */
  function ItemOf(b: BallotRow, m: Match): BallotItem {
    var jid := if b.jurisdictionId.Some? then b.jurisdictionId.value else "";
    match m
    case RaceMatch(r) => BallotItem(b.id, b.title, jid, NonEmpty(b.jurisdictionName), Race, Some(r.id))
    case MeasureMatch(ms) =>
      BallotItem(b.id, if NonEmpty(b.title).Some? then b.title else ms.title, jid, NonEmpty(b.jurisdictionName), Measure, Some(ms.id))
    case NoMatch => BallotItem(b.id, b.title, jid, NonEmpty(b.jurisdictionName), Race, None)
  }

  function Classify(store: Store, b: BallotRow): BallotItem {
    ItemOf(b, MatchOf(store, b))
  }

  /** An item is a measure exactly when no race but some measure references
      it; a race item carries a race of this ballot item, a measure item a
      measure of it, and an item with neither is a race without detail. */
  lemma ClassifySpec(store: Store, b: BallotRow)
    ensures var item := Classify(store, b);
      && item.ballotItemId == b.id
      && (item.itemType == Measure <==>
            (forall r :: r in store.races ==> r.ballotItemId != b.id) && (exists m :: m in store.measures && m.ballotItemId == b.id))
      && (item.detailId.None? <==>
            (forall r :: r in store.races ==> r.ballotItemId != b.id) && (forall m :: m in store.measures ==> m.ballotItemId != b.id))
      && (item.itemType == Race && item.detailId.Some? ==>
            exists r :: r in store.races && r.ballotItemId == b.id && r.id == item.detailId.value)
      && (item.itemType == Measure ==>
            exists m :: m in store.measures && m.ballotItemId == b.id && m.id == item.detailId.value)
  {
    var race := FirstWhere(store.races, (r: RaceRow) => r.ballotItemId == b.id);
    var measure := FirstWhere(store.measures, (m: MeasureRow) => m.ballotItemId == b.id);
    if race.None? {
      forall r | r in store.races ensures r.ballotItemId != b.id {
        var i :| 0 <= i < |store.races| && store.races[i] == r;
      }
    }
    if measure.None? {
      forall m | m in store.measures ensures m.ballotItemId != b.id {
        var i :| 0 <= i < |store.measures| && store.measures[i] == m;
      }
    }
  }

  /** The supporter count of a jurisdiction, 0 when it has none. */
  function CountIn(byJurisdiction: map<Id, Entry>, jid: Id): nat {
    if jid in byJurisdiction then |byJurisdiction[jid].profileIds| else 0
  }

  /** `supportersByJurisdiction.get(jid)?.profileIds.size || 0` on a string
      key, where `""` (a missing jurisdiction) is never a key. */
  function CountOf(byJurisdiction: map<Id, Entry>, jid: string): nat {
    if |jid| > 0 then CountIn(byJurisdiction, jid) else 0
  }

  /** The `jurisdictionIds` set, in insertion order. */
  function ScopeIds(items: seq<BallotRow>): seq<Id> {
    Dedup(Present(Map(items, (b: BallotRow) => b.jurisdictionId)))
  }

  /** The jurisdictions the items are on. */
  ghost function Jurisdictions(items: seq<BallotRow>): set<Id> {
    set b | b in items && b.jurisdictionId.Some? :: b.jurisdictionId.value
  }

  /** The scope lists each jurisdiction of an item once. */
  lemma ScopeIdsSpec(items: seq<BallotRow>)
    ensures NoDups(ScopeIds(items))
    ensures forall j :: j in ScopeIds(items) <==> j in Jurisdictions(items)
    ensures |ScopeIds(items)| == |Jurisdictions(items)|
  {
    var column := Map(items, (b: BallotRow) => b.jurisdictionId);
    var ids := ScopeIds(items);
    forall j ensures j in ids <==> j in Jurisdictions(items) {
      if j in ids {
        assert j in Present(column);
        assert Some(j) in column;
        var i :| 0 <= i < |column| && column[i] == Some(j);
        assert items[i] in items;
      }
      if j in Jurisdictions(items) {
        var b :| b in items && b.jurisdictionId.Some? && b.jurisdictionId.value == j;
        var i :| 0 <= i < |items| && items[i] == b;
        assert column[i] == Some(j);
      }
    }
    NoDupsCardinality(ids);
    assert (set x | x in ids) == Jurisdictions(items);
  }

  /** `supportersInScope`: the supporters of each jurisdiction in scope, added once per jurisdiction. */
  function InScope(byJurisdiction: map<Id, Entry>, jids: seq<Id>): nat {
    SumF(jids, (j: Id) => CountIn(byJurisdiction, j))
  }

  /** Without supporters in any scoped jurisdiction, nothing is in scope. */
  lemma {:induction false} InScopeZero(byJurisdiction: map<Id, Entry>, jids: seq<Id>)
    requires forall i :: 0 <= i < |jids| ==> jids[i] !in byJurisdiction
    ensures InScope(byJurisdiction, jids) == 0
    decreases |jids|
  {
    if |jids| > 0 {
      InScopeZero(byJurisdiction, jids[1..]);
    }
  }

  /** An election keeps its entry when its ballot items load and are not empty. */
  predicate Listed(store: Store, e: Election) {
    e.id !in store.ballotFailed && |ItemsOf(store.ballots, e.id)| > 0
  }

  // ---- getUpcomingElections (server) ----

  datatype ScoredItem = ScoredItem(item: BallotItem, influenceScore: real)

  datatype ElectionInfluence = ElectionInfluence(
    electionId: Id, name: string, pollDate: int, supportersInScope: nat,
    supporterShareInScope: Option<real>, influenceTargetCount: nat, ballotItems: seq<ScoredItem>)

  /** The influence target of a matched race or measure. */
  function TargetOf(m: Match): Option<Id> {
    match m
    case RaceMatch(r) => r.influenceTargetId
    case MeasureMatch(ms) => ms.influenceTargetId
    case NoMatch => None
  }

  /** A ballot item with its influence score; `alignments(t)` holds the
      alignment weights of target `t` towards the network (no rows when that
      query fails). The fallback scores 0. */
  function Scored(store: Store, byJurisdiction: map<Id, Entry>, alignments: Id -> seq<Option<real>>, b: BallotRow): ScoredItem {
    var m := MatchOf(store, b);
    var count := if b.jurisdictionId.Some? then CountIn(byJurisdiction, b.jurisdictionId.value) else 0;
    var target := TargetOf(m);
    var score := if m.NoMatch? then 0.0
                 else InfluenceScore(count, target, if target.Some? then alignments(target.value) else []);
    ScoredItem(ItemOf(b, m), score)
  }

  /** An item scored above 50 is an influence target. */
  predicate IsInfluenceTarget(s: ScoredItem) { s.influenceScore > 50.0 }

  function ServerEntry(store: Store, byJurisdiction: map<Id, Entry>, alignments: Id -> seq<Option<real>>, e: Election): ElectionInfluence {
    var rows := ItemsOf(store.ballots, e.id);
    var jids := ScopeIds(rows);
    var inScope := InScope(byJurisdiction, jids);
    var scored := Map(rows, (b: BallotRow) => Scored(store, byJurisdiction, alignments, b));
    var turnout := |jids| * 10000;
    ElectionInfluence(e.id, ElectionName(e.name), e.pollDate, inScope,
                      if turnout > 0 then Some((inScope as real / turnout as real) * 100.0) else None,
                      Count(scored, IsInfluenceTarget), scored)
  }

  function ServerOption(store: Store, byJurisdiction: map<Id, Entry>, alignments: Id -> seq<Option<real>>, e: Election): Option<ElectionInfluence> {
    if Listed(store, e) then Some(ServerEntry(store, byJurisdiction, alignments, e)) else None
  }

  /** `getUpcomingElections`: nothing when the elections query fails;
      otherwise one entry per election whose ballot items load and exist. */
  function UpcomingElections(electionsFailed: bool, elections: seq<Election>, store: Store,
                             byJurisdiction: map<Id, Entry>, alignments: Id -> seq<Option<real>>): (r: seq<ElectionInfluence>)
    ensures electionsFailed ==> r == []
    ensures |r| <= |elections|
  {
    if electionsFailed then []
    else Kept(Map(elections, (e: Election) => ServerOption(store, byJurisdiction, alignments, e)))
  }

  /** The result lists the listed elections, in order. */
  lemma UpcomingElectionsOrder(elections: seq<Election>, store: Store, byJurisdiction: map<Id, Entry>, alignments: Id -> seq<Option<real>>)
    ensures var listed := Filter(elections, (e: Election) => Listed(store, e));
      var r := UpcomingElections(false, elections, store, byJurisdiction, alignments);
      |r| == |listed| && forall i :: 0 <= i < |r| ==> r[i] == ServerEntry(store, byJurisdiction, alignments, listed[i])
  {
    KeptMap(elections, (e: Election) => Listed(store, e), (e: Election) => ServerEntry(store, byJurisdiction, alignments, e),
            (e: Election) => ServerOption(store, byJurisdiction, alignments, e));
  }

  /** An entry counts each scoped jurisdiction's supporters once, and its
      share is null exactly when no item has a jurisdiction and is otherwise
      the share of 10000 voters per jurisdiction. */
  lemma ServerEntryScope(store: Store, byJurisdiction: map<Id, Entry>, alignments: Id -> seq<Option<real>>, e: Election)
    ensures var r := ServerEntry(store, byJurisdiction, alignments, e);
      var rows := ItemsOf(store.ballots, e.id);
      && r.electionId == e.id
      && r.supportersInScope == InScope(byJurisdiction, ScopeIds(rows))
      && (r.supporterShareInScope.None? <==> Jurisdictions(rows) == {})
      && (r.supporterShareInScope.Some? ==>
            r.supporterShareInScope.value == (r.supportersInScope as real / (|Jurisdictions(rows)| * 10000) as real) * 100.0)
      && (Jurisdictions(rows) !! byJurisdiction.Keys ==> r.supportersInScope == 0)
  {
    var rows := ItemsOf(store.ballots, e.id);
    var jids := ScopeIds(rows);
    ScopeIdsSpec(rows);
    if Jurisdictions(rows) !! byJurisdiction.Keys {
      InScopeZero(byJurisdiction, jids);
    }
  }

  /** An entry's items follow the election's ballot rows, each scored in
      [0, 100] and the fallback scored 0; the influence targets are the
      items scored above 50. */
  lemma ServerEntryItems(store: Store, byJurisdiction: map<Id, Entry>, alignments: Id -> seq<Option<real>>, e: Election)
    ensures var r := ServerEntry(store, byJurisdiction, alignments, e);
      var rows := ItemsOf(store.ballots, e.id);
      && |r.ballotItems| == |rows|
      && (forall i :: 0 <= i < |rows| ==> r.ballotItems[i].item == Classify(store, rows[i]))
      && (forall i :: 0 <= i < |rows| ==> 0.0 <= r.ballotItems[i].influenceScore <= 100.0)
      && (forall i :: 0 <= i < |rows| && r.ballotItems[i].item.detailId.None? ==> r.ballotItems[i].influenceScore == 0.0)
      && r.influenceTargetCount == |Positions(r.ballotItems, IsInfluenceTarget)|
      && r.influenceTargetCount <= |rows|
  {
    CountPositions(ServerEntry(store, byJurisdiction, alignments, e).ballotItems, IsInfluenceTarget);
  }

  // ---- getUpcomingElectionsClient ----

  datatype ElectionSummary = ElectionSummary(
    electionId: Id, name: string, pollDate: int, supportersInScope: nat,
    ballotItemsCount: nat, racesCount: nat, measuresCount: nat, ballotItems: seq<BallotItem>)

  function IsRace(b: BallotItem): bool { b.itemType == Race }

  function IsMeasure(b: BallotItem): bool { b.itemType == Measure }

  function ClientEntry(store: Store, byJurisdiction: map<Id, Entry>, e: Election): ElectionSummary {
    var rows := ItemsOf(store.ballots, e.id);
    var items := Map(rows, (b: BallotRow) => Classify(store, b));
    ElectionSummary(e.id, ElectionName(e.name), e.pollDate, InScope(byJurisdiction, ScopeIds(rows)),
                    |items|, Count(items, IsRace), Count(items, IsMeasure), items)
  }

  function ClientOption(store: Store, byJurisdiction: map<Id, Entry>, e: Election): Option<ElectionSummary> {
    if Listed(store, e) then Some(ClientEntry(store, byJurisdiction, e)) else None
  }

  /** `getUpcomingElectionsClient`: a failing elections query throws (and is
      retried by the caller); otherwise one entry per listed election. */
  function UpcomingElectionsClient(electionsFailed: bool, elections: seq<Election>, store: Store,
                                   byJurisdiction: map<Id, Entry>): (r: Result<seq<ElectionSummary>, string>)
    ensures r.Failure? <==> electionsFailed
    ensures r.Success? ==> |r.value| <= |elections|
  {
    if electionsFailed then Failure("Error fetching elections")
    else Success(Kept(Map(elections, (e: Election) => ClientOption(store, byJurisdiction, e))))
  }

  /** Every item is a race or a measure, never both. */
  lemma {:induction false} RacesAndMeasures(items: seq<BallotItem>)
    ensures Count(items, IsRace) + Count(items, IsMeasure) == |items|
    decreases |items|
  {
    if |items| > 0 {
      RacesAndMeasures(items[1..]);
    }
  }

  /** The client lists the listed elections in poll-date order, each with
      races and measures adding up to its ballot items, and agrees with the
      server on the supporters in scope and the items. */
  lemma UpcomingElectionsClientSpec(elections: seq<Election>, store: Store, byJurisdiction: map<Id, Entry>,
                                    alignments: Id -> seq<Option<real>>, i: nat)
    ensures var listed := Filter(elections, (e: Election) => Listed(store, e));
      var r := UpcomingElectionsClient(false, elections, store, byJurisdiction).value;
      var s := UpcomingElections(false, elections, store, byJurisdiction, alignments);
      && |r| == |listed| == |s|
      && (i < |r| ==>
            && r[i].electionId == listed[i].id
            && r[i].racesCount + r[i].measuresCount == r[i].ballotItemsCount == |r[i].ballotItems| > 0
            && r[i].supportersInScope == s[i].supportersInScope
            && |s[i].ballotItems| == |r[i].ballotItems|
            && forall k :: 0 <= k < |r[i].ballotItems| ==> s[i].ballotItems[k].item == r[i].ballotItems[k])
  {
    var listed := Filter(elections, (e: Election) => Listed(store, e));
    KeptMap(elections, (e: Election) => Listed(store, e), (e: Election) => ClientEntry(store, byJurisdiction, e),
            (e: Election) => ClientOption(store, byJurisdiction, e));
    UpcomingElectionsOrder(elections, store, byJurisdiction, alignments);
    if i < |listed| {
      RacesAndMeasures(ClientEntry(store, byJurisdiction, listed[i]).ballotItems);
    }
  }

  // ---- getElectionDetailClient ----

  datatype BreakdownRow = BreakdownRow(jurisdictionId: Id, jurisdictionName: string, supporterCount: nat)

  datatype ElectionDetail = ElectionDetail(
    electionId: Id, name: string, pollDate: int, supportersInScope: nat, totalBallotItems: nat,
    racesCount: nat, measuresCount: nat, ballotItems: seq<BallotItem>, topRaces: seq<BallotItem>,
    jurisdictionBreakdown: seq<BreakdownRow>)

  /** The breakdown entry of a scoped jurisdiction: the name comes from the
      first item on it. */
  function BreakdownOf(byJurisdiction: map<Id, Entry>, rows: seq<BallotRow>, jid: Id): BreakdownRow {
    var first := FirstWhere(rows, (b: BallotRow) => b.jurisdictionId == Some(jid));
    var name := if first.Some? && first.value.jurisdictionName.Some? && |first.value.jurisdictionName.value| > 0
                then first.value.jurisdictionName.value else "Unknown";
    BreakdownRow(jid, name, CountIn(byJurisdiction, jid))
  }

  /** The race items by the supporter count of their jurisdiction, largest first, at most three. */
  function TopRaces(byJurisdiction: map<Id, Entry>, items: seq<BallotItem>): seq<BallotItem> {
    Take(SortDescBy(Filter(items, IsRace), (b: BallotItem) => CountOf(byJurisdiction, b.jurisdictionId) as real), 3)
  }

  /** `getElectionDetailClient`: null when the election query fails or does
      not return exactly one row (`.single()`), or when the ballot items fail
      to load. */
  function ElectionDetailClient(electionId: Id, electionFailed: bool, elections: seq<Election>, store: Store,
                                byJurisdiction: map<Id, Entry>): Option<ElectionDetail>
  {
    var found := Filter(elections, (e: Election) => e.id == electionId);
    if electionFailed || |found| != 1 then None
    else
      var e := found[0];
      if e.id in store.ballotFailed then None
      else
        var rows := ItemsOf(store.ballots, e.id);
        var jids := ScopeIds(rows);
        var items := Map(rows, (b: BallotRow) => Classify(store, b));
        Some(ElectionDetail(e.id, ElectionName(e.name), e.pollDate, InScope(byJurisdiction, jids), |items|,
                            Count(items, IsRace), Count(items, IsMeasure), items, TopRaces(byJurisdiction, items),
                            Map(jids, (j: Id) => BreakdownOf(byJurisdiction, rows, j))))
  }

  /** The breakdown counts add up to the supporters in scope. */
  lemma BreakdownSum(byJurisdiction: map<Id, Entry>, rows: seq<BallotRow>, jids: seq<Id>)
    ensures SumF(Map(jids, (j: Id) => BreakdownOf(byJurisdiction, rows, j)), (r: BreakdownRow) => r.supporterCount)
            == InScope(byJurisdiction, jids)
  {
    SumFMap(jids, (j: Id) => BreakdownOf(byJurisdiction, rows, j), (r: BreakdownRow) => r.supporterCount,
            (j: Id) => CountIn(byJurisdiction, j));
  }

  /** The top races are race items of the election, at most three (three
      when there are that many races), ordered by supporter count with the
      largest first. */
  lemma TopRacesSorted(byJurisdiction: map<Id, Entry>, items: seq<BallotItem>)
    ensures var top := TopRaces(byJurisdiction, items);
      && |top| <= 3
      && (forall i :: 0 <= i < |top| ==> top[i] in items && top[i].itemType == Race)
      && (forall i, j :: 0 <= i < j < |top| ==>
            CountOf(byJurisdiction, top[i].jurisdictionId) >= CountOf(byJurisdiction, top[j].jurisdictionId))
      && (Count(items, IsRace) >= 3 ==> |top| == 3)
  {
    var key := (b: BallotItem) => CountOf(byJurisdiction, b.jurisdictionId) as real;
    var races := Filter(items, IsRace);
    var sorted := SortDescBy(races, key);
    var top := Take(sorted, 3);
    forall i | 0 <= i < |top| ensures top[i] in items && top[i].itemType == Race {
      assert top[i] in multiset(sorted);
      assert top[i] in races;
    }
  }

  /** No race left out of the top races has more supporters than one kept. */
  lemma TopRacesMaximal(byJurisdiction: map<Id, Entry>, items: seq<BallotItem>, x: BallotItem)
    requires x in items && x.itemType == Race && x !in TopRaces(byJurisdiction, items)
    ensures var top := TopRaces(byJurisdiction, items);
      forall i :: 0 <= i < |top| ==> CountOf(byJurisdiction, top[i].jurisdictionId) >= CountOf(byJurisdiction, x.jurisdictionId)
  {
    var key := (b: BallotItem) => CountOf(byJurisdiction, b.jurisdictionId) as real;
    var races := Filter(items, IsRace);
    var sorted := SortDescBy(races, key);
    var top := Take(sorted, 3);
    assert x in races;
    assert x in multiset(sorted);
    var k := PositionOf(sorted, x);
    assert k >= |top|;
    forall i | 0 <= i < |top| ensures key(top[i]) >= key(x) {
      assert top[i] == sorted[i];
    }
  }

  /** The detail is null exactly on a failed, missing or ambiguous election
      or on failed ballot items. */
  lemma ElectionDetailNull(electionId: Id, electionFailed: bool, elections: seq<Election>, store: Store,
                           byJurisdiction: map<Id, Entry>)
    ensures var d := ElectionDetailClient(electionId, electionFailed, elections, store, byJurisdiction);
      && (d.None? <==> electionFailed || |Filter(elections, (e: Election) => e.id == electionId)| != 1 || electionId in store.ballotFailed)
      && ((forall e :: e in elections ==> e.id != electionId) ==> d.None?)
      && (d.Some? ==> d.value.electionId == electionId)
  {
    var found := Filter(elections, (e: Election) => e.id == electionId);
    if |found| > 0 {
      assert found[0] in elections && found[0].id == electionId;
    }
  }

  /** The breakdown of a set of ballot rows: one row per jurisdiction of the
      items, whose counts add up to the supporters in scope. */
  lemma BreakdownSpec(byJurisdiction: map<Id, Entry>, rows: seq<BallotRow>)
    ensures var bd := Map(ScopeIds(rows), (j: Id) => BreakdownOf(byJurisdiction, rows, j));
      && NoDups(Map(bd, (r: BreakdownRow) => r.jurisdictionId))
      && |bd| == |Jurisdictions(rows)|
      && (forall j :: j in Jurisdictions(rows) <==> exists i :: 0 <= i < |bd| && bd[i].jurisdictionId == j)
      && SumF(bd, (r: BreakdownRow) => r.supporterCount) == InScope(byJurisdiction, ScopeIds(rows))
  {
    var jids := ScopeIds(rows);
    var bd := Map(jids, (j: Id) => BreakdownOf(byJurisdiction, rows, j));
    assert Map(bd, (r: BreakdownRow) => r.jurisdictionId) == jids by {
      BreakdownIds(byJurisdiction, rows, jids);
    }
    ScopeIdsSpec(rows);
    BreakdownSum(byJurisdiction, rows, jids);
    forall j ensures j in Jurisdictions(rows) <==> exists i :: 0 <= i < |bd| && bd[i].jurisdictionId == j {
      if j in Jurisdictions(rows) {
        var i := PositionOf(jids, j);
        assert bd[i].jurisdictionId == j;
      }
    }
  }

  /** Each breakdown row is for the jurisdiction it was made from. */
  lemma BreakdownIds(byJurisdiction: map<Id, Entry>, rows: seq<BallotRow>, jids: seq<Id>)
    ensures Map(Map(jids, (j: Id) => BreakdownOf(byJurisdiction, rows, j)), (r: BreakdownRow) => r.jurisdictionId) == jids
  {
  }

  /** A detail's breakdown has one row per scoped jurisdiction, and its
      counts add up to the supporters in scope; its races and measures add up
      to its items. */
  lemma ElectionDetailBreakdown(electionId: Id, electionFailed: bool, elections: seq<Election>, store: Store,
                                byJurisdiction: map<Id, Entry>)
    ensures var d := ElectionDetailClient(electionId, electionFailed, elections, store, byJurisdiction);
      d.Some? ==>
        var rows := ItemsOf(store.ballots, d.value.electionId);
        var bd := d.value.jurisdictionBreakdown;
        && NoDups(Map(bd, (r: BreakdownRow) => r.jurisdictionId))
        && |bd| == |Jurisdictions(rows)|
        && (forall j :: j in Jurisdictions(rows) <==> exists i :: 0 <= i < |bd| && bd[i].jurisdictionId == j)
        && SumF(bd, (r: BreakdownRow) => r.supporterCount) == d.value.supportersInScope
        && d.value.racesCount + d.value.measuresCount == d.value.totalBallotItems == |d.value.ballotItems| == |rows|
  {
    var d := ElectionDetailClient(electionId, electionFailed, elections, store, byJurisdiction);
    if d.Some? {
      var rows := ItemsOf(store.ballots, d.value.electionId);
      BreakdownSpec(byJurisdiction, rows);
      RacesAndMeasures(d.value.ballotItems);
    }
  }
}
