/** `getJurisdictionsWithInfluenceClient` and `getSupportersByJurisdictionClient`
    (lib/queries-client.ts): the client reads the denormalised
    `mv_supporters_by_jurisdiction` rows, counts distinct profiles per
    jurisdiction, fetches the jurisdictions and the upcoming ballot items in
    batches of 100, and tallies elections, ballot items and races. */
module JurisdictionsClient {
  import opened Wrappers
  import opened Seqs
  import opened Batching
  import opened SupporterMap
  import opened Influence

  /** `getSupportersByJurisdictionClient`: the grouped mapping rows, or an
      empty map when the query fails. */
  function SupportersByJurisdictionClient(queryFailed: bool, rows: seq<MappingRow>): (m: map<Id, Entry>)
    ensures queryFailed ==> m == map[]
    ensures !queryFailed ==> forall j :: j in m <==> HasJurisdiction(rows, j)
    ensures !queryFailed ==> forall j :: j in m ==> m[j] == Entry(ProfilesOf(rows, j), DatesOf(rows, j))
  {
    if queryFailed then map[] else GroupRows(rows)
  }

  /** A `ballot_items` row with its embedded `races(id)`: `raceCount` is the
      length of that array (0 when null). */
  datatype ItemRow = ItemRow(jurisdictionId: Option<Id>, electionId: Id, raceCount: nat)

  /** The row of the result for one jurisdiction. */
  datatype JurisdictionSummary = JurisdictionSummary(
    jurisdictionId: Id, name: string, level: Option<string>, supporterCount: nat,
    upcomingElectionsCount: nat, upcomingBallotItemsCount: nat, upcomingRacesCount: nat)

  /** What the queries return. `electionIds` are the upcoming elections (empty
      when that query fails); the failed sets hold the indices of the batches
      whose query returns an error. */
  datatype ClientTables = ClientTables(
    rows: seq<MappingRow>, jurisdictions: seq<JurisdictionRow>, jurisdictionsFailed: set<nat>,
    electionIds: seq<Id>, items: seq<ItemRow>, itemsFailed: set<nat>)

  /** The jurisdiction of a row that also has a profile. */
  function CountedColumn(r: MappingRow): Option<Id> {
    if r.profileId.Some? then r.jurisdictionId else None
  }

  /** `Array.from(jurisdictionCounts.keys())`: the jurisdictions with a
      profile, in order of first appearance. */
  function CountedIds(rows: seq<MappingRow>): seq<Id> {
    Dedup(Present(Map(rows, CountedColumn)))
  }

  /** The listed ids are exactly the keys of the profile counts. */
  lemma CountedIdsSpec(rows: seq<MappingRow>, j: Id)
    ensures j in CountedIds(rows) <==> j in CountProfiles(rows)
    ensures j in CountedIds(rows) <==> ProfilesOf(rows, j) != {}
  {
    var column := Map(rows, CountedColumn);
    CountProfilesMatchesGroupRows(rows, j);
    if j in CountedIds(rows) {
      assert Some(j) in column;
      var i :| 0 <= i < |column| && column[i] == Some(j);
      assert rows[i].profileId.value in ProfilesOf(rows, j);
    }
    if ProfilesOf(rows, j) != {} {
      var p :| p in ProfilesOf(rows, j);
      var i :| 0 <= i < |rows| && rows[i].jurisdictionId == Some(j) && rows[i].profileId.Some? && rows[i].profileId.value == p;
      assert column[i] == Some(j);
    }
  }

  function JurisdictionKey(j: JurisdictionRow): Option<Id> { Some(j.id) }

  function ItemKey(b: ItemRow): Option<Id> { b.jurisdictionId }

  /** Some batch of `ids` failed. */
  predicate SomeBatchFailed(ids: seq<Id>, failed: set<nat>) {
    exists k :: k in failed && k < CeilDiv(|ids|, BatchSize)
  }

  /** The per-jurisdiction tallies of the `forEach` over the ballot items. */
  datatype Tally = Tally(elections: set<Id>, items: nat, races: nat)

  function AddItem(m: map<Id, Tally>, b: ItemRow): map<Id, Tally> {
    match b.jurisdictionId
    case None => m
    case Some(j) =>
      var t := if j in m then m[j] else Tally({}, 0, 0);
      m[j := Tally(t.elections + {b.electionId}, t.items + 1, t.races + if b.raceCount > 0 then 1 else 0)]
  }

  function TallyItems(items: seq<ItemRow>): map<Id, Tally>
    decreases |items|
  {
    if |items| == 0 then map[] else AddItem(TallyItems(items[..|items| - 1]), items[|items| - 1])
  }

  predicate OnJurisdiction(j: Id, b: ItemRow) { b.jurisdictionId == Some(j) }

  predicate RaceOn(j: Id, b: ItemRow) { b.jurisdictionId == Some(j) && b.raceCount > 0 }

  /** The items on jurisdiction `j`, in order. */
  function ItemsOn(items: seq<ItemRow>, j: Id): seq<ItemRow> {
    Filter(items, (b: ItemRow) => OnJurisdiction(j, b))
  }

  /** The items on jurisdiction `j` with a race. */
  function RacesOn(items: seq<ItemRow>, j: Id): seq<ItemRow> {
    Filter(items, (b: ItemRow) => RaceOn(j, b))
  }

  /** The elections the items of jurisdiction `j` belong to. */
  ghost function ElectionsOn(items: seq<ItemRow>, j: Id): set<Id> {
    set b | b in ItemsOn(items, j) :: b.electionId
  }

  lemma ItemsOnSnoc(items: seq<ItemRow>, j: Id)
    requires |items| > 0
    ensures var pre := items[..|items| - 1];
      var last := items[|items| - 1];
      && ItemsOn(items, j) == ItemsOn(pre, j) + (if OnJurisdiction(j, last) then [last] else [])
      && RacesOn(items, j) == RacesOn(pre, j) + (if RaceOn(j, last) then [last] else [])
      && ElectionsOn(items, j) == ElectionsOn(pre, j) + (if OnJurisdiction(j, last) then {last.electionId} else {})
  {
    var pre := items[..|items| - 1];
    var last := items[|items| - 1];
    assert items == pre + [last];
    FilterSnoc(pre, last, (b: ItemRow) => OnJurisdiction(j, b));
    FilterSnoc(pre, last, (b: ItemRow) => RaceOn(j, b));
  }

  /** A jurisdiction never has more races than ballot items, nor more
      elections than ballot items. */
  lemma {:induction false} TallyBounds(items: seq<ItemRow>, j: Id)
    ensures |RacesOn(items, j)| <= |ItemsOn(items, j)|
    ensures |ElectionsOn(items, j)| <= |ItemsOn(items, j)|
    decreases |items|
  {
    if |items| > 0 {
      TallyBounds(items[..|items| - 1], j);
      ItemsOnSnoc(items, j);
    } else {
      assert ElectionsOn(items, j) == {};
    }
  }

  /** The tally of a jurisdiction holds the distinct elections of its items,
      the number of its items and the number of them with a race; a
      jurisdiction without items has no tally. */
  lemma {:induction false} TallyItemsSpec(items: seq<ItemRow>, j: Id)
    ensures var m := TallyItems(items);
      && (j in m <==> |ItemsOn(items, j)| > 0)
      && (j in m ==> m[j] == Tally(ElectionsOn(items, j), |ItemsOn(items, j)|, |RacesOn(items, j)|))
    decreases |items|
  {
    if |items| > 0 {
      var pre := items[..|items| - 1];
      TallyItemsSpec(pre, j);
      TallyBounds(pre, j);
      ItemsOnSnoc(items, j);
      if |ItemsOn(pre, j)| == 0 {
        assert ElectionsOn(pre, j) == {};
      }
      AddItemAt(TallyItems(pre), items[|items| - 1], j, ElectionsOn(pre, j), |ItemsOn(pre, j)|, |RacesOn(pre, j)|);
    }
  }

  /** Adding one item to a tally map whose entry for `j` holds the
      elections `es`, `n` items and `r` races (and is absent when `n` is
      zero) counts the item in that entry exactly when it is on `j`. */
  lemma AddItemAt(m: map<Id, Tally>, b: ItemRow, j: Id, es: set<Id>, n: nat, r: nat)
    requires (j in m <==> n > 0) && (j in m ==> m[j] == Tally(es, n, r))
    requires n == 0 ==> es == {} && r == 0
    ensures var m' := AddItem(m, b);
      var n' := n + if OnJurisdiction(j, b) then 1 else 0;
      && (j in m' <==> n' > 0)
      && (j in m' ==> m'[j] == Tally(es + (if OnJurisdiction(j, b) then {b.electionId} else {}), n',
                                      r + if RaceOn(j, b) then 1 else 0))
  {
  }

  /** The ballot items of the upcoming elections on the listed jurisdictions,
      fetched in batches. */
  function FetchedItems(t: ClientTables, ids: seq<Id>): seq<ItemRow> {
    BatchedLookup(Filter(t.items, (b: ItemRow) => b.electionId in t.electionIds), ItemKey, ids, t.itemsFailed)
  }

  function Summarise(j: JurisdictionRow, counts: map<Id, set<Id>>, tallies: map<Id, Tally>): JurisdictionSummary {
    var t := if j.id in tallies then tallies[j.id] else Tally({}, 0, 0);
    JurisdictionSummary(j.id, DisplayName(j.name), j.level, if j.id in counts then |counts[j.id]| else 0,
                        |t.elections|, t.items, t.races)
  }

  /** `getJurisdictionsWithInfluenceClient`: empty with no network, no
      mapping rows, no profiled jurisdiction or no jurisdiction details; a
      failing mapping query throws, and so does a failing jurisdiction batch
      when no batch returned a row. Ballot-item batches that fail are
      skipped. */
  function JurisdictionsWithInfluenceClient(networkIds: seq<Id>, mappingFailed: bool, t: ClientTables)
    : (r: Result<seq<JurisdictionSummary>, string>)
    ensures |networkIds| == 0 ==> r == Success([])
    ensures r.Failure? ==> mappingFailed || t.jurisdictionsFailed != {}
  {
    if |networkIds| == 0 then Success([])
    else if mappingFailed then Failure("Error fetching supporters from mv_supporters_by_jurisdiction")
    else if |t.rows| == 0 then Success([])
    else
      var counts := CountProfiles(t.rows);
      var ids := CountedIds(t.rows);
      if |ids| == 0 then Success([])
      else
        var details := BatchedLookup(t.jurisdictions, JurisdictionKey, ids, t.jurisdictionsFailed);
        if SomeBatchFailed(ids, t.jurisdictionsFailed) && |details| == 0 then Failure("Error fetching jurisdiction details")
        else if |details| == 0 then Success([])
        else
          var tallies := TallyItems(FetchedItems(t, ids));
          Success(Map(details, (j: JurisdictionRow) => Summarise(j, counts, tallies)))
  }

  /** Without query errors the call succeeds. */
  lemma JurisdictionsWithInfluenceClientSucceeds(networkIds: seq<Id>, t: ClientTables)
    requires t.jurisdictionsFailed == {}
    ensures JurisdictionsWithInfluenceClient(networkIds, false, t).Success?
  {
  }

  /** The summary of a jurisdiction row counts its distinct profiles, its
      distinct upcoming elections and its ballot items, and has no more races
      (or elections) than ballot items. */
  lemma SummariseSpec(row: JurisdictionRow, rows: seq<MappingRow>, items: seq<ItemRow>)
    ensures var s := Summarise(row, CountProfiles(rows), TallyItems(items));
      && s.jurisdictionId == row.id && s.level == row.level
      && s.supporterCount == |ProfilesOf(rows, row.id)|
      && s.upcomingElectionsCount == |ElectionsOn(items, row.id)|
      && s.upcomingBallotItemsCount == |ItemsOn(items, row.id)|
      && s.upcomingRacesCount == |RacesOn(items, row.id)|
      && s.upcomingRacesCount <= s.upcomingBallotItemsCount
      && s.upcomingElectionsCount <= s.upcomingBallotItemsCount
  {
    CountProfilesMatchesGroupRows(rows, row.id);
    TallyItemsSpec(items, row.id);
    TallyBounds(items, row.id);
    if row.id !in TallyItems(items) {
      assert ElectionsOn(items, row.id) == {};
      assert RacesOn(items, row.id) == [];
    }
  }

  /** Each row of the result describes a jurisdiction of the table that has
      at least one profile, as `SummariseSpec` counts it over the fetched
      ballot items. */
  lemma JurisdictionsWithInfluenceClientSpec(networkIds: seq<Id>, mappingFailed: bool, t: ClientTables, i: nat)
    ensures var r := JurisdictionsWithInfluenceClient(networkIds, mappingFailed, t);
      r.Success? && i < |r.value| ==>
        var s := r.value[i];
        && (exists row :: row in t.jurisdictions && row.id == s.jurisdictionId && row.level == s.level
                          && s == Summarise(row, CountProfiles(t.rows), TallyItems(FetchedItems(t, CountedIds(t.rows)))))
        && ProfilesOf(t.rows, s.jurisdictionId) != {}
  {
    var r := JurisdictionsWithInfluenceClient(networkIds, mappingFailed, t);
    if r.Success? && i < |r.value| {
      var ids := CountedIds(t.rows);
      var details := BatchedLookup(t.jurisdictions, JurisdictionKey, ids, t.jurisdictionsFailed);
      var row := details[i];
      assert row in details;
      BatchedLookupSound(t.jurisdictions, JurisdictionKey, ids, t.jurisdictionsFailed, row);
      CountedIdsSpec(t.rows, row.id);
    }
  }

  /** With a network, a working mapping query and no failing jurisdiction
      batch, every jurisdiction of the table that has a profile comes back
      with its summary. */
  lemma JurisdictionsWithInfluenceClientComplete(networkIds: seq<Id>, t: ClientTables, row: JurisdictionRow)
    requires |networkIds| > 0 && t.jurisdictionsFailed == {}
    requires row in t.jurisdictions && ProfilesOf(t.rows, row.id) != {}
    ensures var r := JurisdictionsWithInfluenceClient(networkIds, false, t);
      r.Success? && Summarise(row, CountProfiles(t.rows), TallyItems(FetchedItems(t, CountedIds(t.rows)))) in r.value
  {
    var ids := CountedIds(t.rows);
    CountedIdsSpec(t.rows, row.id);
    assert |t.rows| > 0;
    var details := BatchedLookup(t.jurisdictions, JurisdictionKey, ids, {});
    BatchedLookupComplete(t.jurisdictions, JurisdictionKey, ids, row);
    var j :| 0 <= j < |details| && details[j] == row;
    var f := (x: JurisdictionRow) => Summarise(x, CountProfiles(t.rows), TallyItems(FetchedItems(t, ids)));
    assert Map(details, f)[j] == f(row);
  }
}
