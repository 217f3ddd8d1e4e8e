/** `getStateDistributionClient` (lib/queries-client.ts): supporters grouped by
    the US state of their jurisdiction. A jurisdiction's `state` field is
    trimmed and upper-cased and looked up in a table of the 50 states and the
    District of Columbia; rows whose state is empty or unknown are skipped. */
module StateDistribution {
  import opened Wrappers
  import opened Seqs
  import opened Sorting
  import opened Batching
  import opened SupporterMap

  /** The characters `String.prototype.trim` removes: ECMAScript WhiteSpace
      and LineTerminator. */
  predicate IsSpace(c: char) {
    c == ' ' || c == '\t' || c == '\n' || c == '\U{000B}' || c == '\U{000C}' || c == '\r'
    || c == '\U{00A0}' || c == '\U{1680}' || ('\U{2000}' <= c <= '\U{200A}') || c == '\U{2028}' || c == '\U{2029}'
    || c == '\U{202F}' || c == '\U{205F}' || c == '\U{3000}' || c == '\U{FEFF}'
  }

  function TrimStart(s: string): (r: string)
    ensures |r| <= |s| && r == s[|s| - |r|..]
    ensures |r| > 0 ==> !IsSpace(r[0])
    ensures forall i :: 0 <= i < |s| - |r| ==> IsSpace(s[i])
    decreases |s|
  {
    if |s| > 0 && IsSpace(s[0]) then TrimStart(s[1..]) else s
  }

  function TrimEnd(s: string): (r: string)
    ensures |r| <= |s| && r == s[..|r|]
    ensures |r| > 0 ==> !IsSpace(r[|r| - 1])
    ensures forall i :: |r| <= i < |s| ==> IsSpace(s[i])
    decreases |s|
  {
    if |s| > 0 && IsSpace(s[|s| - 1]) then TrimEnd(s[..|s| - 1]) else s
  }

  /** `s.trim()`. */
  function Trim(s: string): string {
    TrimEnd(TrimStart(s))
  }

  /** The trimmed string is the part of the input from position `k` with no
      space at either end, and everything cut off is space. */
  lemma TrimSpec(s: string) returns (k: nat)
    ensures k + |Trim(s)| <= |s| && Trim(s) == s[k..k + |Trim(s)|]
    ensures forall i :: 0 <= i < k ==> IsSpace(s[i])
    ensures forall i :: k + |Trim(s)| <= i < |s| ==> IsSpace(s[i])
    ensures |Trim(s)| > 0 ==> !IsSpace(Trim(s)[0]) && !IsSpace(Trim(s)[|Trim(s)| - 1])
  {
    var a := TrimStart(s);
    k := |s| - |a|;
    TrimEndOfSuffix(s, k, a);
  }

  /** Trimming the end of a suffix `a` of `s` cuts only space off `s`. */
  lemma TrimEndOfSuffix(s: string, k: nat, a: string)
    requires k <= |s| && a == s[k..]
    ensures k + |TrimEnd(a)| <= |s| && TrimEnd(a) == s[k..k + |TrimEnd(a)|]
    ensures forall i :: k + |TrimEnd(a)| <= i < |s| ==> IsSpace(s[i])
    ensures |TrimEnd(a)| > 0 ==> TrimEnd(a)[0] == a[0]
  {
    var t := TrimEnd(a);
    assert t == s[k..k + |t|] by {
      SliceOfSuffix(s, k, |t|);
    }
    forall i | k + |t| <= i < |s| ensures IsSpace(s[i]) {
      assert s[i] == a[i - k];
    }
  }

  lemma SliceOfSuffix(s: string, k: nat, n: nat)
    requires k + n <= |s|
    ensures s[k..][..n] == s[k..k + n]
  {
  }

  /** Trimming a trimmed string changes nothing. */
  lemma TrimIdempotent(s: string)
    ensures Trim(Trim(s)) == Trim(s)
  {
    var t := Trim(s);
    var _ := TrimSpec(s);
    if |t| > 0 {
      assert TrimStart(t) == t;
      assert TrimEnd(t) == t;
    }
  }

  /** `toUpperCase` on ASCII letters. */
  function UpperChar(c: char): char {
    if 'a' <= c <= 'z' then (c as int - 32) as char else c
  }

  function Upper(s: string): (r: string)
    ensures |r| == |s|
    ensures forall i :: 0 <= i < |s| ==> r[i] == UpperChar(s[i])
  {
    Map(s, UpperChar)
  }

  /** Upper-casing leaves no lower-case ASCII letter and is idempotent. */
  lemma UpperSpec(s: string)
    ensures forall i :: 0 <= i < |s| ==> !('a' <= Upper(s)[i] <= 'z')
    ensures Upper(Upper(s)) == Upper(s)
  {
  }

  /** `stateAbbreviationToName`: the 50 states and the District of Columbia,
      keyed by two upper-case letters. */
  function StateName(abbr: string): (r: Option<string>)
    ensures r.Some? ==> |abbr| == 2 && 'A' <= abbr[0] <= 'Z' && 'A' <= abbr[1] <= 'Z' && |r.value| > 0
  {
    match abbr
    case "AL" => Some("Alabama") case "AK" => Some("Alaska") case "AZ" => Some("Arizona")
    case "AR" => Some("Arkansas") case "CA" => Some("California") case "CO" => Some("Colorado")
    case "CT" => Some("Connecticut") case "DE" => Some("Delaware") case "FL" => Some("Florida")
    case "GA" => Some("Georgia") case "HI" => Some("Hawaii") case "ID" => Some("Idaho")
    case "IL" => Some("Illinois") case "IN" => Some("Indiana") case "IA" => Some("Iowa")
    case "KS" => Some("Kansas") case "KY" => Some("Kentucky") case "LA" => Some("Louisiana")
    case "ME" => Some("Maine") case "MD" => Some("Maryland") case "MA" => Some("Massachusetts")
    case "MI" => Some("Michigan") case "MN" => Some("Minnesota") case "MS" => Some("Mississippi")
    case "MO" => Some("Missouri") case "MT" => Some("Montana") case "NE" => Some("Nebraska")
    case "NV" => Some("Nevada") case "NH" => Some("New Hampshire") case "NJ" => Some("New Jersey")
    case "NM" => Some("New Mexico") case "NY" => Some("New York") case "NC" => Some("North Carolina")
    case "ND" => Some("North Dakota") case "OH" => Some("Ohio") case "OK" => Some("Oklahoma")
    case "OR" => Some("Oregon") case "PA" => Some("Pennsylvania") case "RI" => Some("Rhode Island")
    case "SC" => Some("South Carolina") case "SD" => Some("South Dakota") case "TN" => Some("Tennessee")
    case "TX" => Some("Texas") case "UT" => Some("Utah") case "VT" => Some("Vermont")
    case "VA" => Some("Virginia") case "WA" => Some("Washington") case "WV" => Some("West Virginia")
    case "WI" => Some("Wisconsin") case "WY" => Some("Wyoming") case "DC" => Some("District of Columbia")
    case _ => None
  }

  /** A row of `jurisdictions` with its `state` field. */
  datatype StateRow = StateRow(id: Option<Id>, state: Option<string>)

  function StateRowKey(r: StateRow): Option<Id> { r.id }

  /** `jurisdictionStateMap`: `state || ""` per jurisdiction, a later row
      overwriting an earlier one. */
  function StateText(r: StateRow): string {
    if r.state.Some? then r.state.value else ""
  }

  function StateMap(rows: seq<StateRow>): (m: map<Id, string>)
    ensures forall j :: j in m <==> exists i :: 0 <= i < |rows| && rows[i].id == Some(j)
    decreases |rows|
  {
    if |rows| == 0 then map[]
    else
      var m := StateMap(rows[..|rows| - 1]);
      var r := rows[|rows| - 1];
      assert forall i :: 0 <= i < |rows| - 1 ==> rows[..|rows| - 1][i] == rows[i];
      if r.id.Some? then m[r.id.value := StateText(r)] else m
  }

  /** A jurisdiction's entry is the state text of its last row. */
  lemma {:induction false} StateMapLast(rows: seq<StateRow>, j: Id) returns (i: nat)
    requires j in StateMap(rows)
    ensures i < |rows| && rows[i].id == Some(j) && StateMap(rows)[j] == StateText(rows[i])
    ensures forall k :: i < k < |rows| ==> rows[k].id != Some(j)
    decreases |rows|
  {
    var pre := rows[..|rows| - 1];
    if rows[|rows| - 1].id == Some(j) {
      i := |rows| - 1;
    } else {
      i := StateMapLast(pre, j);
      assert forall k :: i < k < |pre| ==> pre[k] == rows[k];
    }
  }

  /** `jurisdictionStateMap` built from the batched `jurisdictions` queries
      for the distinct jurisdiction ids of the rows. */
  function JurisdictionStates(rows: seq<MappingRow>, jurisdictions: seq<StateRow>, failed: set<nat>): map<Id, string> {
    StateMap(BatchedLookup(jurisdictions, StateRowKey, JurisdictionIds(rows), failed))
  }

  function JurisdictionIds(rows: seq<MappingRow>): seq<Id> {
    Dedup(Present(Map(rows, (r: MappingRow) => r.jurisdictionId)))
  }

  /** Every entry of the map is a jurisdiction of the rows with the state text
      of one of its rows in the table. */
  lemma JurisdictionStatesSound(rows: seq<MappingRow>, jurisdictions: seq<StateRow>, failed: set<nat>, j: Id)
    requires j in JurisdictionStates(rows, jurisdictions, failed)
    ensures exists i :: 0 <= i < |rows| && rows[i].jurisdictionId == Some(j)
    ensures exists r :: r in jurisdictions && r.id == Some(j) && JurisdictionStates(rows, jurisdictions, failed)[j] == StateText(r)
  {
    var fetched := BatchedLookup(jurisdictions, StateRowKey, JurisdictionIds(rows), failed);
    var k := StateMapLast(fetched, j);
    BatchedLookupSound(jurisdictions, StateRowKey, JurisdictionIds(rows), failed, fetched[k]);
    var col := Map(rows, (r: MappingRow) => r.jurisdictionId);
    assert Some(j) in col;
  }

  /** The state name of a jurisdiction: none when its state is blank or not in
      the table. */
  function StateOf(sm: map<Id, string>, j: Id): Option<string> {
    var t := Trim(if j in sm then sm[j] else "");
    if |t| == 0 then None else StateName(Upper(t))
  }

  /** A lower-case abbreviation with surrounding spaces still names its state;
      a blank or unknown one names none. */
  lemma StateOfExample(j: Id)
    ensures StateOf(map[j := " ca "], j) == Some("California")
  {
    var sm := map[j := " ca "];
    assert sm[j] == " ca ";
    TrimCa();
    UpperCa();
    StateNameCa();
  }

  lemma StateNameCa()
    ensures StateName("CA") == Some("California")
  {
  }

  lemma TrimCa()
    ensures Trim(" ca ") == "ca"
  {
    TrimStartCa();
    TrimEndCa();
  }

  lemma TrimStartCa()
    ensures TrimStart(" ca ") == "ca "
  {
    var s := " ca ";
    assert IsSpace(s[0]) && s[1..] == "ca ";
    assert !IsSpace("ca "[0]);
  }

  lemma TrimEndCa()
    ensures TrimEnd("ca ") == "ca"
  {
    var s := "ca ";
    assert IsSpace(s[2]) && s[..2] == "ca";
    assert !IsSpace("ca"[1]);
  }

  lemma UpperCa()
    ensures Upper("ca") == "CA"
  {
    assert "ca"[1..] == "a";
  }

  /** A blank or missing state names no state. */
  lemma StateOfBlank(j: Id)
    ensures StateOf(map[j := "  "], j) == None
    ensures StateOf(map[], j) == None
  {
    assert TrimStart("  ") == "";
  }

  /** An abbreviation outside the table names no state. */
  lemma StateOfUnknown(j: Id)
    ensures StateOf(map[j := "XX"], j) == None
  {
    assert TrimStart("XX") == "XX" && TrimEnd("XX") == "XX";
    assert Upper("XX") == "XX";
  }

  /** A mapping row counted under a state. */
  datatype Tagged = Tagged(state: string, profileId: Id, jurisdictionId: Id)

  /** The row's state, or none when it lacks a jurisdiction or a profile. */
  function Tag(stateOf: Id -> Option<string>, r: MappingRow): Option<Tagged> {
    if r.jurisdictionId.None? || r.profileId.None? then None
    else match stateOf(r.jurisdictionId.value)
      case None => None
      case Some(s) => Some(Tagged(s, r.profileId.value, r.jurisdictionId.value))
  }

  function Tags(stateOf: Id -> Option<string>, rows: seq<MappingRow>): seq<Tagged> {
    Kept(Map(rows, (r: MappingRow) => Tag(stateOf, r)))
  }

  /** A tag comes from a row with both ids whose jurisdiction has a known
      state, and every such row gives one. */
  lemma TagsSpec(stateOf: Id -> Option<string>, rows: seq<MappingRow>, t: Tagged)
    ensures t in Tags(stateOf, rows) <==>
      exists i :: 0 <= i < |rows| && rows[i].jurisdictionId == Some(t.jurisdictionId)
        && rows[i].profileId == Some(t.profileId) && stateOf(t.jurisdictionId) == Some(t.state)
  {
    var col := Map(rows, (r: MappingRow) => Tag(stateOf, r));
    KeptMember(col, t);
    if Some(t) in col {
      var i :| 0 <= i < |col| && col[i] == Some(t);
      assert Tag(stateOf, rows[i]) == Some(t);
    }
    if exists i :: 0 <= i < |rows| && rows[i].jurisdictionId == Some(t.jurisdictionId)
        && rows[i].profileId == Some(t.profileId) && stateOf(t.jurisdictionId) == Some(t.state) {
      var i :| 0 <= i < |rows| && rows[i].jurisdictionId == Some(t.jurisdictionId)
        && rows[i].profileId == Some(t.profileId) && stateOf(t.jurisdictionId) == Some(t.state);
      assert col[i] == Some(t);
    }
  }

  /** A state's distinct supporters and jurisdictions. */
  datatype StateSets = StateSets(supporters: set<Id>, jurisdictions: set<Id>)

  /** The `forEach` grouping tagged rows by state. */
  function GroupStates(ts: seq<Tagged>): map<string, StateSets>
    decreases |ts|
  {
    if |ts| == 0 then map[]
    else
      var g := GroupStates(ts[..|ts| - 1]);
      var t := ts[|ts| - 1];
      var e := if t.state in g then g[t.state] else StateSets({}, {});
      g[t.state := StateSets(e.supporters + {t.profileId}, e.jurisdictions + {t.jurisdictionId})]
  }

  function StateOfTag(t: Tagged): string { t.state }

  /** The distinct supporters of the rows counted under `s`. */
  ghost function SupportersIn(ts: seq<Tagged>, s: string): set<Id> {
    set t | t in ts && t.state == s :: t.profileId
  }

  /** The distinct jurisdictions of the rows counted under `s`. */
  ghost function JurisdictionsIn(ts: seq<Tagged>, s: string): set<Id> {
    set t | t in ts && t.state == s :: t.jurisdictionId
  }

  /** A state no row is counted under has no supporters or jurisdictions. */
  lemma NotCountedEmpty(ts: seq<Tagged>, s: string)
    requires s !in Map(ts, StateOfTag)
    ensures SupportersIn(ts, s) == {} && JurisdictionsIn(ts, s) == {}
  {
    forall x | x in ts ensures x.state != s {
      var i :| 0 <= i < |ts| && ts[i] == x;
      assert Map(ts, StateOfTag)[i] == x.state;
    }
  }

  /** The grouping has a state exactly when some row is counted under it. */
  lemma {:induction false} GroupStatesDomain(ts: seq<Tagged>, s: string)
    ensures s in GroupStates(ts) <==> s in Map(ts, StateOfTag)
    decreases |ts|
  {
    if |ts| > 0 {
      var pre := ts[..|ts| - 1];
      GroupStatesDomain(pre, s);
      assert ts == pre + [ts[|ts| - 1]];
      MapSnoc(pre, ts[|ts| - 1], StateOfTag);
    }
  }

  /** The grouping holds each state's distinct supporters and jurisdictions. */
  lemma {:induction false} GroupStatesSpec(ts: seq<Tagged>, s: string)
    requires s in GroupStates(ts)
    ensures GroupStates(ts)[s] == StateSets(SupportersIn(ts, s), JurisdictionsIn(ts, s))
    decreases |ts|
  {
    var pre := ts[..|ts| - 1];
    var t := ts[|ts| - 1];
    assert ts == pre + [t];
    var here := t.state == s;
    assert SupportersIn(ts, s) == SupportersIn(pre, s) + (if here then {t.profileId} else {});
    assert JurisdictionsIn(ts, s) == JurisdictionsIn(pre, s) + (if here then {t.jurisdictionId} else {});
    if s in GroupStates(pre) {
      GroupStatesSpec(pre, s);
    } else {
      GroupStatesDomain(pre, s);
      NotCountedEmpty(pre, s);
    }
  }

  /** One entry of the result. */
  datatype StateCount = StateCount(state: string, supporterCount: nat, jurisdictionCount: nat)

  function CountOfState(g: map<string, StateSets>, s: string): StateCount {
    if s in g then StateCount(s, |g[s].supporters|, |g[s].jurisdictions|) else StateCount(s, 0, 0)
  }

  function StateOfCount(c: StateCount): string { c.state }

  function SupporterKey(c: StateCount): real { c.supporterCount as real }

  /** `Array.from(stateMap.entries())` (states in order of first counted row)
      mapped to counts and sorted by supporter count, largest first. */
  function Distribution(ts: seq<Tagged>): seq<StateCount> {
    SortDescBy(Counts(ts), SupporterKey)
  }

  /** The counts in order of each state's first row. */
  function Counts(ts: seq<Tagged>): (r: seq<StateCount>)
    ensures Map(r, StateOfCount) == Dedup(Map(ts, StateOfTag))
  {
    var g := GroupStates(ts);
    var r := Map(Dedup(Map(ts, StateOfTag)), (s: string) => CountOfState(g, s));
    assert Map(r, StateOfCount) == Dedup(Map(ts, StateOfTag));
    r
  }

  /** `getStateDistributionClient`: a failing mapping query throws; no rows or
      no jurisdiction ids give an empty list. Jurisdiction batches whose query
      fails contribute no state (their error is not checked). */
  function StateDistributionClient(mappingFailed: bool, rows: seq<MappingRow>, jurisdictions: seq<StateRow>,
                                   failed: set<nat>): (r: Result<seq<StateCount>, string>)
    ensures r.Failure? <==> mappingFailed
  {
    if mappingFailed then Failure("Error fetching supporters by jurisdiction")
    else if |rows| == 0 then Success([])
    else
      if |JurisdictionIds(rows)| == 0 then Success([])
      else
        var sm := JurisdictionStates(rows, jurisdictions, failed);
        Success(Distribution(Tags((j: Id) => StateOf(sm, j), rows)))
  }

  /** Without any jurisdiction id there is nothing to count. */
  lemma StateDistributionEmpty(rows: seq<MappingRow>, jurisdictions: seq<StateRow>, failed: set<nat>)
    requires forall i :: 0 <= i < |rows| ==> rows[i].jurisdictionId.None?
    ensures StateDistributionClient(false, rows, jurisdictions, failed) == Success([])
  {
    var col := Map(rows, (r: MappingRow) => r.jurisdictionId);
    assert forall x :: Some(x) !in col;
  }

  /** The distribution is sorted by supporters, largest first, and lists
      each state once. */
  lemma DistributionSorted(ts: seq<Tagged>)
    ensures SortedDescBy(Distribution(ts), SupporterKey)
    ensures NoDups(Map(Distribution(ts), StateOfCount))
  {
    PermutationNoDupsMap(Counts(ts), Distribution(ts), StateOfCount);
  }

  /** The distribution lists exactly the states some row is counted under. */
  lemma DistributionStates(ts: seq<Tagged>, s: string)
    ensures s in Map(Distribution(ts), StateOfCount) <==> s in Map(ts, StateOfTag)
  {
    PermutationMapMember(Counts(ts), Distribution(ts), StateOfCount, s);
  }

  /** Each entry carries its state's numbers of distinct supporters and
      jurisdictions, and at least one supporter. */
  lemma DistributionCounts(ts: seq<Tagged>, i: nat)
    requires i < |Distribution(ts)|
    ensures var c := Distribution(ts)[i];
      && c.supporterCount == |SupportersIn(ts, c.state)| > 0
      && c.jurisdictionCount == |JurisdictionsIn(ts, c.state)| > 0
  {
    var counts := Counts(ts);
    var d := Distribution(ts);
    assert d[i] in multiset(counts);
    var k := PositionOf(counts, d[i]);
    var s := Map(counts, StateOfCount)[k];
    assert counts[k] == CountOfState(GroupStates(ts), s);
    GroupStatesDomain(ts, s);
    GroupStatesSpec(ts, s);
    var j :| 0 <= j < |ts| && Map(ts, StateOfTag)[j] == s;
    assert ts[j].profileId in SupportersIn(ts, s);
    assert ts[j].jurisdictionId in JurisdictionsIn(ts, s);
  }

  /** A state is among the tags exactly when some row with both ids has a
      jurisdiction of that state. */
  lemma TagStates(stateOf: Id -> Option<string>, rows: seq<MappingRow>, s: string)
    ensures s in Map(Tags(stateOf, rows), StateOfTag) <==>
      exists i :: 0 <= i < |rows| && rows[i].jurisdictionId.Some? && rows[i].profileId.Some?
        && stateOf(rows[i].jurisdictionId.value) == Some(s)
  {
    var ts := Tags(stateOf, rows);
    if exists i :: 0 <= i < |rows| && rows[i].jurisdictionId.Some? && rows[i].profileId.Some?
         && stateOf(rows[i].jurisdictionId.value) == Some(s) {
      var i :| 0 <= i < |rows| && rows[i].jurisdictionId.Some? && rows[i].profileId.Some?
         && stateOf(rows[i].jurisdictionId.value) == Some(s);
      var t := Tagged(s, rows[i].profileId.value, rows[i].jurisdictionId.value);
      TagsSpec(stateOf, rows, t);
      var k :| 0 <= k < |ts| && ts[k] == t;
      assert Map(ts, StateOfTag)[k] == s;
    }
    if s in Map(ts, StateOfTag) {
      var k :| 0 <= k < |ts| && Map(ts, StateOfTag)[k] == s;
      TagsSpec(stateOf, rows, ts[k]);
    }
  }

  /** End to end: a state is listed exactly when some row with both ids has a
      jurisdiction whose fetched state text names that state. */
  lemma StateDistributionClientSpec(rows: seq<MappingRow>, jurisdictions: seq<StateRow>, failed: set<nat>, s: string)
    ensures var sm := JurisdictionStates(rows, jurisdictions, failed);
      StateDistributionClient(false, rows, jurisdictions, failed).Success?
      && (s in Map(StateDistributionClient(false, rows, jurisdictions, failed).value, StateOfCount) <==>
          exists i :: 0 <= i < |rows| && rows[i].jurisdictionId.Some? && rows[i].profileId.Some?
            && StateOf(sm, rows[i].jurisdictionId.value) == Some(s))
  {
    var sm := JurisdictionStates(rows, jurisdictions, failed);
    var stateOf := (j: Id) => StateOf(sm, j);
    TagStates(stateOf, rows, s);
    DistributionStates(Tags(stateOf, rows), s);
    if |rows| > 0 && |JurisdictionIds(rows)| == 0 {
      StateDistributionEmpty(rows, jurisdictions, failed);
    }
  }
}
