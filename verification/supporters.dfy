/** The supporter-to-jurisdiction map: jurisdiction id to the set of supporter
    profiles in it and the creation times of the supporter rows that reached it.
    The server builds it by joining supporter rows through profiles, persons,
    voter verifications and jurisdiction links (`getSupportersByJurisdiction`,
    lib/queries.ts); the client groups the rows of a denormalised mapping view
    (`getSupportersByJurisdictionClient` and the counting pass of
    `getJurisdictionsWithInfluenceClient`, lib/queries-client.ts). */
module SupporterMap {
  import opened Wrappers
  import opened Seqs
  import opened Calendar
  import opened Batching
  import opened Network

  /** One row of the mapping: a jurisdiction, a profile and a creation time. */
  datatype MappingRow = MappingRow(jurisdictionId: Option<Id>, profileId: Option<Id>, createdAt: Option<Instant>)

  datatype Entry = Entry(profileIds: set<Id>, createdAts: seq<Instant>)

  /** The profiles the rows place in jurisdiction `j`. */
  ghost function ProfilesOf(rows: seq<MappingRow>, j: Id): set<Id> {
    set i | 0 <= i < |rows| && rows[i].jurisdictionId == Some(j) && rows[i].profileId.Some? :: rows[i].profileId.value
  }

  /** The creation times of the rows for jurisdiction `j`, in row order. */
  function DatesOf(rows: seq<MappingRow>, j: Id): (r: seq<Instant>)
    ensures |r| <= |rows|
    decreases |rows|
  {
    if |rows| == 0 then []
    else
      var last := rows[|rows| - 1];
      DatesOf(rows[..|rows| - 1], j)
        + (if last.jurisdictionId == Some(j) && last.createdAt.Some? then [last.createdAt.value] else [])
  }

  ghost predicate HasJurisdiction(rows: seq<MappingRow>, j: Id) {
    exists i :: 0 <= i < |rows| && rows[i].jurisdictionId == Some(j)
  }

  /** One step of the `forEach`: rows without a jurisdiction are skipped; the
      entry is created on first sight, the profile (when present) is added to
      its set and the creation time (when present) is appended. */
  function AddRow(m: map<Id, Entry>, row: MappingRow): map<Id, Entry> {
    match row.jurisdictionId
    case None => m
    case Some(j) =>
      var e := if j in m then m[j] else Entry({}, []);
      m[j := Entry(
        e.profileIds + (if row.profileId.Some? then {row.profileId.value} else {}),
        e.createdAts + (if row.createdAt.Some? then [row.createdAt.value] else []))]
  }

  lemma ProfilesOfSnoc(rows: seq<MappingRow>, j: Id)
    requires |rows| > 0
    ensures var last := rows[|rows| - 1];
      ProfilesOf(rows, j) == ProfilesOf(rows[..|rows| - 1], j)
        + (if last.jurisdictionId == Some(j) && last.profileId.Some? then {last.profileId.value} else {})
  {
    var pre := rows[..|rows| - 1];
    assert forall i :: 0 <= i < |pre| ==> pre[i] == rows[i];
  }

  /** Grouping mapping rows: a jurisdiction is a key iff some row names it, and
      its entry holds exactly the profiles and dates of its rows. */
  function GroupRows(rows: seq<MappingRow>): (m: map<Id, Entry>)
    ensures forall j :: j in m <==> HasJurisdiction(rows, j)
    ensures forall j :: j in m ==> m[j] == Entry(ProfilesOf(rows, j), DatesOf(rows, j))
    decreases |rows|
  {
    if |rows| == 0 then map[]
    else
      var pre := rows[..|rows| - 1];
      var m := AddRow(GroupRows(pre), rows[|rows| - 1]);
      assert forall j :: HasJurisdiction(rows, j) <==> HasJurisdiction(pre, j) || rows[|rows| - 1].jurisdictionId == Some(j) by {
        forall j
          ensures HasJurisdiction(rows, j) <==> HasJurisdiction(pre, j) || rows[|rows| - 1].jurisdictionId == Some(j)
        {
          if HasJurisdiction(pre, j) {
            var i :| 0 <= i < |pre| && pre[i].jurisdictionId == Some(j);
            assert rows[i] == pre[i];
          }
          if HasJurisdiction(rows, j) {
            var i :| 0 <= i < |rows| && rows[i].jurisdictionId == Some(j);
            if i < |pre| { assert pre[i] == rows[i]; }
          }
        }
      }
      assert forall j :: j in m ==> m[j] == Entry(ProfilesOf(rows, j), DatesOf(rows, j)) by {
        forall j | j in m
          ensures m[j] == Entry(ProfilesOf(rows, j), DatesOf(rows, j))
        {
          ProfilesOfSnoc(rows, j);
          if !HasJurisdiction(pre, j) {
            assert ProfilesOf(pre, j) == {};
            assert DatesOf(pre, j) == [] by { NoDatesWithoutRows(pre, j); }
          }
        }
      }
      m
  }

  lemma {:induction false} NoDatesWithoutRows(rows: seq<MappingRow>, j: Id)
    requires !HasJurisdiction(rows, j)
    ensures DatesOf(rows, j) == []
    decreases |rows|
  {
    if |rows| > 0 {
      NoDatesWithoutRows(rows[..|rows| - 1], j);
    }
  }

  /** The profile set of jurisdiction `j`, empty when `j` is not a key. */
  function ProfilesAt(m: map<Id, Entry>, j: Id): set<Id> {
    if j in m then m[j].profileIds else {}
  }

  lemma ProfilesAtGroupRows(rows: seq<MappingRow>, j: Id)
    ensures ProfilesAt(GroupRows(rows), j) == ProfilesOf(rows, j)
  {
    if !HasJurisdiction(rows, j) {
      assert ProfilesOf(rows, j) == {};
    }
  }

  /** Two row sequences that link the same (jurisdiction, profile) pairs give
      the same profile sets, whatever else differs (dates, null profiles,
      repetitions, order). */
  lemma SamePairsSameProfiles(a: seq<MappingRow>, b: seq<MappingRow>, j: Id)
    requires forall p: Id :: (exists i :: 0 <= i < |a| && a[i].jurisdictionId == Some(j) && a[i].profileId == Some(p))
                         <==> (exists i :: 0 <= i < |b| && b[i].jurisdictionId == Some(j) && b[i].profileId == Some(p))
    ensures ProfilesAt(GroupRows(a), j) == ProfilesAt(GroupRows(b), j)
  {
    ProfilesAtGroupRows(a, j);
    ProfilesAtGroupRows(b, j);
    forall p | p in ProfilesOf(a, j)
      ensures p in ProfilesOf(b, j)
    {
      var i :| 0 <= i < |a| && a[i].jurisdictionId == Some(j) && a[i].profileId == Some(p);
      var k :| 0 <= k < |b| && b[k].jurisdictionId == Some(j) && b[k].profileId == Some(p);
    }
    forall p | p in ProfilesOf(b, j)
      ensures p in ProfilesOf(a, j)
    {
      var k :| 0 <= k < |b| && b[k].jurisdictionId == Some(j) && b[k].profileId == Some(p);
      var i :| 0 <= i < |a| && a[i].jurisdictionId == Some(j) && a[i].profileId == Some(p);
    }
  }

  /** The profile set is a set, but every dated row adds a date: one supporter
      reaching a jurisdiction along two paths counts once and dates twice. */
  lemma DatesCanOutnumberProfiles(j: Id, p: Id, t: Instant)
    ensures var m := GroupRows([MappingRow(Some(j), Some(p), Some(t)), MappingRow(Some(j), Some(p), Some(t))]);
            j in m && |m[j].profileIds| == 1 && |m[j].createdAts| == 2
  {
    var rows := [MappingRow(Some(j), Some(p), Some(t)), MappingRow(Some(j), Some(p), Some(t))];
    assert ProfilesOf(rows, j) == {p};
    assert rows[..1][..0] == [];
    assert DatesOf(rows[..1], j) == [t];
    assert HasJurisdiction(rows, j) by { assert rows[0].jurisdictionId == Some(j); }
  }

  // ---------------------------------------------------------------------------
  // Client: the counting pass of getJurisdictionsWithInfluenceClient

  /** `jurisdictionCounts`: rows with both a jurisdiction and a profile, grouped
      into profile sets. */
  function CountProfiles(rows: seq<MappingRow>): (m: map<Id, set<Id>>)
    decreases |rows|
  {
    if |rows| == 0 then map[]
    else
      var m := CountProfiles(rows[..|rows| - 1]);
      var row := rows[|rows| - 1];
      if row.jurisdictionId.Some? && row.profileId.Some? then
        var j := row.jurisdictionId.value;
        m[j := (if j in m then m[j] else {}) + {row.profileId.value}]
      else m
  }

  /** The counting pass keys exactly the jurisdictions with at least one
      profile, and agrees with the full grouping on their profile sets. */
  lemma {:induction false} CountProfilesMatchesGroupRows(rows: seq<MappingRow>, j: Id)
    ensures j in CountProfiles(rows) <==> ProfilesOf(rows, j) != {}
    ensures j in CountProfiles(rows) ==> CountProfiles(rows)[j] == ProfilesOf(rows, j)
    decreases |rows|
  {
    if |rows| > 0 {
      CountProfilesMatchesGroupRows(rows[..|rows| - 1], j);
      ProfilesOfSnoc(rows, j);
    } else {
      assert ProfilesOf(rows, j) == {};
    }
  }

  // ---------------------------------------------------------------------------
  // Server: the multi-hop join of getSupportersByJurisdiction

  /** A row of `profiles`. */
  datatype Profile = Profile(id: Id, personId: Option<Id>)
  /** A row of `voter_verifications`. */
  datatype Verification = Verification(id: Id, personId: Option<Id>)
  /** A row of `voter_verification_jurisdiction_rels`. */
  datatype JurisdictionLink = JurisdictionLink(verificationId: Id, jurisdictionId: Id)

  /** Which queries failed: the supporter query, and the indices of the failed
      batches of each batched lookup. */
  datatype JoinFailures = JoinFailures(supporters: bool, profiles: set<nat>, verifications: set<nat>, links: set<nat>)

  function NoFailures(): JoinFailures {
    JoinFailures(false, {}, {}, {})
  }

  /** The supporter rows of the network's groups. */
  function NetworkSupporters(network: seq<Id>, rels: seq<GroupRel>): seq<GroupRel> {
    Filter(rels, (r: GroupRel) => r.relType == "supporter" && r.groupId.Some? && r.groupId.value in network)
  }

  function ProfileKey(p: Profile): Option<Id> { Some(p.id) }
  function VerificationPerson(v: Verification): Option<Id> { v.personId }
  function LinkVerification(l: JurisdictionLink): Option<Id> { Some(l.verificationId) }

  /** `new Map(profiles.map(p => [p.id, p.person_id]))`: the last row wins. */
  function ProfileToPerson(profiles: seq<Profile>): (m: map<Id, Option<Id>>)
    ensures forall p :: p in m <==> exists i :: 0 <= i < |profiles| && profiles[i].id == p
    ensures forall p :: p in m ==> exists i :: 0 <= i < |profiles| && profiles[i] == Profile(p, m[p])
    decreases |profiles|
  {
    if |profiles| == 0 then map[]
    else
      var pre := profiles[..|profiles| - 1];
      var last := profiles[|profiles| - 1];
      var m := ProfileToPerson(pre)[last.id := last.personId];
      assert forall i :: 0 <= i < |pre| ==> pre[i] == profiles[i];
      m
  }

  /** `map.get(k) || []` on a map of id lists. */
  function GetList(m: map<Id, seq<Id>>, k: Id): seq<Id> {
    if k in m then m[k] else []
  }

  /** A map of lists filled by `if (!m.has(k)) m.set(k, []); m.get(k).push(v)`. */
  function GroupPairs(pairs: seq<(Id, Id)>): (m: map<Id, seq<Id>>)
    ensures forall k, v :: v in GetList(m, k) <==> exists i :: 0 <= i < |pairs| && pairs[i] == (k, v)
    decreases |pairs|
  {
    if |pairs| == 0 then map[]
    else
      var pre := pairs[..|pairs| - 1];
      var last := pairs[|pairs| - 1];
      var m := GroupPairs(pre);
      assert forall i :: 0 <= i < |pre| ==> pre[i] == pairs[i];
      m[last.0 := GetList(m, last.0) + [last.1]]
  }

  /** `personToVVs`: verifications without a person are skipped. */
  function PersonToVerifications(vvs: seq<Verification>): (m: map<Id, seq<Id>>)
    ensures forall q, v :: v in GetList(m, q) <==> exists i :: 0 <= i < |vvs| && vvs[i].personId == Some(q) && vvs[i].id == v
  {
    var withPerson := Filter(vvs, (v: Verification) => v.personId.Some?);
    var pairs := seq(|withPerson|, i requires 0 <= i < |withPerson| => (withPerson[i].personId.value, withPerson[i].id));
    var m := GroupPairs(pairs);
    assert forall q, v :: v in GetList(m, q) <==> exists i :: 0 <= i < |vvs| && vvs[i].personId == Some(q) && vvs[i].id == v by {
      forall q, v
        ensures v in GetList(m, q) <==> exists i :: 0 <= i < |vvs| && vvs[i].personId == Some(q) && vvs[i].id == v
      {
        if v in GetList(m, q) {
          var i :| 0 <= i < |pairs| && pairs[i] == (q, v);
          var k :| 0 <= k < |vvs| && vvs[k] == withPerson[i];
        }
        if exists i :: 0 <= i < |vvs| && vvs[i].personId == Some(q) && vvs[i].id == v {
          var i :| 0 <= i < |vvs| && vvs[i].personId == Some(q) && vvs[i].id == v;
          var k :| 0 <= k < |withPerson| && withPerson[k] == vvs[i];
          assert pairs[k] == (q, v);
        }
      }
    }
    m
  }

  /** `vvToJurisdictions`. */
  function VerificationToJurisdictions(links: seq<JurisdictionLink>): (m: map<Id, seq<Id>>)
    ensures forall v, j :: j in GetList(m, v) <==> JurisdictionLink(v, j) in links
  {
    var pairs := seq(|links|, i requires 0 <= i < |links| => (links[i].verificationId, links[i].jurisdictionId));
    var m := GroupPairs(pairs);
    assert forall v, j :: j in GetList(m, v) <==> JurisdictionLink(v, j) in links by {
      forall v, j
        ensures j in GetList(m, v) <==> JurisdictionLink(v, j) in links
      {
        if j in GetList(m, v) {
          var i :| 0 <= i < |pairs| && pairs[i] == (v, j);
          assert links[i] == JurisdictionLink(v, j);
        }
        if JurisdictionLink(v, j) in links {
          var i :| 0 <= i < |links| && links[i] == JurisdictionLink(v, j);
          assert pairs[i] == (v, j);
        }
      }
    }
    m
  }

  /** The paths of one supporter row: for each of its person's verifications,
      for each jurisdiction of that verification, one mapping row. A supporter
      whose profile has no known person contributes nothing. */
  function PathsFor(s: GroupRel, toPerson: map<Id, Option<Id>>, toVerifications: map<Id, seq<Id>>,
                    toJurisdictions: map<Id, seq<Id>>): seq<MappingRow>
  {
    if s.profileId.None? || s.profileId.value !in toPerson || toPerson[s.profileId.value].None? then []
    else
      var vids := GetList(toVerifications, toPerson[s.profileId.value].value);
      Flatten(seq(|vids|, i requires 0 <= i < |vids| =>
        var js := GetList(toJurisdictions, vids[i]);
        seq(|js|, k requires 0 <= k < |js| => MappingRow(Some(js[k]), s.profileId, s.createdAt))))
  }

  /** The join's paths for each supporter row, in row order. */
  function PerSupporter(supporters: seq<GroupRel>, toPerson: map<Id, Option<Id>>, toVerifications: map<Id, seq<Id>>,
                        toJurisdictions: map<Id, seq<Id>>): (per: seq<seq<MappingRow>>)
    ensures |per| == |supporters|
  {
    seq(|supporters|, i requires 0 <= i < |supporters| =>
      PathsFor(supporters[i], toPerson, toVerifications, toJurisdictions))
  }

  function JoinPaths(supporters: seq<GroupRel>, toPerson: map<Id, Option<Id>>, toVerifications: map<Id, seq<Id>>,
                     toJurisdictions: map<Id, seq<Id>>): seq<MappingRow>
  {
    Flatten(PerSupporter(supporters, toPerson, toVerifications, toJurisdictions))
  }

  function SupporterProfileColumn(supporters: seq<GroupRel>): (col: seq<Option<Id>>)
    ensures |col| == |supporters|
  {
    seq(|supporters|, i requires 0 <= i < |supporters| => supporters[i].profileId)
  }

  function PersonColumn(profiles: seq<Profile>): (col: seq<Option<Id>>)
    ensures |col| == |profiles|
  {
    seq(|profiles|, i requires 0 <= i < |profiles| => profiles[i].personId)
  }

  function VerificationIds(vvs: seq<Verification>): (ids: seq<Id>)
    ensures |ids| == |vvs|
  {
    seq(|vvs|, i requires 0 <= i < |vvs| => vvs[i].id)
  }

  /** The intermediate results of the join, stage by stage. */
  datatype Stages = Stages(supporters: seq<GroupRel>, profileIds: seq<Id>, profiles: seq<Profile>, personIds: seq<Id>,
                           verifications: seq<Verification>, verificationIds: seq<Id>, links: seq<JurisdictionLink>)

  function JoinStages(network: seq<Id>, rels: seq<GroupRel>, profiles: seq<Profile>,
                      vvs: seq<Verification>, links: seq<JurisdictionLink>, f: JoinFailures): Stages
  {
    var supporters := NetworkSupporters(network, rels);
    var profileIds := Present(SupporterProfileColumn(supporters));
    var foundProfiles := BatchedLookup(profiles, ProfileKey, profileIds, f.profiles);
    var personIds := Present(PersonColumn(foundProfiles));
    var foundVerifications := BatchedLookup(vvs, VerificationPerson, personIds, f.verifications);
    var vvIds := VerificationIds(foundVerifications);
    Stages(supporters, profileIds, foundProfiles, personIds, foundVerifications, vvIds,
           BatchedLookup(links, LinkVerification, vvIds, f.links))
  }

  /** The paths of the join, built from the lookup maps of the stages. */
  function StagePaths(st: Stages): seq<MappingRow> {
    JoinPaths(st.supporters, ProfileToPerson(st.profiles), PersonToVerifications(st.verifications),
              VerificationToJurisdictions(st.links))
  }

  /** `getSupportersByJurisdiction`: empty when the supporter query fails or a
      stage of the join (profile ids, person ids, verification ids) comes back
      empty; otherwise the grouping of the join's paths. */
  function SupportersByJurisdiction(network: seq<Id>, rels: seq<GroupRel>, profiles: seq<Profile>,
                                    vvs: seq<Verification>, links: seq<JurisdictionLink>, f: JoinFailures): map<Id, Entry>
  {
    var st := JoinStages(network, rels, profiles, vvs, links, f);
    if f.supporters || |st.profileIds| == 0 || |st.personIds| == 0 || |st.verificationIds| == 0 then map[]
    else GroupRows(StagePaths(st))
  }

  /** A join whose supporters reach no verification has no paths. */
  lemma NoPaths(supporters: seq<GroupRel>, toPerson: map<Id, Option<Id>>, toVerifications: map<Id, seq<Id>>,
                toJurisdictions: map<Id, seq<Id>>)
    requires forall s :: (s in supporters && s.profileId.Some? && s.profileId.value in toPerson
                           && toPerson[s.profileId.value].Some?)
                         ==> GetList(toVerifications, toPerson[s.profileId.value].value) == []
    ensures JoinPaths(supporters, toPerson, toVerifications, toJurisdictions) == []
  {
    var per := PerSupporter(supporters, toPerson, toVerifications, toJurisdictions);
    forall k | 0 <= k < |per|
      ensures per[k] == []
    {
      assert supporters[k] in supporters;
    }
    var paths := JoinPaths(supporters, toPerson, toVerifications, toJurisdictions);
    if |paths| > 0 {
      FlattenMembership(per, paths[0]);
    }
  }

  lemma NoProfileIds(supporters: seq<GroupRel>)
    requires |Present(SupporterProfileColumn(supporters))| == 0
    ensures forall s :: s in supporters ==> s.profileId.None?
  {
    forall s | s in supporters
      ensures s.profileId.None?
    {
      var k :| 0 <= k < |supporters| && supporters[k] == s;
      assert SupporterProfileColumn(supporters)[k] == s.profileId;
    }
  }

  lemma NoPersonIds(profiles: seq<Profile>)
    requires |Present(PersonColumn(profiles))| == 0
    ensures forall p :: p in ProfileToPerson(profiles) ==> ProfileToPerson(profiles)[p].None?
  {
    var toPerson := ProfileToPerson(profiles);
    forall p | p in toPerson
      ensures toPerson[p].None?
    {
      var i :| 0 <= i < |profiles| && profiles[i] == Profile(p, toPerson[p]);
      assert PersonColumn(profiles)[i] == toPerson[p];
    }
  }

  lemma NoVerifications(vvs: seq<Verification>)
    requires |VerificationIds(vvs)| == 0
    ensures forall q :: GetList(PersonToVerifications(vvs), q) == []
  {
    forall q
      ensures GetList(PersonToVerifications(vvs), q) == []
    {
      var vids := GetList(PersonToVerifications(vvs), q);
      assert forall v :: v !in vids;
    }
  }

  /** The stages of `JoinStages`, each computed from the one before. */
  ghost predicate ChainedStages(st: Stages) {
    && st.profileIds == Present(SupporterProfileColumn(st.supporters))
    && st.personIds == Present(PersonColumn(st.profiles))
    && st.verificationIds == VerificationIds(st.verifications)
  }

  /** Every stage that comes back empty leaves the join without paths: no
      supporter carries a profile, no fetched profile has a person, or no
      person has a verification. */
  lemma EmptyStageNoPaths(st: Stages)
    requires ChainedStages(st)
    requires |st.profileIds| == 0 || |st.personIds| == 0 || |st.verificationIds| == 0
    ensures StagePaths(st) == []
  {
    var toPerson := ProfileToPerson(st.profiles);
    var toVerifications := PersonToVerifications(st.verifications);
    if |st.profileIds| == 0 {
      NoProfileIds(st.supporters);
    } else if |st.personIds| == 0 {
      NoPersonIds(st.profiles);
    } else {
      NoVerifications(st.verifications);
    }
    NoPaths(st.supporters, toPerson, toVerifications, VerificationToJurisdictions(st.links));
  }

  /** The early returns are shortcuts: unless the supporter query fails, the
      map is the grouping of the join's paths whichever stage comes back
      empty, and a network without supporter rows has no supporters. */
  lemma SupportersByJurisdictionShortcuts(network: seq<Id>, rels: seq<GroupRel>, profiles: seq<Profile>,
                                          vvs: seq<Verification>, links: seq<JurisdictionLink>, f: JoinFailures)
    ensures var m := SupportersByJurisdiction(network, rels, profiles, vvs, links, f);
      && (f.supporters ==> m == map[])
      && (!f.supporters ==> m == GroupRows(StagePaths(JoinStages(network, rels, profiles, vvs, links, f))))
      && (NetworkSupporters(network, rels) == [] ==> m == map[])
  {
    var st := JoinStages(network, rels, profiles, vvs, links, f);
    if |st.profileIds| == 0 || |st.personIds| == 0 || |st.verificationIds| == 0 {
      EmptyStageNoPaths(st);
    }
  }

  /** What a path of one supporter row says: the supporter's profile has a
      person, one of whose verifications is linked to the path's jurisdiction. */
  lemma PathsForSound(s: GroupRel, toPerson: map<Id, Option<Id>>, toVerifications: map<Id, seq<Id>>,
                      toJurisdictions: map<Id, seq<Id>>, row: MappingRow)
    requires row in PathsFor(s, toPerson, toVerifications, toJurisdictions)
    ensures row.profileId == s.profileId && s.profileId.Some? && row.jurisdictionId.Some?
    ensures s.profileId.value in toPerson && toPerson[s.profileId.value].Some?
    ensures exists vid :: vid in GetList(toVerifications, toPerson[s.profileId.value].value)
                      && row.jurisdictionId.value in GetList(toJurisdictions, vid)
  {
    var vids := GetList(toVerifications, toPerson[s.profileId.value].value);
    var inner := seq(|vids|, i requires 0 <= i < |vids| =>
      var js := GetList(toJurisdictions, vids[i]);
      seq(|js|, k requires 0 <= k < |js| => MappingRow(Some(js[k]), s.profileId, s.createdAt)));
    FlattenMembership(inner, row);
    var i :| 0 <= i < |inner| && row in inner[i];
    var js := GetList(toJurisdictions, vids[i]);
    var k :| 0 <= k < |js| && inner[i][k] == row;
    assert vids[i] in vids && js[k] in js;
  }

  lemma PathsForComplete(s: GroupRel, toPerson: map<Id, Option<Id>>, toVerifications: map<Id, seq<Id>>,
                         toJurisdictions: map<Id, seq<Id>>, p: Id, q: Id, vid: Id, j: Id)
    requires s.profileId == Some(p) && p in toPerson && toPerson[p] == Some(q)
    requires vid in GetList(toVerifications, q) && j in GetList(toJurisdictions, vid)
    ensures MappingRow(Some(j), Some(p), s.createdAt) in PathsFor(s, toPerson, toVerifications, toJurisdictions)
  {
    var vids := GetList(toVerifications, q);
    var inner := seq(|vids|, i requires 0 <= i < |vids| =>
      var js := GetList(toJurisdictions, vids[i]);
      seq(|js|, k requires 0 <= k < |js| => MappingRow(Some(js[k]), s.profileId, s.createdAt)));
    var i :| 0 <= i < |vids| && vids[i] == vid;
    var js := GetList(toJurisdictions, vid);
    var k :| 0 <= k < |js| && js[k] == j;
    assert inner[i][k] == MappingRow(Some(j), Some(p), s.createdAt);
    FlattenMembership(inner, MappingRow(Some(j), Some(p), s.createdAt));
  }

  /** Profile `p` reaches jurisdiction `j` along a path of the join. */
  ghost predicate JoinReaches(supporters: seq<GroupRel>, toPerson: map<Id, Option<Id>>, toVerifications: map<Id, seq<Id>>,
                              toJurisdictions: map<Id, seq<Id>>, p: Id, j: Id) {
    exists s :: s in supporters && s.profileId == Some(p) && p in toPerson && toPerson[p].Some?
      && exists vid :: vid in GetList(toVerifications, toPerson[p].value) && j in GetList(toJurisdictions, vid)
  }

  lemma JoinPathsProfiles(supporters: seq<GroupRel>, toPerson: map<Id, Option<Id>>, toVerifications: map<Id, seq<Id>>,
                          toJurisdictions: map<Id, seq<Id>>, p: Id, j: Id)
    ensures p in ProfilesOf(JoinPaths(supporters, toPerson, toVerifications, toJurisdictions), j)
        <==> JoinReaches(supporters, toPerson, toVerifications, toJurisdictions, p, j)
  {
    if p in ProfilesOf(JoinPaths(supporters, toPerson, toVerifications, toJurisdictions), j) {
      JoinPathsSound(supporters, toPerson, toVerifications, toJurisdictions, p, j);
    }
    if JoinReaches(supporters, toPerson, toVerifications, toJurisdictions, p, j) {
      JoinPathsComplete(supporters, toPerson, toVerifications, toJurisdictions, p, j);
    }
  }

  lemma JoinPathsSound(supporters: seq<GroupRel>, toPerson: map<Id, Option<Id>>, toVerifications: map<Id, seq<Id>>,
                       toJurisdictions: map<Id, seq<Id>>, p: Id, j: Id)
    requires p in ProfilesOf(JoinPaths(supporters, toPerson, toVerifications, toJurisdictions), j)
    ensures JoinReaches(supporters, toPerson, toVerifications, toJurisdictions, p, j)
  {
    var paths := JoinPaths(supporters, toPerson, toVerifications, toJurisdictions);
    var per := PerSupporter(supporters, toPerson, toVerifications, toJurisdictions);
    var i :| 0 <= i < |paths| && paths[i].jurisdictionId == Some(j) && paths[i].profileId == Some(p);
    FlattenMembership(per, paths[i]);
    var k :| 0 <= k < |per| && paths[i] in per[k];
    PathsForSound(supporters[k], toPerson, toVerifications, toJurisdictions, paths[i]);
    assert supporters[k] in supporters;
  }

  lemma JoinPathsComplete(supporters: seq<GroupRel>, toPerson: map<Id, Option<Id>>, toVerifications: map<Id, seq<Id>>,
                          toJurisdictions: map<Id, seq<Id>>, p: Id, j: Id)
    requires JoinReaches(supporters, toPerson, toVerifications, toJurisdictions, p, j)
    ensures p in ProfilesOf(JoinPaths(supporters, toPerson, toVerifications, toJurisdictions), j)
  {
    var paths := JoinPaths(supporters, toPerson, toVerifications, toJurisdictions);
    var per := PerSupporter(supporters, toPerson, toVerifications, toJurisdictions);
    var s :| s in supporters && s.profileId == Some(p) && p in toPerson && toPerson[p].Some?
      && exists vid :: vid in GetList(toVerifications, toPerson[p].value) && j in GetList(toJurisdictions, vid);
    var vid :| vid in GetList(toVerifications, toPerson[p].value) && j in GetList(toJurisdictions, vid);
    PathsForComplete(s, toPerson, toVerifications, toJurisdictions, p, toPerson[p].value, vid, j);
    var row := MappingRow(Some(j), Some(p), s.createdAt);
    var k :| 0 <= k < |supporters| && supporters[k] == s;
    assert row in per[k];
    FlattenMembership(per, row);
    var i :| 0 <= i < |paths| && paths[i] == row;
  }

  /** Profile `p` is linked to jurisdiction `j` in the tables: a supporter row of
      a network group carries `p`, the profile row `p` names a person, one of
      that person's voter verifications is linked to `j`. */
  ghost predicate Linked(network: seq<Id>, rels: seq<GroupRel>, profiles: seq<Profile>,
                         vvs: seq<Verification>, links: seq<JurisdictionLink>, p: Id, j: Id) {
    exists s, pr, v :: s in rels && s.relType == "supporter" && s.groupId.Some? && s.groupId.value in network
      && s.profileId == Some(p)
      && pr in profiles && pr.id == p && pr.personId.Some?
      && v in vvs && v.personId == pr.personId
      && JurisdictionLink(v.id, j) in links
  }

  /** `profiles.id` is a primary key. */
  ghost predicate UniqueProfileIds(profiles: seq<Profile>) {
    forall i, k :: 0 <= i < |profiles| && 0 <= k < |profiles| && profiles[i].id == profiles[k].id
      ==> profiles[i] == profiles[k]
  }

  /** Whatever queries fail, a profile the join places in a jurisdiction is
      linked to it in the tables. */
  lemma JoinSound(network: seq<Id>, rels: seq<GroupRel>, profiles: seq<Profile>, vvs: seq<Verification>,
                  links: seq<JurisdictionLink>, f: JoinFailures, p: Id, j: Id)
    requires p in ProfilesAt(SupportersByJurisdiction(network, rels, profiles, vvs, links, f), j)
    ensures Linked(network, rels, profiles, vvs, links, p, j)
  {
    var st := JoinStages(network, rels, profiles, vvs, links, f);
    ProfilesAtGroupRows(StagePaths(st), j);
    var toPerson := ProfileToPerson(st.profiles);
    var toVerifications := PersonToVerifications(st.verifications);
    var toJurisdictions := VerificationToJurisdictions(st.links);
    JoinPathsProfiles(st.supporters, toPerson, toVerifications, toJurisdictions, p, j);
    var s :| s in st.supporters && s.profileId == Some(p) && p in toPerson && toPerson[p].Some?
      && exists vid :: vid in GetList(toVerifications, toPerson[p].value) && j in GetList(toJurisdictions, vid);
    var q := toPerson[p].value;
    var vid :| vid in GetList(toVerifications, q) && j in GetList(toJurisdictions, vid);
    StagesSound(network, rels, profiles, vvs, links, f, s, p, q, vid, j);
  }

  lemma StagesSound(network: seq<Id>, rels: seq<GroupRel>, profiles: seq<Profile>, vvs: seq<Verification>,
                    links: seq<JurisdictionLink>, f: JoinFailures, s: GroupRel, p: Id, q: Id, vid: Id, j: Id)
    requires var st := JoinStages(network, rels, profiles, vvs, links, f);
      s in st.supporters && s.profileId == Some(p)
      && p in ProfileToPerson(st.profiles) && ProfileToPerson(st.profiles)[p] == Some(q)
      && vid in GetList(PersonToVerifications(st.verifications), q)
      && j in GetList(VerificationToJurisdictions(st.links), vid)
    ensures Linked(network, rels, profiles, vvs, links, p, j)
  {
    var st := JoinStages(network, rels, profiles, vvs, links, f);
    var ip :| 0 <= ip < |st.profiles| && st.profiles[ip] == Profile(p, Some(q));
    BatchedLookupSound(profiles, ProfileKey, st.profileIds, f.profiles, st.profiles[ip]);
    var iv :| 0 <= iv < |st.verifications| && st.verifications[iv].personId == Some(q) && st.verifications[iv].id == vid;
    BatchedLookupSound(vvs, VerificationPerson, st.personIds, f.verifications, st.verifications[iv]);
    BatchedLookupSound(links, LinkVerification, st.verificationIds, f.links, JurisdictionLink(vid, j));
    var si :| 0 <= si < |st.supporters| && st.supporters[si] == s;
    assert s in rels && s.relType == "supporter" && s.groupId.Some? && s.groupId.value in network;
    assert Profile(p, Some(q)) in profiles && st.verifications[iv] in vvs;
  }

  /** With every query succeeding and profile ids unique, a profile linked to a
      jurisdiction in the tables is in that jurisdiction's set. */
  lemma JoinComplete(network: seq<Id>, rels: seq<GroupRel>, profiles: seq<Profile>, vvs: seq<Verification>,
                     links: seq<JurisdictionLink>, p: Id, j: Id)
    requires UniqueProfileIds(profiles)
    requires Linked(network, rels, profiles, vvs, links, p, j)
    ensures p in ProfilesAt(SupportersByJurisdiction(network, rels, profiles, vvs, links, NoFailures()), j)
  {
    var f := NoFailures();
    var st := JoinStages(network, rels, profiles, vvs, links, f);
    var s, pr, v :| s in rels && s.relType == "supporter" && s.groupId.Some? && s.groupId.value in network
      && s.profileId == Some(p)
      && pr in profiles && pr.id == p && pr.personId.Some?
      && v in vvs && v.personId == pr.personId
      && JurisdictionLink(v.id, j) in links;
    var q := pr.personId.value;
    StagesComplete(network, rels, profiles, vvs, links, s, pr, v, j);
    var toPerson := ProfileToPerson(st.profiles);
    var toVerifications := PersonToVerifications(st.verifications);
    var toJurisdictions := VerificationToJurisdictions(st.links);
    ProfileToPersonUnique(profiles, st.profileIds, pr);
    assert v.id in GetList(toVerifications, q);
    assert j in GetList(toJurisdictions, v.id);
    JoinPathsProfiles(st.supporters, toPerson, toVerifications, toJurisdictions, p, j);
    ProfilesAtGroupRows(StagePaths(st), j);
  }

  /** Each row of a linking chain survives its stage of the join. */
  lemma StagesComplete(network: seq<Id>, rels: seq<GroupRel>, profiles: seq<Profile>, vvs: seq<Verification>,
                       links: seq<JurisdictionLink>, s: GroupRel, pr: Profile, v: Verification, j: Id)
    requires s in rels && s.relType == "supporter" && s.groupId.Some? && s.groupId.value in network
    requires s.profileId == Some(pr.id) && pr in profiles && pr.personId.Some?
    requires v in vvs && v.personId == pr.personId && JurisdictionLink(v.id, j) in links
    ensures var st := JoinStages(network, rels, profiles, vvs, links, NoFailures());
      s in st.supporters && pr.id in st.profileIds && pr in st.profiles && pr.personId.value in st.personIds
      && v in st.verifications && v.id in st.verificationIds && JurisdictionLink(v.id, j) in st.links
  {
    var st := JoinStages(network, rels, profiles, vvs, links, NoFailures());
    var si :| 0 <= si < |rels| && rels[si] == s;
    assert s in st.supporters;
    ProfileIdListed(st.supporters, s);
    BatchedLookupComplete(profiles, ProfileKey, st.profileIds, pr);
    PersonIdListed(st.profiles, pr);
    BatchedLookupComplete(vvs, VerificationPerson, st.personIds, v);
    VerificationIdListed(st.verifications, v);
    BatchedLookupComplete(links, LinkVerification, st.verificationIds, JurisdictionLink(v.id, j));
  }

  lemma ProfileIdListed(supporters: seq<GroupRel>, s: GroupRel)
    requires s in supporters && s.profileId.Some?
    ensures s.profileId.value in Present(SupporterProfileColumn(supporters))
  {
    var k :| 0 <= k < |supporters| && supporters[k] == s;
    assert SupporterProfileColumn(supporters)[k] == s.profileId;
  }

  lemma PersonIdListed(profiles: seq<Profile>, pr: Profile)
    requires pr in profiles && pr.personId.Some?
    ensures pr.personId.value in Present(PersonColumn(profiles))
  {
    var k :| 0 <= k < |profiles| && profiles[k] == pr;
    assert PersonColumn(profiles)[k] == pr.personId;
  }

  lemma VerificationIdListed(vvs: seq<Verification>, v: Verification)
    requires v in vvs
    ensures v.id in VerificationIds(vvs)
  {
    var k :| 0 <= k < |vvs| && vvs[k] == v;
    assert VerificationIds(vvs)[k] == v.id;
  }

  /** With unique profile ids, the profile-to-person map gives each fetched
      profile its own person. */
  lemma ProfileToPersonUnique(profiles: seq<Profile>, profileIds: seq<Id>, pr: Profile)
    requires UniqueProfileIds(profiles)
    requires pr in BatchedLookup(profiles, ProfileKey, profileIds, {})
    ensures var m := ProfileToPerson(BatchedLookup(profiles, ProfileKey, profileIds, {}));
            pr.id in m && m[pr.id] == pr.personId
  {
    var found := BatchedLookup(profiles, ProfileKey, profileIds, {});
    var m := ProfileToPerson(found);
    var k :| 0 <= k < |found| && found[k] == pr;
    assert pr.id in m;
    var i :| 0 <= i < |found| && found[i] == Profile(pr.id, m[pr.id]);
    BatchedLookupSound(profiles, ProfileKey, profileIds, {}, found[i]);
    BatchedLookupSound(profiles, ProfileKey, profileIds, {}, pr);
    var a :| 0 <= a < |profiles| && profiles[a] == found[i];
    var b :| 0 <= b < |profiles| && profiles[b] == pr;
  }

  /** When the mapping view holds exactly the linked (jurisdiction, profile)
      pairs, the client's grouping and the server's join give every
      jurisdiction the same profile set. */
  lemma ClientMatchesServer(network: seq<Id>, rels: seq<GroupRel>, profiles: seq<Profile>, vvs: seq<Verification>,
                            links: seq<JurisdictionLink>, rows: seq<MappingRow>, j: Id)
    requires UniqueProfileIds(profiles)
    requires forall p: Id :: (exists i :: 0 <= i < |rows| && rows[i].jurisdictionId == Some(j) && rows[i].profileId == Some(p))
                         <==> Linked(network, rels, profiles, vvs, links, p, j)
    ensures ProfilesAt(GroupRows(rows), j) == ProfilesAt(SupportersByJurisdiction(network, rels, profiles, vvs, links, NoFailures()), j)
  {
    forall p: Id
      ensures p in ProfilesAt(GroupRows(rows), j)
          <==> p in ProfilesAt(SupportersByJurisdiction(network, rels, profiles, vvs, links, NoFailures()), j)
    {
      ClientMatchesServerAt(network, rels, profiles, vvs, links, rows, j, p);
    }
  }

  lemma ClientMatchesServerAt(network: seq<Id>, rels: seq<GroupRel>, profiles: seq<Profile>, vvs: seq<Verification>,
                              links: seq<JurisdictionLink>, rows: seq<MappingRow>, j: Id, p: Id)
    requires UniqueProfileIds(profiles)
    requires (exists i :: 0 <= i < |rows| && rows[i].jurisdictionId == Some(j) && rows[i].profileId == Some(p))
             <==> Linked(network, rels, profiles, vvs, links, p, j)
    ensures p in ProfilesAt(GroupRows(rows), j)
        <==> p in ProfilesAt(SupportersByJurisdiction(network, rels, profiles, vvs, links, NoFailures()), j)
  {
    ProfilesAtGroupRows(rows, j);
    if p in ProfilesAt(SupportersByJurisdiction(network, rels, profiles, vvs, links, NoFailures()), j) {
      JoinSound(network, rels, profiles, vvs, links, NoFailures(), p, j);
    }
    if p in ProfilesOf(rows, j) {
      JoinComplete(network, rels, profiles, vvs, links, p, j);
    }
  }
}
