/** `getViewpointGroupNetwork` (lib/leader-context.ts) and its client copy
    `getViewpointGroupNetworkClient` (lib/queries-client.ts): the root group
    plus every group led by a supporter of the root, one hop deep. */
module Network {
  import opened Wrappers
  import opened Seqs
  import opened Batching
  import opened Calendar

  /** A row of `profile_viewpoint_group_rels`. */
  datatype GroupRel = GroupRel(profileId: Option<Id>, groupId: Option<Id>, relType: string, createdAt: Option<Instant>)

  predicate SupportsGroup(r: GroupRel, group: Id) {
    r.groupId == Some(group) && r.relType == "supporter"
  }

  predicate LeadsGroup(r: GroupRel, profile: Id, group: Id) {
    r.profileId == Some(profile) && r.groupId == Some(group) && r.relType == "leader"
  }

  /** Group `g` is led by someone who supports `root`. */
  ghost predicate LedBySupporter(root: Id, rels: seq<GroupRel>, g: Id) {
    exists s, l :: s in rels && l in rels && SupportsGroup(s, root) && s.profileId.Some?
      && LeadsGroup(l, s.profileId.value, g)
  }

  function ProfileOf(r: GroupRel): Option<Id> {
    r.profileId
  }

  function SupporterRows(root: Id, rels: seq<GroupRel>): seq<GroupRel> {
    Filter(rels, (r: GroupRel) => SupportsGroup(r, root))
  }

  /** The supporter query: the `profile_id` column of the root's supporter rows. */
  function SupporterColumn(root: Id, rels: seq<GroupRel>): (col: seq<Option<Id>>)
    ensures |col| == |SupporterRows(root, rels)|
  {
    var rows := SupporterRows(root, rels);
    seq(|rows|, i requires 0 <= i < |rows| => rows[i].profileId)
  }

  /** The leader rows eligible for the sub-group query: `.eq("type", "leader")`
      and `.neq("viewpoint_group_id", root)`, which also excludes a null group. */
  function LeaderRows(root: Id, rels: seq<GroupRel>): seq<GroupRel> {
    Filter(rels, (r: GroupRel) => r.relType == "leader" && r.groupId.Some? && r.groupId.value != root)
  }

  function SubGroupIds(rows: seq<GroupRel>): (col: seq<Option<Id>>)
    ensures |col| == |rows|
  {
    seq(|rows|, i requires 0 <= i < |rows| => rows[i].groupId)
  }

  /** The sub-group query excludes the root (`.neq("viewpoint_group_id", root)`). */
  lemma SubGroupsAvoidRoot(root: Id, rels: seq<GroupRel>, ids: seq<Id>, failed: set<nat>)
    ensures root !in Present(SubGroupIds(BatchedLookup(LeaderRows(root, rels), ProfileOf, ids, failed)))
  {
    var subGroups := BatchedLookup(LeaderRows(root, rels), ProfileOf, ids, failed);
    var present := Present(SubGroupIds(subGroups));
    if root in present {
      var i :| 0 <= i < |present| && present[i] == root;
      var k :| 0 <= k < |subGroups| && SubGroupIds(subGroups)[k] == Some(root);
      BatchedLookupSound(LeaderRows(root, rels), ProfileOf, ids, failed, subGroups[k]);
    }
  }

  /** The network in `Array.from(network)` order. `supportersFailed` is the
      error of the supporter query; `failed` holds the indices of the sub-group
      batches whose query failed. */
  function ResolveNetwork(root: Id, rels: seq<GroupRel>, supportersFailed: bool, failed: set<nat>): (r: seq<Id>)
    ensures |r| > 0 && r[0] == root && NoDups(r)
    ensures supportersFailed || |Present(SupporterColumn(root, rels))| == 0 ==> r == [root]
  {
    var ids := Present(SupporterColumn(root, rels));
    if supportersFailed || |ids| == 0 then [root]
    else
      var subGroups := BatchedLookup(LeaderRows(root, rels), ProfileOf, ids, failed);
      var found := Dedup(Present(SubGroupIds(subGroups)));
      SubGroupsAvoidRoot(root, rels, ids, failed);
      ConsNoDups(root, found);
      [root] + found
  }

  /** A non-root member came from a row returned by the sub-group query. */
  lemma MemberFromSubGroupRow(root: Id, rels: seq<GroupRel>, supportersFailed: bool, failed: set<nat>, g: Id)
    returns (l: GroupRel)
    requires g in ResolveNetwork(root, rels, supportersFailed, failed) && g != root
    ensures l in BatchedLookup(LeaderRows(root, rels), ProfileOf, Present(SupporterColumn(root, rels)), failed)
    ensures l.groupId == Some(g)
  {
    var ids := Present(SupporterColumn(root, rels));
    var subGroups := BatchedLookup(LeaderRows(root, rels), ProfileOf, ids, failed);
    var found := Dedup(Present(SubGroupIds(subGroups)));
    assert g in found by {
      assert ResolveNetwork(root, rels, supportersFailed, failed) == [root] + found;
    }
    l := SubGroupRowOf(subGroups, g);
  }

  /** A found group comes from a returned sub-group row. */
  lemma SubGroupRowOf(subGroups: seq<GroupRel>, g: Id) returns (l: GroupRel)
    requires g in Dedup(Present(SubGroupIds(subGroups)))
    ensures l in subGroups && l.groupId == Some(g)
  {
    var col := SubGroupIds(subGroups);
    var present := Present(col);
    assert g in present by {
      var i :| 0 <= i < |Dedup(present)| && Dedup(present)[i] == g;
    }
    assert Some(g) in col by {
      var i :| 0 <= i < |present| && present[i] == g;
    }
    var k :| 0 <= k < |col| && col[k] == Some(g);
    l := subGroups[k];
  }

  /** Every member other than the root is led by a supporter of the root: the
      resolution goes one hop and never expands groups it reached. */
  lemma NetworkSound(root: Id, rels: seq<GroupRel>, supportersFailed: bool, failed: set<nat>, g: Id)
    requires g in ResolveNetwork(root, rels, supportersFailed, failed) && g != root
    ensures LedBySupporter(root, rels, g)
  {
    var ids := Present(SupporterColumn(root, rels));
    var l := MemberFromSubGroupRow(root, rels, supportersFailed, failed, g);
    BatchedLookupSound(LeaderRows(root, rels), ProfileOf, ids, failed, l);
    var p := l.profileId.value;
    var s := SupporterWithProfile(root, rels, p);
    assert s in rels && l in rels && SupportsGroup(s, root) && s.profileId.Some? && LeadsGroup(l, s.profileId.value, g);
  }

  /** A profile id in the supporter column comes from a supporter row of the root. */
  lemma SupporterWithProfile(root: Id, rels: seq<GroupRel>, p: Id) returns (s: GroupRel)
    requires Some(p) in SupporterColumn(root, rels)
    ensures s in rels && SupportsGroup(s, root) && s.profileId == Some(p)
  {
    var rows := SupporterRows(root, rels);
    var j :| 0 <= j < |rows| && rows[j].profileId == Some(p);
    s := rows[j];
  }

  /** With every query succeeding, every group led by a supporter of the root
      is in the network. */
  lemma NetworkComplete(root: Id, rels: seq<GroupRel>, g: Id)
    requires g != root && LedBySupporter(root, rels, g)
    ensures g in ResolveNetwork(root, rels, false, {})
  {
    var s, l :| s in rels && l in rels && SupportsGroup(s, root) && s.profileId.Some?
      && LeadsGroup(l, s.profileId.value, g);
    var ids := Present(SupporterColumn(root, rels));
    SupporterListed(root, rels, s);
    var table := LeaderRows(root, rels);
    var jl :| 0 <= jl < |rels| && rels[jl] == l;
    assert l in table;
    BatchedLookupComplete(table, ProfileOf, ids, l);
    SubGroupListed(BatchedLookup(table, ProfileOf, ids, {}), l);
  }

  /** A supporter row of the root puts its profile id among the looked-up ids. */
  lemma SupporterListed(root: Id, rels: seq<GroupRel>, s: GroupRel)
    requires s in rels && SupportsGroup(s, root) && s.profileId.Some?
    ensures s.profileId.value in Present(SupporterColumn(root, rels))
  {
    var rows := SupporterRows(root, rels);
    var j :| 0 <= j < |rels| && rels[j] == s;
    assert s in rows;
    var k :| 0 <= k < |rows| && rows[k] == s;
    assert SupporterColumn(root, rels)[k] == s.profileId;
  }

  /** A returned sub-group row puts its group among the found groups. */
  lemma SubGroupListed(subGroups: seq<GroupRel>, l: GroupRel)
    requires l in subGroups && l.groupId.Some?
    ensures l.groupId.value in Dedup(Present(SubGroupIds(subGroups)))
  {
    var m :| 0 <= m < |subGroups| && subGroups[m] == l;
    assert SubGroupIds(subGroups)[m] == l.groupId;
  }

  /** A failing sub-group batch only removes groups from the network. */
  lemma NetworkFailuresOnlyDrop(root: Id, rels: seq<GroupRel>, failed: set<nat>, g: Id)
    requires g in ResolveNetwork(root, rels, false, failed)
    ensures g in ResolveNetwork(root, rels, false, {})
  {
    if g != root {
      NetworkSound(root, rels, false, failed, g);
      NetworkComplete(root, rels, g);
    }
  }
}
