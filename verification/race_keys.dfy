/** The race foreign-key repair scripts, scripts/data-loading/fix-races-via-mcp.ts
    and scripts/data-loading/fix-races-foreign-keys.ts: each race is checked
    against the ids that exist in the referenced tables, the races that pass
    become one `INSERT ... ON CONFLICT (id) DO NOTHING;` statement, and the
    others are reported with their reasons. The id lookups are the scripts'
    only database access; their answers are a parameter. */
module RaceKeys {
  import opened Wrappers
  import opened Seqs
  import opened Strings

  datatype Race = Race(
    id: string,
    createdAt: string,
    updatedAt: string,
    officeTermId: string,
    ballotItemId: string,
    partyId: Option<string>,
    isPartisan: bool,
    isPrimary: bool,
    isRecall: bool,
    isRunoff: bool,
    isOffSchedule: bool,
    civicEngineId: string)

  /** The ids found in `office_terms`, `ballot_items` and `parties`. */
  datatype Existing = Existing(officeTerms: set<string>, ballotItems: set<string>, parties: set<string>)

  /** What the `getExistingIds` stubs of both scripts return: nothing. */
  const NoIds: Existing := Existing({}, {}, {})

  /** A race whose references all exist; a null party needs no check. */
  predicate IsValid(r: Race, ex: Existing) {
    && r.officeTermId in ex.officeTerms
    && r.ballotItemId in ex.ballotItems
    && (r.partyId.None? || r.partyId.value in ex.parties)
  }

  function ValidIn(ex: Existing): Race -> bool {
    (r: Race) => IsValid(r, ex)
  }

  function InvalidIn(ex: Existing): Race -> bool {
    (r: Race) => !IsValid(r, ex)
  }

  function OfficeReason(r: Race): string { "office_term_id: " + r.officeTermId }
  function BallotReason(r: Race): string { "ballot_item_id: " + r.ballotItemId }
  function PartyReason(p: string): string { "party_id: " + p }

  /** The reasons a race is rejected, one per missing reference, in the
      order the checks are made. */
  function Reasons(r: Race, ex: Existing): seq<string> {
    (if r.officeTermId !in ex.officeTerms then [OfficeReason(r)] else [])
    + (if r.ballotItemId !in ex.ballotItems then [BallotReason(r)] else [])
    + (if r.partyId.Some? && r.partyId.value !in ex.parties then [PartyReason(r.partyId.value)] else [])
  }

  /** The reasons name exactly the references that fail, each once, and
      there are none exactly when the race is valid: the two scripts' two
      ways of judging a race agree. */
  lemma ReasonsSpec(r: Race, ex: Existing)
    ensures var rs := Reasons(r, ex);
      && |rs| <= 3
      && NoDups(rs)
      && (|rs| == 0 <==> IsValid(r, ex))
      && (OfficeReason(r) in rs <==> r.officeTermId !in ex.officeTerms)
      && (BallotReason(r) in rs <==> r.ballotItemId !in ex.ballotItems)
      && (forall p :: PartyReason(p) in rs <==> r.partyId == Some(p) && p !in ex.parties)
      && (forall s :: s in rs ==> s == OfficeReason(r) || s == BallotReason(r) || (r.partyId.Some? && s == PartyReason(r.partyId.value)))
  {
    var o, b := OfficeReason(r), BallotReason(r);
    assert o[0] == 'o' && b[0] == 'b';
    forall p ensures PartyReason(p)[0] == 'p' && PartyReason(p) != o && PartyReason(p) != b {
      assert PartyReason(p)[0] == 'p';
    }
    forall p | PartyReason(p) == PartyReason(r.partyId.GetOr(""))
      ensures p == r.partyId.GetOr("")
    {
      assert p == PartyReason(p)[10..];
      assert r.partyId.GetOr("") == PartyReason(r.partyId.GetOr(""))[10..];
    }
  }

  /** An item a check rejected, with the reasons it gave. */
  datatype Rejected<T, R> = Rejected(item: T, reasons: seq<R>)

  function ItemOf<T, R>(x: Rejected<T, R>): T { x.item }

  function Passes<T, R>(check: T -> seq<R>): T -> bool {
    (x: T) => |check(x)| == 0
  }

  function Fails<T, R>(check: T -> seq<R>): T -> bool {
    (x: T) => |check(x)| > 0
  }

  /** A rejection carries the check's own, non-empty, reasons. */
  ghost predicate Explained<T, R>(check: T -> seq<R>, y: Rejected<T, R>) {
    y.reasons == check(y.item) && |y.reasons| > 0
  }

  /** The state of the loop below after the first `i` items. */
  ghost predicate PartitionedUpTo<T, R>(xs: seq<T>, i: nat, check: T -> seq<R>, passed: seq<T>, failed: seq<Rejected<T, R>>)
    requires i <= |xs|
  {
    && passed == Filter(xs[..i], Passes(check))
    && Map(failed, ItemOf) == Filter(xs[..i], Fails(check))
    && |passed| + |failed| == i
    && forall j :: 0 <= j < |failed| ==> Explained(check, failed[j])
  }

  /** An item with no reasons joins the kept list. */
  lemma PartitionPass<T, R>(xs: seq<T>, i: nat, check: T -> seq<R>, passed: seq<T>, failed: seq<Rejected<T, R>>)
    requires i < |xs| && PartitionedUpTo(xs, i, check, passed, failed) && |check(xs[i])| == 0
    ensures PartitionedUpTo(xs, i + 1, check, passed + [xs[i]], failed)
  {
    FilterPrefixStep(xs, i, Passes(check));
    FilterPrefixStep(xs, i, Fails(check));
  }

  /** An item with reasons joins the rejected list, with its reasons. */
  lemma PartitionFail<T, R>(xs: seq<T>, i: nat, check: T -> seq<R>, passed: seq<T>, failed: seq<Rejected<T, R>>)
    requires i < |xs| && PartitionedUpTo(xs, i, check, passed, failed) && |check(xs[i])| > 0
    ensures PartitionedUpTo(xs, i + 1, check, passed, failed + [Rejected(xs[i], check(xs[i]))])
  {
    FilterPrefixStep(xs, i, Passes(check));
    FilterPrefixStep(xs, i, Fails(check));
    var y := Rejected(xs[i], check(xs[i]));
    MapSnoc(failed, y, ItemOf);
    assert forall j :: 0 <= j < |failed| ==> (failed + [y])[j] == failed[j];
  }

  /** The loop `for (const x of xs) { reasons = check(x); ... }`: an item
      with no reasons is kept, any other is rejected with its reasons, both
      lists in input order. */
  method Partition<T, R>(xs: seq<T>, check: T -> seq<R>) returns (passed: seq<T>, failed: seq<Rejected<T, R>>)
    ensures passed == Filter(xs, Passes(check))
    ensures Map(failed, ItemOf) == Filter(xs, Fails(check))
    ensures |passed| + |failed| == |xs|
    ensures forall j :: 0 <= j < |failed| ==> failed[j].reasons == check(failed[j].item) && |failed[j].reasons| > 0
  {
    passed, failed := [], [];
    var i := 0;
    while i < |xs|
      invariant 0 <= i <= |xs|
      invariant PartitionedUpTo(xs, i, check, passed, failed)
      decreases |xs| - i
    {
      var x := xs[i];
      var reasons := check(x);
      if |reasons| == 0 {
        PartitionPass(xs, i, check, passed, failed);
        passed := passed + [x];
      } else {
        PartitionFail(xs, i, check, passed, failed);
        failed := failed + [Rejected(x, reasons)];
      }
      i := i + 1;
    }
    assert xs[..|xs|] == xs;
  }

  function RaceReasons(ex: Existing): Race -> seq<string> {
    (r: Race) => Reasons(r, ex)
  }

  /** The validation loop of fix-races-via-mcp.ts: every race goes, in input
      order, to the valid list or, with its reasons, to the invalid list. */
  method PartitionRaces(races: seq<Race>, ex: Existing) returns (valid: seq<Race>, invalid: seq<Rejected<Race, string>>)
    ensures valid == Filter(races, ValidIn(ex))
    ensures Map(invalid, ItemOf) == Filter(races, InvalidIn(ex))
    ensures |valid| + |invalid| == |races|
    ensures forall j :: 0 <= j < |invalid| ==>
      invalid[j].reasons == Reasons(invalid[j].item, ex) && |invalid[j].reasons| > 0
  {
    valid, invalid := Partition(races, RaceReasons(ex));
    forall i | 0 <= i < |races|
      ensures Passes(RaceReasons(ex))(races[i]) == ValidIn(ex)(races[i])
      ensures Fails(RaceReasons(ex))(races[i]) == InvalidIn(ex)(races[i])
    {
      ReasonsSpec(races[i], ex);
    }
    FilterSame(races, Passes(RaceReasons(ex)), ValidIn(ex));
    FilterSame(races, Fails(RaceReasons(ex)), InvalidIn(ex));
  }

  lemma FilterPrefixStep<T>(s: seq<T>, i: nat, p: T -> bool)
    requires i < |s|
    ensures Filter(s[..i + 1], p) == Filter(s[..i], p) + (if p(s[i]) then [s[i]] else [])
  {
    assert s[..i + 1] == s[..i] + [s[i]];
    FilterSnoc(s[..i], s[i], p);
  }

  /** `${flag}` for a boolean. */
  function BoolText(b: bool): string {
    if b then "true" else "false"
  }

  /** The party column: the quoted id, or `NULL` for a falsy one (null or ""). */
  function PartyText(p: Option<string>): string {
    if p.Some? && |p.value| > 0 then "'" + p.value + "'" else "NULL"
  }

  /** The twelve values of a race's tuple, in column order; ids and
      timestamps are quoted without escaping. */
  function RaceFields(r: Race): (fs: seq<string>)
    ensures |fs| == 12
  {
    [ "'" + r.id + "'",
      "'" + r.createdAt + "'::timestamptz",
      "'" + r.updatedAt + "'::timestamptz",
      "'" + r.officeTermId + "'",
      "'" + r.ballotItemId + "'",
      PartyText(r.partyId),
      BoolText(r.isPartisan),
      BoolText(r.isPrimary),
      BoolText(r.isRecall),
      BoolText(r.isRunoff),
      BoolText(r.isOffSchedule),
      "'" + r.civicEngineId + "'" ]
  }

  /** The text between a pair of single quotes, if `t` is so quoted. */
  function Unquote(t: string): Option<string> {
    if |t| >= 2 && t[0] == '\'' && t[|t| - 1] == '\'' then Some(t[1..|t| - 1]) else None
  }

  const TimestampCast: string := "::timestamptz"

  /** Each value of a tuple reads back as the race's field for its column:
      the four ids unquote to themselves, the two timestamps unquote to
      themselves once the cast is dropped, and each flag column reads `true`
      exactly when the flag is set. */
  lemma RaceFieldsDecode(r: Race)
    ensures var fs := RaceFields(r);
      && Unquote(fs[0]) == Some(r.id)
      && Unquote(fs[3]) == Some(r.officeTermId)
      && Unquote(fs[4]) == Some(r.ballotItemId)
      && Unquote(fs[11]) == Some(r.civicEngineId)
    ensures var fs := RaceFields(r);
      && |fs[1]| >= |TimestampCast| && fs[1][|fs[1]| - |TimestampCast|..] == TimestampCast
      && Unquote(fs[1][..|fs[1]| - |TimestampCast|]) == Some(r.createdAt)
      && |fs[2]| >= |TimestampCast| && fs[2][|fs[2]| - |TimestampCast|..] == TimestampCast
      && Unquote(fs[2][..|fs[2]| - |TimestampCast|]) == Some(r.updatedAt)
    ensures var fs := RaceFields(r);
      && (fs[6] == "true" <==> r.isPartisan)
      && (fs[7] == "true" <==> r.isPrimary)
      && (fs[8] == "true" <==> r.isRecall)
      && (fs[9] == "true" <==> r.isRunoff)
      && (fs[10] == "true" <==> r.isOffSchedule)
  {
    var fs := RaceFields(r);
    assert fs[1][..|fs[1]| - |TimestampCast|] == "'" + r.createdAt + "'";
    assert fs[2][..|fs[2]| - |TimestampCast|] == "'" + r.updatedAt + "'";
  }

  function RaceTuple(r: Race): string {
    "(" + Join(RaceFields(r), ", ") + ")"
  }

  /** The party column reads `NULL` exactly when the party is null or the
      empty string; any other party id is written quoted. A race with party
      "" is checked against `parties` but stored without a party. */
  lemma PartyColumn(r: Race)
    ensures RaceFields(r)[5] == "NULL" <==> r.partyId.None? || r.partyId.value == ""
    ensures r.partyId.Some? && r.partyId.value != "" ==>
      var t := RaceFields(r)[5]; |t| >= 2 && t[0] == '\'' && t[1..|t| - 1] == r.partyId.value && t[|t| - 1] == '\''
  {
    if r.partyId.Some? && r.partyId.value != "" {
      assert RaceFields(r)[5][0] == '\'';
    }
  }

  const ValuesSep: string := ",\n    "

  function Values(races: seq<Race>): string {
    Join(Map(races, RaceTuple), ValuesSep)
  }

  const InsertHead: string :=
    "INSERT INTO races (id, created_at, updated_at, office_term_id, ballot_item_id, party_id, is_partisan, is_primary, is_recall, is_runoff, is_off_schedule, civic_engine_id)\nVALUES\n    "

  const OnConflictId: string := "\nON CONFLICT (id) DO NOTHING;"

  /** The statement both scripts build for the valid races. */
  function InsertSql(races: seq<Race>): (sql: string)
    ensures |sql| >= |InsertHead| + |OnConflictId|
    ensures sql[..|InsertHead|] == InsertHead
    ensures sql[|sql| - |OnConflictId|..] == OnConflictId
  {
    var sql := InsertHead + Values(races) + OnConflictId;
    assert sql[..|InsertHead|] == InsertHead;
    assert sql[|sql| - |OnConflictId|..] == OnConflictId;
    sql
  }

  const NoRacesComment: string := "-- No valid races to insert"

  /** `generateInsertSQL(races)` of fix-races-via-mcp.ts: a comment for no
      races, the statement otherwise. */
  function GenerateInsertSql(races: seq<Race>): (sql: string)
    ensures sql == NoRacesComment <==> |races| == 0
    ensures |races| > 0 ==> sql == InsertSql(races)
  {
    if |races| == 0 then NoRacesComment
    else
      var sql := InsertSql(races);
      assert |sql| > |NoRacesComment|;
      sql
  }

  lemma {:induction false} JoinAppend(a: seq<string>, b: seq<string>, sep: string)
    requires |a| > 0 && |b| > 0
    ensures Join(a + b, sep) == Join(a, sep) + sep + Join(b, sep)
    decreases |a|
  {
    if |a| == 1 {
      assert (a + b)[1..] == b;
    } else {
      assert (a + b)[1..] == a[1..] + b;
      JoinAppend(a[1..], b, sep);
    }
  }

  lemma {:induction false} MapAppend<A, B>(a: seq<A>, b: seq<A>, f: A -> B)
    ensures Map(a + b, f) == Map(a, f) + Map(b, f)
    decreases |a|
  {
    if |a| > 0 {
      assert (a + b)[1..] == a[1..] + b;
      MapAppend(a[1..], b, f);
    }
  }

  /** One tuple per race, in order: the values of two runs of races are the
      values of each, separated; a single race contributes its tuple. */
  lemma ValuesAppend(a: seq<Race>, b: seq<Race>)
    requires |a| > 0 && |b| > 0
    ensures Values(a + b) == Values(a) + ValuesSep + Values(b)
    ensures Values([a[0]]) == RaceTuple(a[0])
  {
    MapAppend(a, b, RaceTuple);
    JoinAppend(Map(a, RaceTuple), Map(b, RaceTuple), ValuesSep);
  }

  /** `main` of fix-races-via-mcp.ts after loading the races: no statement
      when no race is valid, else `generateInsertSQL(validRaces)`. */
  method ViaMcp(races: seq<Race>, ex: Existing) returns (sql: Option<string>, rejected: seq<Rejected<Race, string>>)
    ensures sql.None? <==> forall i :: 0 <= i < |races| ==> !IsValid(races[i], ex)
    ensures sql.Some? ==> sql.value == InsertSql(Filter(races, ValidIn(ex)))
    ensures Map(rejected, ItemOf) == Filter(races, InvalidIn(ex))
  {
    var valid, invalid := PartitionRaces(races, ex);
    rejected := invalid;
    if |valid| == 0 {
      sql := None;
    } else {
      sql := Some(GenerateInsertSql(valid));
    }
  }

  /** `validateAndInsertRaces` of fix-races-foreign-keys.ts: the same
      partition without reasons, and the same statement. */
  function ForeignKeysScript(races: seq<Race>, ex: Existing): (sql: Option<string>)
    ensures sql.None? <==> forall i :: 0 <= i < |races| ==> !IsValid(races[i], ex)
    ensures sql.Some? ==> sql.value == InsertSql(Filter(races, ValidIn(ex)))
  {
    var valid := Filter(races, ValidIn(ex));
    if |valid| == 0 then None else Some(InsertSql(valid))
  }

  /** With the stubbed lookups no race is valid: each is rejected for its
      office term and its ballot item, and neither script produces SQL. */
  lemma StubsRejectAll(races: seq<Race>)
    ensures forall r :: OfficeReason(r) in Reasons(r, NoIds) && BallotReason(r) in Reasons(r, NoIds)
    ensures ForeignKeysScript(races, NoIds).None?
    ensures Filter(races, ValidIn(NoIds)) == []
  {
    forall r ensures OfficeReason(r) in Reasons(r, NoIds) && BallotReason(r) in Reasons(r, NoIds) {
      ReasonsSpec(r, NoIds);
    }
  }
}
