/** `retryWithBackoff` (lib/queries-client.ts and lib/viewpoint-groups-client.ts,
    two identical copies) and the two viewpoint group getters built on it.
    The wrapped call is effectful, so its successive outcomes are given as a
    stream `outcome(0), outcome(1), ...`; the sleeps are recorded as the list of
    delays rather than performed. */
module Retry {
  import opened Wrappers

  const MaxRetries: nat := 3
  const RetryDelay: nat := 1000

  /** What a run of the helper did: its result, how many times it called the
      wrapped function, and the delays (ms) it waited in between. */
  datatype Run<T, E> = Run(result: Result<T, E>, calls: nat, delays: seq<int>)

  /** `RETRY_DELAY * (MAX_RETRIES - retries + 1)`. */
  function Delay(retries: nat): int {
    RetryDelay as int * (MaxRetries as int - retries as int + 1)
  }

  /** `retryWithBackoff(fn, retries)` starting at call number `k`: return the
      first success; after a failure with no retries left rethrow it, else wait
      and try again with one retry fewer. */
  function RetryFrom<T, E>(outcome: nat -> Result<T, E>, retries: nat, k: nat): (r: Run<T, E>)
    ensures 1 <= r.calls <= retries + 1
    ensures |r.delays| == r.calls - 1
    ensures r.result == outcome(k + r.calls - 1)
    decreases retries
  {
    var o := outcome(k);
    if o.Success? || retries == 0 then Run(o, 1, [])
    else
      var rest := RetryFrom(outcome, retries - 1, k + 1);
      Run(rest.result, rest.calls + 1, [Delay(retries)] + rest.delays)
  }

  /** `retryWithBackoff(fn)` with the default of three retries. */
  function RetryWithBackoff<T, E>(outcome: nat -> Result<T, E>): (r: Run<T, E>)
    ensures 1 <= r.calls <= 4
  {
    RetryFrom(outcome, MaxRetries, 0)
  }

  /** The helper stops at the first success: every call before the last
      failed, and the last call's outcome is what it returns. */
  lemma {:induction false} RetryFromFirstSuccess<T, E>(outcome: nat -> Result<T, E>, retries: nat, k: nat)
    ensures var r := RetryFrom(outcome, retries, k);
      && (forall i :: k <= i < k + r.calls - 1 ==> outcome(i).Failure?)
      && (r.result.Failure? ==> r.calls == retries + 1)
    decreases retries
  {
    if outcome(k).Failure? && retries > 0 {
      RetryFromFirstSuccess(outcome, retries - 1, k + 1);
    }
  }

  /** The waits of a run that exhausts `retries`: `Delay(retries)`, then one
      `RETRY_DELAY` longer each time. */
  function Backoff(retries: nat): seq<int>
    decreases retries
  {
    if retries == 0 then [] else [Delay(retries)] + Backoff(retries - 1)
  }

  /** A run waits the first `calls - 1` steps of the backoff schedule. */
  lemma {:induction false} RetryFromDelays<T, E>(outcome: nat -> Result<T, E>, retries: nat, k: nat)
    ensures var r := RetryFrom(outcome, retries, k);
      |r.delays| <= |Backoff(retries)| && r.delays == Backoff(retries)[..|r.delays|]
    decreases retries
  {
    if outcome(k).Failure? && retries > 0 {
      RetryFromDelays(outcome, retries - 1, k + 1);
      var rest := RetryFrom(outcome, retries - 1, k + 1);
      var d := RetryFrom(outcome, retries, k).delays;
      assert d == [Delay(retries)] + Backoff(retries - 1)[..|rest.delays|];
      assert d == Backoff(retries)[..|d|];
    }
  }

  /** With the default: at most four calls; a success iff one of the first
      four calls succeeds, and then the earliest; otherwise the fourth call's
      error after waits of 1000, 2000 and 3000 ms. */
  lemma RetryWithBackoffSpec<T, E>(outcome: nat -> Result<T, E>)
    ensures var r := RetryWithBackoff(outcome);
      && (r.result.Success? <==> exists i :: 0 <= i < 4 && outcome(i).Success?)
      && (r.result.Success? ==> r.result == outcome(r.calls - 1) && forall i :: 0 <= i < r.calls - 1 ==> outcome(i).Failure?)
      && (r.result.Failure? ==> r.calls == 4 && r.result == outcome(3) && r.delays == [1000, 2000, 3000])
      && r.delays == [1000, 2000, 3000][..r.calls - 1]
  {
    var r := RetryWithBackoff(outcome);
    RetryFromFirstSuccess(outcome, MaxRetries, 0);
    RetryFromDelays(outcome, MaxRetries, 0);
    if r.result.Failure? {
      assert forall i :: 0 <= i < 4 ==> outcome(i).Failure?;
    } else {
      assert outcome(r.calls - 1).Success?;
    }
  }

  // ---- lib/viewpoint-groups-client.ts ----

  datatype ViewpointGroup = ViewpointGroup(id: Id, title: Option<string>, description: Option<string>)

  /** A query's outcome: an error, or the (possibly null) data. */
  datatype Query<T> = QueryError(message: string) | QueryData(data: Option<T>)

  /** One attempt of `getAllViewpointGroupsClient`: an error is thrown, null data is `[]`. */
  function AllGroupsAttempt(q: Query<seq<ViewpointGroup>>): Result<seq<ViewpointGroup>, string> {
    match q
    case QueryError(m) => Failure(m)
    case QueryData(d) => Success(if d.Some? then d.value else [])
  }

  function AllViewpointGroups(queries: nat -> Query<seq<ViewpointGroup>>): Run<seq<ViewpointGroup>, string> {
    RetryWithBackoff((k: nat) => AllGroupsAttempt(queries(k)))
  }

  /** A failing query is retried; the groups come from the first query that
      succeeds, and the error of the fourth failure is thrown. */
  lemma AllViewpointGroupsSpec(queries: nat -> Query<seq<ViewpointGroup>>)
    ensures var r := AllViewpointGroups(queries);
      && (r.result.Success? <==> exists i :: 0 <= i < 4 && queries(i).QueryData?)
      && (r.result.Success? ==>
            queries(r.calls - 1).QueryData? &&
            r.result.value == (if queries(r.calls - 1).data.Some? then queries(r.calls - 1).data.value else []))
      && (r.result.Failure? ==> r.calls == 4 && r.result.error == queries(3).message)
  {
    var f := (k: nat) => AllGroupsAttempt(queries(k));
    RetryWithBackoffSpec(f);
    var r := AllViewpointGroups(queries);
    if exists i :: 0 <= i < 4 && queries(i).QueryData? {
      var i :| 0 <= i < 4 && queries(i).QueryData?;
      assert f(i).Success?;
    }
  }

  /** One attempt of `getViewpointGroupByIdClient`: an error gives null. */
  function GroupByIdAttempt(q: Query<ViewpointGroup>): Result<Option<ViewpointGroup>, string> {
    match q
    case QueryError(_) => Success(None)
    case QueryData(d) => Success(d)
  }

  function ViewpointGroupById(queries: nat -> Query<ViewpointGroup>): Run<Option<ViewpointGroup>, string> {
    RetryWithBackoff((k: nat) => GroupByIdAttempt(queries(k)))
  }

  /** The getter never throws, so it is never retried: one call, null on an
      error, and the row otherwise. */
  lemma ViewpointGroupByIdSpec(queries: nat -> Query<ViewpointGroup>)
    ensures var r := ViewpointGroupById(queries);
      && r.calls == 1 && r.delays == [] && r.result.Success?
      && r.result.value == (if queries(0).QueryError? then None else queries(0).data)
  {
    var f := (k: nat) => GroupByIdAttempt(queries(k));
    assert f(0).Success?;
    assert RetryWithBackoff(f) == Run(f(0), 1, []);
  }
}
