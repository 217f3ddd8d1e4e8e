/** Batched `.in(column, ids)` lookups. Both network resolvers and the
    supporter-to-jurisdiction join slice their id lists into batches of
    `SUPABASE_BATCH_SIZE` and concatenate the rows of the batches that
    succeed; a batch whose query fails is skipped. */
module Batching {
  import opened Wrappers
  import opened Seqs

  /** `SUPABASE_BATCH_SIZE`. */
  const BatchSize: nat := 100

  /** `.filter(Boolean)` on a column of ids: drops nulls, keeps order. */
  function Present(xs: seq<Option<Id>>): (r: seq<Id>)
    ensures |r| <= |xs|
    ensures forall i :: 0 <= i < |r| ==> Some(r[i]) in xs
    ensures forall i :: 0 <= i < |xs| && xs[i].Some? ==> xs[i].value in r
    decreases |xs|
  {
    if |xs| == 0 then []
    else match xs[0]
      case None => Present(xs[1..])
      case Some(x) => [x] + Present(xs[1..])
  }

  /** One `.in(column, batch)` query over `table`: a row matches when its key is
      present and among `batch` (a null key never matches). */
  predicate Matches<R>(key: R -> Option<Id>, batch: seq<Id>, row: R) {
    key(row).Some? && key(row).value in batch
  }

  function Lookup<R>(table: seq<R>, key: R -> Option<Id>, batch: seq<Id>): seq<R> {
    Filter(table, row => Matches(key, batch, row))
  }

  /** The batch queries in order, each failing batch contributing nothing. */
  function BatchResults<R>(table: seq<R>, key: R -> Option<Id>, batches: seq<seq<Id>>, failed: set<nat>): (r: seq<seq<R>>)
    ensures |r| == |batches|
  {
    seq(|batches|, i requires 0 <= i < |batches| => if i in failed then [] else Lookup(table, key, batches[i]))
  }

  /** The loop `for (i = 0; i < ids.length; i += BATCH) { ... push(...rows) }`:
      `failed` holds the indices of the batches whose query returned an error. */
  function BatchedLookup<R>(table: seq<R>, key: R -> Option<Id>, ids: seq<Id>, failed: set<nat>): seq<R> {
    Flatten(BatchResults(table, key, Chunks(ids, BatchSize), failed))
  }

  /** Every row a batched lookup returns is a row of the table whose key is one of the ids. */
  lemma BatchedLookupSound<R>(table: seq<R>, key: R -> Option<Id>, ids: seq<Id>, failed: set<nat>, x: R)
    requires x in BatchedLookup(table, key, ids, failed)
    ensures x in table && key(x).Some? && key(x).value in ids
  {
    var batches := Chunks(ids, BatchSize);
    var results := BatchResults(table, key, batches, failed);
    FlattenMembership(results, x);
    var i :| 0 <= i < |results| && x in results[i];
    FlattenMembership(batches, key(x).value);
    assert key(x).value in batches[i];
  }

  /** With no failing batch, every matching row is returned. */
  lemma BatchedLookupComplete<R>(table: seq<R>, key: R -> Option<Id>, ids: seq<Id>, x: R)
    requires x in table && key(x).Some? && key(x).value in ids
    ensures x in BatchedLookup(table, key, ids, {})
  {
    var batches := Chunks(ids, BatchSize);
    var results := BatchResults(table, key, batches, {});
    FlattenMembership(batches, key(x).value);
    var i :| 0 <= i < |batches| && key(x).value in batches[i];
    assert x in results[i];
    FlattenMembership(results, x);
  }

  /** Batching is invisible when every batch succeeds: the same rows as one
      unbatched `.in(column, ids)` query. */
  lemma BatchedEqualsUnbatched<R>(table: seq<R>, key: R -> Option<Id>, ids: seq<Id>, x: R)
    ensures x in BatchedLookup(table, key, ids, {}) <==> x in Lookup(table, key, ids)
  {
    if x in BatchedLookup(table, key, ids, {}) {
      BatchedLookupSound(table, key, ids, {}, x);
    }
    if x in Lookup(table, key, ids) {
      BatchedLookupComplete(table, key, ids, x);
    }
  }

  /** A failing batch only drops rows. */
  lemma FailuresOnlyDrop<R>(table: seq<R>, key: R -> Option<Id>, ids: seq<Id>, failed: set<nat>, x: R)
    requires x in BatchedLookup(table, key, ids, failed)
    ensures x in BatchedLookup(table, key, ids, {})
  {
    BatchedLookupSound(table, key, ids, failed, x);
    BatchedLookupComplete(table, key, ids, x);
  }
}
