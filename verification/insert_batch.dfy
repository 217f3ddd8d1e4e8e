/** `insertBatch` of scripts/data-loading/load-all-data.ts: a table's rows are
    upserted in batches of 1000; a "missing column" error adds the column to
    the table's invalid-column cache and the batch is sent again without it;
    duplicate-key and foreign-key errors skip the batch, and any other error
    is thrown. The database is a stream of answers: the n-th call made gets
    `answers(n)`, an error message or none. */
module BatchLoader {
  import opened Wrappers
  import opened Seqs
  import opened Strings
  import opened JsValue
  import opened ColumnFilter

  const BatchSize: nat := 1000

  datatype Op = Upsert(ignoreDuplicates: bool) | Insert

  /** One call to the database: the operation, and the invalid-column set
      the batch's rows were filtered with (the rows sent are
      `Payload(batch, filter)`). */
  datatype Request = Request(op: Op, filter: set<string>)

  /** How a batch ended: written, skipped for duplicate keys, skipped for a
      foreign-key violation, or an error thrown out of the loop. */
  datatype Outcome = Stored | SkippedDuplicates | SkippedForeignKey | Thrown(message: string)

  /** One batch's effect: how it ended, the invalid-column set after it,
      whether a column was added to the cache, and the calls it made. */
  datatype Step = Step(outcome: Outcome, invalid: set<string>, cached: bool, requests: seq<Request>)

  /** `s.includes(part)`. */
  predicate Contains(s: string, part: string) {
    |part| == 0 || IndexOf(s, part).Some?
  }

  predicate IsDuplicateKey(m: string) {
    Contains(m, "duplicate key") && Contains(m, "violates unique constraint")
  }

  predicate IsForeignKey(m: string) {
    Contains(m, "violates foreign key constraint")
  }

  /** `batch.filter(row => row !== null && typeof row === "object")
      .map(row => filterRowColumns(row, invalidColumns))`: one row per object
      row of the batch, in order, none with an invalid column. */
  function Payload(batch: seq<Value>, invalid: set<string>): (r: seq<seq<Field>>)
    ensures |r| == |Filter(batch, IsObject)| <= |batch|
    ensures forall i, k :: 0 <= i < |r| && k in Keys(r[i]) ==> k !in invalid
  {
    Map(Filter(batch, IsObject), (v: Value) => FilterRowColumns(OwnEntries(v), invalid))
  }

  /** The `insert` fallback after an upsert failed with an error that is not
      a duplicate key: `m` is the next call's index, and `filter` the set the
      batch was first filtered with (the fallback resends that payload). */
  function InsertFallback(answers: nat -> Option<string>, m: nat, invalid: set<string>, cached: bool,
                          filter: set<string>, done: seq<Request>): Step
  {
    var sent := done + [Request(Insert, filter)];
    match answers(m)
    case None => Step(Stored, invalid, cached, sent)
    case Some(ie) =>
      if IsDuplicateKey(ie) then Step(SkippedDuplicates, invalid, cached, sent)
      else
        match ExtractInvalidColumn(ie)
        case Some(col) =>
          var invalid2 := invalid + {col};
          var resent := sent + [Request(Insert, invalid2)];
          (match answers(m + 1)
           case None => Step(Stored, invalid2, true, resent)
           case Some(re) =>
             if IsDuplicateKey(re) then Step(SkippedDuplicates, invalid2, true, resent)
             else if IsForeignKey(re) then Step(SkippedForeignKey, invalid2, true, resent)
             else Step(Thrown(re), invalid2, true, resent))
        case None =>
          if IsForeignKey(ie) then Step(SkippedForeignKey, invalid, cached, sent)
          else Step(Thrown(ie), invalid, cached, sent)
  }

  /** One iteration of the loop, its first call having index `n`. */
  function BatchStep(answers: nat -> Option<string>, n: nat, invalid: set<string>): Step {
    var first := [Request(Upsert(true), invalid)];
    match answers(n)
    case None => Step(Stored, invalid, false, first)
    case Some(e1) =>
      match ExtractInvalidColumn(e1)
      case Some(col) =>
        var invalid1 := invalid + {col};
        var sent := first + [Request(Upsert(false), invalid1)];
        (match answers(n + 1)
         case None => Step(Stored, invalid1, true, sent)
         case Some(e) =>
           if IsDuplicateKey(e) then Step(SkippedDuplicates, invalid1, true, sent)
           else InsertFallback(answers, n + 2, invalid1, true, invalid, sent))
      case None =>
        if IsDuplicateKey(e1) then Step(SkippedDuplicates, invalid, false, first)
        else InsertFallback(answers, n + 1, invalid, false, invalid, first)
  }

  /** Every request is filtered with a set between the batch's starting and
      final invalid-column sets. */
  predicate FiltersBetween(s: Step, invalid: set<string>) {
    forall i :: 0 <= i < |s.requests| ==> invalid <= s.requests[i].filter <= s.invalid
  }

  /** What the insert fallback adds to the calls made so far: an insert, then
      possibly a second one filtered with one more invalid column. */
  lemma FallbackSpec(answers: nat -> Option<string>, m: nat, invalid: set<string>, cached: bool,
                     filter: set<string>, done: seq<Request>)
    ensures var s := InsertFallback(answers, m, invalid, cached, filter, done);
      && |done| + 1 <= |s.requests| <= |done| + 2
      && s.requests[..|done|] == done
      && s.requests[|done|] == Request(Insert, filter)
      && (|s.requests| == |done| + 2 ==> s.requests[|done| + 1] == Request(Insert, s.invalid))
      && invalid <= s.invalid && |s.invalid| <= |invalid| + 1
      && (s.invalid != invalid ==> s.cached) && (cached ==> s.cached)
      && (s.outcome.Thrown? ==> !IsDuplicateKey(s.outcome.message) && !IsForeignKey(s.outcome.message))
      && (answers(m).None? ==> s.outcome == Stored && |s.requests| == |done| + 1)
  {
    assert (done + [Request(Insert, filter)])[..|done|] == done;
    if answers(m).Some? && !IsDuplicateKey(answers(m).value) && ExtractInvalidColumn(answers(m).value).Some? {
      FallbackResent(answers, m, invalid, cached, filter, done, ExtractInvalidColumn(answers(m).value).value);
    }
  }

  /** The fallback insert named a missing column: it is sent once more
      without it, and whatever that answers ends the batch. */
  lemma FallbackResent(answers: nat -> Option<string>, m: nat, invalid: set<string>, cached: bool,
                       filter: set<string>, done: seq<Request>, col: string)
    requires answers(m).Some? && !IsDuplicateKey(answers(m).value)
    requires ExtractInvalidColumn(answers(m).value) == Some(col)
    ensures var s := InsertFallback(answers, m, invalid, cached, filter, done);
      && s.requests == done + [Request(Insert, filter), Request(Insert, invalid + {col})]
      && s.invalid == invalid + {col} && s.cached
      && (s.outcome.Thrown? ==> !IsDuplicateKey(s.outcome.message) && !IsForeignKey(s.outcome.message))
  {
    assert done + [Request(Insert, filter)] + [Request(Insert, invalid + {col})]
      == done + [Request(Insert, filter), Request(Insert, invalid + {col})];
  }

  /** What every batch step satisfies; see `BatchStepSpec`. */
  predicate WellFormedStep(s: Step, answers: nat -> Option<string>, n: nat, invalid: set<string>) {
    && 1 <= |s.requests| <= 4
    && s.requests[0] == Request(Upsert(true), invalid)
    && invalid <= s.invalid && |s.invalid| <= |invalid| + 2
    && (!s.cached ==> s.invalid == invalid)
    && FiltersBetween(s, invalid)
    && (answers(n).None? <==> s.outcome == Stored && |s.requests| == 1)
    && (s.outcome.Thrown? ==> answers(n).Some? && !IsDuplicateKey(s.outcome.message) && !IsForeignKey(s.outcome.message))
  }

  /** A batch makes one to four calls, the first an upsert that ignores
      duplicates and sends the batch filtered with the current cache; the
      cache only grows, by at most two columns, and only when flagged; every
      call is filtered with a set between the old and new cache; and an error
      is thrown only when it is neither a duplicate-key nor a foreign-key
      violation, after the first call failed. */
  lemma BatchStepSpec(answers: nat -> Option<string>, n: nat, invalid: set<string>)
    ensures var s := BatchStep(answers, n, invalid);
      && 1 <= |s.requests| <= 4
      && s.requests[0] == Request(Upsert(true), invalid)
      && invalid <= s.invalid && |s.invalid| <= |invalid| + 2
      && (!s.cached ==> s.invalid == invalid)
      && FiltersBetween(s, invalid)
      && (answers(n).None? <==> s.outcome == Stored && |s.requests| == 1)
      && (s.outcome.Thrown? ==> answers(n).Some? && !IsDuplicateKey(s.outcome.message) && !IsForeignKey(s.outcome.message))
  {
    if answers(n).Some? {
      var e1 := answers(n).value;
      match ExtractInvalidColumn(e1)
      case Some(col) => ColumnStep(answers, n, invalid, col);
      case None => NoColumnStep(answers, n, invalid);
    }
    assert WellFormedStep(BatchStep(answers, n, invalid), answers, n, invalid);
  }

  /** The first upsert named a missing column: the batch is sent again without it. */
  lemma ColumnStep(answers: nat -> Option<string>, n: nat, invalid: set<string>, col: string)
    requires answers(n).Some? && ExtractInvalidColumn(answers(n).value) == Some(col)
    ensures WellFormedStep(BatchStep(answers, n, invalid), answers, n, invalid)
  {
    if answers(n + 1).Some? && !IsDuplicateKey(answers(n + 1).value) {
      ColumnFallback(answers, n, invalid, col);
    } else {
      ColumnSettled(answers, n, invalid, col);
    }
  }

  /** The resent upsert succeeded or hit duplicate keys: two calls. */
  lemma ColumnSettled(answers: nat -> Option<string>, n: nat, invalid: set<string>, col: string)
    requires answers(n).Some? && ExtractInvalidColumn(answers(n).value) == Some(col)
    requires answers(n + 1).None? || IsDuplicateKey(answers(n + 1).value)
    ensures WellFormedStep(BatchStep(answers, n, invalid), answers, n, invalid)
  {
    var s := BatchStep(answers, n, invalid);
    assert s.requests == [Request(Upsert(true), invalid), Request(Upsert(false), invalid + {col})];
  }

  /** The resent upsert failed otherwise: the insert fallback follows. */
  lemma ColumnFallback(answers: nat -> Option<string>, n: nat, invalid: set<string>, col: string)
    requires answers(n).Some? && ExtractInvalidColumn(answers(n).value) == Some(col)
    requires answers(n + 1).Some? && !IsDuplicateKey(answers(n + 1).value)
    ensures WellFormedStep(BatchStep(answers, n, invalid), answers, n, invalid)
  {
    var s := BatchStep(answers, n, invalid);
    var invalid1 := invalid + {col};
    var sent := [Request(Upsert(true), invalid)] + [Request(Upsert(false), invalid1)];
    FallbackSpec(answers, n + 2, invalid1, true, invalid, sent);
    assert s == InsertFallback(answers, n + 2, invalid1, true, invalid, sent);
    assert s.requests[0] == sent[0] && s.requests[1] == sent[1];
    assert invalid <= invalid1 <= s.invalid;
    forall i | 0 <= i < |s.requests|
      ensures invalid <= s.requests[i].filter <= s.invalid
    {
      if i == 0 {
      } else if i == 1 {
      } else if i == 2 {
      } else {
        assert s.requests[i] == Request(Insert, s.invalid);
      }
    }
  }

  /** The first upsert failed for another reason. */
  lemma NoColumnStep(answers: nat -> Option<string>, n: nat, invalid: set<string>)
    requires answers(n).Some? && ExtractInvalidColumn(answers(n).value).None?
    ensures WellFormedStep(BatchStep(answers, n, invalid), answers, n, invalid)
  {
    var s := BatchStep(answers, n, invalid);
    var first := [Request(Upsert(true), invalid)];
    if !IsDuplicateKey(answers(n).value) {
      FallbackSpec(answers, n + 1, invalid, false, invalid, first);
      assert s == InsertFallback(answers, n + 1, invalid, false, invalid, first);
      assert s.requests[0] == first[0];
      forall i | 0 <= i < |s.requests|
        ensures invalid <= s.requests[i].filter <= s.invalid
      {
        if i == 0 {
        } else if i == 1 {
        } else {
          assert s.requests[i] == Request(Insert, s.invalid);
        }
      }
    }
  }

  /** One iteration of the loop, as the loop sees it. */
  method RunBatch(answers: nat -> Option<string>, n: nat, invalid: set<string>) returns (s: Step)
    ensures 1 <= |s.requests| <= 4
    ensures invalid <= s.invalid && |s.invalid| <= |invalid| + 2
    ensures !s.cached ==> s.invalid == invalid
  {
    s := BatchStep(answers, n, invalid);
    BatchStepSpec(answers, n, invalid);
  }

  /** The invalid-column set the table starts with: its cache entry, or empty. */
  function Cached(cache: map<string, set<string>>, table: string): set<string> {
    if table in cache then cache[table] else {}
  }

  /** The loop body as a function of the first call's index and the
      invalid-column set. */
  function StepOf(answers: nat -> Option<string>): (nat, set<string>) -> Step {
    (n: nat, invalid: set<string>) => BatchStep(answers, n, invalid)
  }

  /** The steps of `count` batches run in order from call index `n`, each
      filtered with the invalid-column set the one before left, stopping
      after the first that throws. */
  function Batches(step: (nat, set<string>) -> Step, n: nat, invalid: set<string>, count: nat): seq<Step>
    decreases count
  {
    if count == 0 then []
    else
      var s := step(n, invalid);
      if s.outcome.Thrown? then [s]
      else [s] + Batches(step, n + |s.requests|, s.invalid, count - 1)
  }

  /** The run ends after the last batch or at the first thrown error: at
      most `count` steps, none but the last throwing, and fewer than
      `count` only when the last one threw. */
  lemma {:induction false} BatchesSpec(step: (nat, set<string>) -> Step, n: nat, invalid: set<string>, count: nat)
    ensures var ss := Batches(step, n, invalid, count);
      && |ss| <= count
      && (forall j :: 0 <= j < |ss| - 1 ==> !ss[j].outcome.Thrown?)
      && (|ss| < count ==> |ss| > 0 && ss[|ss| - 1].outcome.Thrown?)
      && (count > 0 ==> ss[0] == step(n, invalid))
    decreases count
  {
    if count > 0 {
      var s := step(n, invalid);
      if !s.outcome.Thrown? {
        BatchesSpec(step, n + |s.requests|, s.invalid, count - 1);
        var rest := Batches(step, n + |s.requests|, s.invalid, count - 1);
        assert Batches(step, n, invalid, count) == [s] + rest;
        if |rest| > 0 && rest[|rest| - 1].outcome.Thrown? {
          assert ([s] + rest)[|rest|] == rest[|rest| - 1];
        }
      }
    }
  }

  /** What every batch step keeps: one to four calls, and a cache that only
      grows, by at most two columns, and only when flagged. */
  predicate GoodStep(s: Step, invalid: set<string>) {
    && 1 <= |s.requests| <= 4
    && invalid <= s.invalid && |s.invalid| <= |invalid| + 2
    && (!s.cached ==> s.invalid == invalid)
  }

  lemma StepOfGood(answers: nat -> Option<string>)
    ensures forall n: nat, invalid: set<string> :: GoodStep(StepOf(answers)(n, invalid), invalid)
  {
    forall n: nat, invalid: set<string> ensures GoodStep(StepOf(answers)(n, invalid), invalid) {
      BatchStepSpec(answers, n, invalid);
    }
  }

  /** The invalid-column set after a run of steps that started from `start`. */
  function LastInvalid(ss: seq<Step>, start: set<string>): set<string> {
    if |ss| == 0 then start else ss[|ss| - 1].invalid
  }

  /** Some step of the run added a column to the cache. */
  predicate AnyCached(ss: seq<Step>) {
    exists j :: 0 <= j < |ss| && ss[j].cached
  }

  /** The number of database calls of a run. */
  function CallsOf(ss: seq<Step>): nat {
    SumF(ss, (s: Step) => |s.requests|)
  }

  /** The result of `insertBatch`: how it ended, the invalid-column cache
      after it, the numbers of the batches run, the number of database
      calls, and the steps of the batches run. */
  datatype BatchRun = BatchRun(result: Result<(), string>, newCache: map<string, set<string>>,
                               batchNums: seq<nat>, calls: nat, steps: seq<Step>)

  lemma CallsCons(s: Step, rest: seq<Step>)
    ensures CallsOf([s] + rest) == |s.requests| + CallsOf(rest)
  {
    assert ([s] + rest)[1..] == rest;
  }

  /** Over a run of steps that each keep `GoodStep`, each batch makes one
      to four calls. */
  lemma {:induction false} BatchesCalls(step: (nat, set<string>) -> Step, n: nat, invalid: set<string>, count: nat)
    requires forall m: nat, inv: set<string> :: GoodStep(step(m, inv), inv)
    ensures var ss := Batches(step, n, invalid, count);
      |ss| <= CallsOf(ss) <= 4 * |ss|
    decreases count
  {
    if count > 0 {
      var s := step(n, invalid);
      assert GoodStep(s, invalid);
      var rest := if s.outcome.Thrown? then [] else Batches(step, n + |s.requests|, s.invalid, count - 1);
      if !s.outcome.Thrown? {
        BatchesCalls(step, n + |s.requests|, s.invalid, count - 1);
      }
      assert Batches(step, n, invalid, count) == [s] + rest;
      CallsCons(s, rest);
    }
  }

  /** Over a run of steps that each keep `GoodStep`, the cache only grows,
      by at most two columns a batch and not at all unless some batch
      flagged it. */
  lemma {:induction false} BatchesCache(step: (nat, set<string>) -> Step, n: nat, invalid: set<string>, count: nat)
    requires forall m: nat, inv: set<string> :: GoodStep(step(m, inv), inv)
    ensures var ss := Batches(step, n, invalid, count);
      && invalid <= LastInvalid(ss, invalid)
      && |LastInvalid(ss, invalid)| <= |invalid| + 2 * |ss|
      && (!AnyCached(ss) ==> LastInvalid(ss, invalid) == invalid)
    decreases count
  {
    if count > 0 {
      var s := step(n, invalid);
      assert GoodStep(s, invalid);
      if !s.outcome.Thrown? {
        var ss := Batches(step, n, invalid, count);
        var rest := Batches(step, n + |s.requests|, s.invalid, count - 1);
        BatchesCache(step, n + |s.requests|, s.invalid, count - 1);
        assert ss == [s] + rest;
        CacheCons(s, rest, invalid);
      }
    }
  }

  /** One step in front of a run: the cache bounds compose. */
  lemma CacheCons(s: Step, rest: seq<Step>, invalid: set<string>)
    requires GoodStep(s, invalid)
    requires s.invalid <= LastInvalid(rest, s.invalid)
    requires |LastInvalid(rest, s.invalid)| <= |s.invalid| + 2 * |rest|
    requires !AnyCached(rest) ==> LastInvalid(rest, s.invalid) == s.invalid
    ensures var ss := [s] + rest;
      && invalid <= LastInvalid(ss, invalid)
      && |LastInvalid(ss, invalid)| <= |invalid| + 2 * |ss|
      && (!AnyCached(ss) ==> LastInvalid(ss, invalid) == invalid)
  {
    var ss := [s] + rest;
    assert LastInvalid(ss, invalid) == LastInvalid(rest, s.invalid);
    if !AnyCached(ss) {
      assert ss[0] == s;
      forall j | 0 <= j < |rest| ensures !rest[j].cached {
        assert ss[j + 1] == rest[j];
      }
    }
  }

  /** How a run ended: the error of its last step when that one threw. */
  function RunResult(ss: seq<Step>): (r: Result<(), string>)
    ensures r.Failure? <==> |ss| > 0 && ss[|ss| - 1].outcome.Thrown?
    ensures r.Failure? ==> ss[|ss| - 1].outcome == Thrown(r.error)
  {
    if |ss| > 0 && ss[|ss| - 1].outcome.Thrown? then Failure(ss[|ss| - 1].outcome.message) else Success(())
  }

  /** `invalidColumnsCache.set(tableName, invalidColumns)` once some batch
      added a column: only the table's entry changes, to the final set. */
  function UpdatedCache(cache: map<string, set<string>>, table: string, ss: seq<Step>): (c: map<string, set<string>>)
    requires Cached(cache, table) <= LastInvalid(ss, Cached(cache, table))
    requires !AnyCached(ss) ==> LastInvalid(ss, Cached(cache, table)) == Cached(cache, table)
    ensures forall t :: t in cache ==> t in c && cache[t] <= c[t]
    ensures forall t :: t != table ==> (t in c <==> t in cache) && (t in cache ==> c[t] == cache[t])
    ensures Cached(c, table) == LastInvalid(ss, Cached(cache, table))
  {
    if AnyCached(ss) then cache[table := LastInvalid(ss, Cached(cache, table))] else cache
  }

  /** When only the last step of a run may throw, some step threw exactly
      when the last one did. */
  lemma ThrownLast(ss: seq<Step>)
    requires forall j :: 0 <= j < |ss| - 1 ==> !ss[j].outcome.Thrown?
    ensures (exists j :: 0 <= j < |ss| && ss[j].outcome.Thrown?) <==> |ss| > 0 && ss[|ss| - 1].outcome.Thrown?
  {
  }

  /** The loop of `insertBatch` over `total` batches for any batch step
      that keeps `GoodStep`. */
  function RunOf(step: (nat, set<string>) -> Step, cache: map<string, set<string>>, table: string, total: nat): (r: BatchRun)
    requires forall m: nat, inv: set<string> :: GoodStep(step(m, inv), inv)
    ensures r.steps == Batches(step, 0, Cached(cache, table), total)
    ensures |r.batchNums| == |r.steps| <= total
    ensures forall j :: 0 <= j < |r.batchNums| ==> r.batchNums[j] == j + 1
    ensures r.result.Failure? <==> |r.steps| > 0 && r.steps[|r.steps| - 1].outcome.Thrown?
    ensures r.result.Success? ==> |r.steps| == total
    ensures r.result.Failure? ==> r.steps[|r.steps| - 1].outcome == Thrown(r.result.error)
    ensures forall j :: 0 <= j < |r.steps| - 1 ==> !r.steps[j].outcome.Thrown?
    ensures forall t :: t in cache ==> t in r.newCache && cache[t] <= r.newCache[t]
    ensures forall t :: t != table ==> (t in r.newCache <==> t in cache) && (t in cache ==> r.newCache[t] == cache[t])
    ensures Cached(r.newCache, table) == LastInvalid(r.steps, Cached(cache, table))
    ensures Cached(cache, table) <= Cached(r.newCache, table)
    ensures |Cached(r.newCache, table)| <= |Cached(cache, table)| + 2 * |r.steps|
    ensures |r.steps| <= r.calls <= 4 * |r.steps|
  {
    var start := Cached(cache, table);
    var steps := Batches(step, 0, start, total);
    BatchesSpec(step, 0, start, total);
    BatchesCalls(step, 0, start, total);
    BatchesCache(step, 0, start, total);
    BatchRun(RunResult(steps), UpdatedCache(cache, table, steps), BatchNumbers(|steps|), CallsOf(steps), steps)
  }

  /** `insertBatch(tableName, rows, primaryKey)`: the loop over
      `rows.slice(i, i + BATCH_SIZE)` for `i = 0, 1000, 2000, ...`, numbering
      the batches `Math.floor(i / BATCH_SIZE) + 1` out of
      `Math.ceil(rows.length / BATCH_SIZE)`, stopping at a thrown error. It
      fails exactly when some batch threw, with that batch's message, and
      that batch is the last one run. */
  function InsertBatch(answers: nat -> Option<string>, cache: map<string, set<string>>, table: string, rows: seq<Value>): (r: BatchRun)
    ensures var total := CeilDiv(|rows|, BatchSize);
      && |r.batchNums| <= total == |Chunks(rows, BatchSize)|
      && (forall j :: 0 <= j < |r.batchNums| ==> r.batchNums[j] == j + 1 <= total)
      && (r.result.Success? ==> |r.batchNums| == total)
      && (r.result.Failure? ==> |r.batchNums| > 0)
    ensures r.steps == Batches(StepOf(answers), 0, Cached(cache, table), CeilDiv(|rows|, BatchSize))
    ensures |r.steps| == |r.batchNums|
    ensures r.result.Failure? <==> exists j :: 0 <= j < |r.steps| && r.steps[j].outcome.Thrown?
    ensures r.result.Failure? ==> r.steps[|r.steps| - 1].outcome == Thrown(r.result.error)
    ensures forall j :: 0 <= j < |r.steps| - 1 ==> !r.steps[j].outcome.Thrown?
    ensures forall t :: t in cache ==> t in r.newCache && cache[t] <= r.newCache[t]
    ensures forall t :: t != table ==> (t in r.newCache <==> t in cache) && (t in cache ==> r.newCache[t] == cache[t])
    ensures Cached(r.newCache, table) == LastInvalid(r.steps, Cached(cache, table))
    ensures Cached(cache, table) <= Cached(r.newCache, table)
    ensures |Cached(r.newCache, table)| <= |Cached(cache, table)| + 2 * |r.batchNums|
    ensures |r.batchNums| <= r.calls <= 4 * |r.batchNums|
  {
    StepOfGood(answers);
    var r := RunOf(StepOf(answers), cache, table, CeilDiv(|rows|, BatchSize));
    ThrownLast(r.steps);
    r
  }

  /** The numbers of the first `count` batches: batch `k` (from 0) starts
      at row `i = k * 1000` and is numbered `Math.floor(i / 1000) + 1`,
      which is `k + 1`. */
  function BatchNumbers(count: nat): (r: seq<nat>)
    ensures |r| == count && forall k :: 0 <= k < count ==> r[k] == k + 1
  {
    BatchNumbering(count);
    seq(count, (k: nat) => (k * BatchSize) / BatchSize + 1)
  }

  lemma BatchNumbering(count: nat)
    ensures forall k: nat :: k < count ==> (k * BatchSize) / BatchSize == k
  {
    forall k: nat | k < count ensures (k * BatchSize) / BatchSize == k {
      MulDiv(k, BatchSize);
    }
  }

  lemma {:induction false} MulDiv(k: nat, n: nat)
    requires n > 0
    ensures (k * n) / n == k
  {
    if k > 0 {
      MulDiv(k - 1, n);
      assert k * n == (k - 1) * n + n;
      DivStep((k - 1) * n, n);
    }
  }
}
