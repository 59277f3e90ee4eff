/** The bounded worker pool of one executor sweep. Workers finish in any order and
    any of them may panic; the report lists one attempt per eligible Effect in
    source order all the same. */
module ExecutorPool {
  import opened Support

  datatype Pending = Pending(effectId: string, revision: u64, nextAttempt: int, notBefore: u64)

  /** `Attempted` stands for whatever an attempt that ran to its end reported. */
  datatype AttemptOutcome = Attempted(report: string) | AttemptFailed

  datatype Attempt = Attempt(effectId: string, revision: u64, attempt: int, outcome: AttemptOutcome)

  // ----------------------------------------------------------- specification

  function Eligible(effects: seq<Pending>, scannedAt: u64): seq<Pending> {
    if effects == [] then []
    else
      var n := |effects| - 1;
      Eligible(effects[..n], scannedAt) + (if effects[n].notBefore <= scannedAt then [effects[n]] else [])
  }

  /** How each worker ends: `None` is a panic. */
  type Fates = map<string, Option<string>>

  function FateOf(fates: Fates, id: string): Option<string> {
    if id in fates then fates[id] else None
  }

  function AttemptOf(prepared: Pending, fates: Fates): Attempt {
    match FateOf(fates, prepared.effectId)
    case Some(report) => Attempt(prepared.effectId, prepared.revision, prepared.nextAttempt, Attempted(report))
    case None => Fallback(prepared)
  }

  function Fallback(prepared: Pending): Attempt {
    Attempt(prepared.effectId, prepared.revision, prepared.nextAttempt, AttemptFailed)
  }

  /** The attempt is about this Effect and tells how its worker ended. */
  predicate AttemptTells(attempt: Attempt, prepared: Pending, fates: Fates) {
    && attempt.effectId == prepared.effectId && attempt.revision == prepared.revision && attempt.attempt == prepared.nextAttempt
    && (prepared.effectId in fates && fates[prepared.effectId].Some? ==>
          attempt.outcome == Attempted(fates[prepared.effectId].value))
    && (prepared.effectId !in fates || fates[prepared.effectId].None? ==> attempt.outcome == AttemptFailed)
  }

  lemma AttemptsTell(prepared: seq<Pending>, fates: Fates)
    ensures forall k :: 0 <= k < |prepared| ==> AttemptTells(AttemptsOf(prepared, fates)[k], prepared[k], fates)
  {
  }

  function AttemptsOf(prepared: seq<Pending>, fates: Fates): seq<Attempt> {
    seq(|prepared|, i requires 0 <= i < |prepared| => AttemptOf(prepared[i], fates))
  }

  // --------------------------------------------------------------------- pool

  datatype Task = Task(index: nat, prepared: Pending)

  datatype Indexed = Indexed(index: nat, attempt: Attempt)

  /** The queue, the running workers, their fallbacks and what was collected. */
  datatype Pool = Pool(pending: seq<Task>, workers: map<nat, Task>, fallbacks: map<nat, Indexed>,
                       attempts: seq<Indexed>, nextTask: nat)

  /** Starts the head of the queue under a task identity never used before. */
  function Spawned(pool: Pool): Pool {
    if pool.pending == [] then pool
    else
      var task := pool.pending[0];
      Pool(pool.pending[1..], pool.workers[pool.nextTask := task],
           pool.fallbacks[pool.nextTask := Indexed(task.index, Fallback(task.prepared))],
           pool.attempts, pool.nextTask + 1)
  }

  /** Worker `done` ended: its result, or the fallback kept for it, is collected. */
  function Joined(pool: Pool, done: nat, fates: Fates): Pool
    requires done in pool.workers && done in pool.fallbacks
  {
    var task := pool.workers[done];
    var result := match FateOf(fates, task.prepared.effectId)
      case Some(report) =>
        Indexed(task.index, Attempt(task.prepared.effectId, task.prepared.revision, task.prepared.nextAttempt, Attempted(report)))
      case None => pool.fallbacks[done];
    pool.(workers := pool.workers - {done}, fallbacks := pool.fallbacks - {done}, attempts := pool.attempts + [result])
  }

  /** Every prepared Effect is queued, running or collected, each exactly once, and
      whatever was collected is what its worker's fate demands. */
  ghost predicate PoolOk(pool: Pool, prepared: seq<Pending>, fates: Fates) {
    && pool.nextTask <= |prepared|
    && pool.pending == Queue(prepared, pool.nextTask)
    && pool.workers.Keys == pool.fallbacks.Keys
    && (forall t :: t in pool.workers ==> t < pool.nextTask && RunsTask(pool, t, prepared[t]) && Uncollected(pool.attempts, t))
    && CollectedOk(pool.attempts, pool.nextTask, prepared, fates)
    && |pool.attempts| + |pool.workers| == pool.nextTask
  }

  ghost predicate RunsTask(pool: Pool, t: nat, prepared: Pending) {
    && t in pool.workers && pool.workers[t] == Task(t, prepared)
    && t in pool.fallbacks && pool.fallbacks[t] == Indexed(t, Fallback(prepared))
  }

  ghost predicate Uncollected(attempts: seq<Indexed>, t: nat) {
    forall k :: 0 <= k < |attempts| ==> attempts[k].index != t
  }

  ghost predicate CollectedOk(attempts: seq<Indexed>, started: nat, prepared: seq<Pending>, fates: Fates) {
    && (forall k :: 0 <= k < |attempts| ==>
          && attempts[k].index < started && attempts[k].index < |prepared|
          && attempts[k].attempt == AttemptOf(prepared[attempts[k].index], fates))
    && Distinct(attempts)
  }

  ghost predicate Distinct(attempts: seq<Indexed>) {
    forall j, k :: 0 <= j < k < |attempts| ==> attempts[j].index != attempts[k].index
  }

  lemma SpawnRuns(pool: Pool, prepared: seq<Pending>, u: nat)
    requires pool.nextTask < |prepared| && pool.pending != [] && pool.pending[0] == Task(pool.nextTask, prepared[pool.nextTask])
    requires u == pool.nextTask || (u < pool.nextTask && RunsTask(pool, u, prepared[u]))
    ensures RunsTask(Spawned(pool), u, prepared[u])
  {
  }

  lemma StartingKeeps(attempts: seq<Indexed>, started: nat, prepared: seq<Pending>, fates: Fates)
    requires CollectedOk(attempts, started, prepared, fates)
    ensures CollectedOk(attempts, started + 1, prepared, fates) && Uncollected(attempts, started)
  {
  }

  lemma SpawnKeepsPool(pool: Pool, prepared: seq<Pending>, fates: Fates)
    requires PoolOk(pool, prepared, fates) && pool.pending != []
    ensures PoolOk(Spawned(pool), prepared, fates)
    ensures |Spawned(pool).workers| == |pool.workers| + 1
  {
    hide Queue, CollectedOk, Uncollected, RunsTask;
    QueueStarts(prepared, pool.nextTask);
    StartingKeeps(pool.attempts, pool.nextTask, prepared, fates);
    assert pool.nextTask !in pool.workers;
    forall u | u in Spawned(pool).workers ensures RunsTask(Spawned(pool), u, prepared[u]) {
      SpawnRuns(pool, prepared, u);
    }
  }

  lemma CollectingKeeps(attempts: seq<Indexed>, started: nat, prepared: seq<Pending>, fates: Fates, done: nat)
    requires CollectedOk(attempts, started, prepared, fates) && Uncollected(attempts, done)
    requires done < started <= |prepared|
    ensures CollectedOk(attempts + [Indexed(done, AttemptOf(prepared[done], fates))], started, prepared, fates)
  {
  }

  lemma JoinRuns(pool: Pool, fates: Fates, done: nat, u: nat, prepared: Pending)
    requires done in pool.workers && done in pool.fallbacks && u != done && RunsTask(pool, u, prepared)
    ensures RunsTask(Joined(pool, done, fates), u, prepared)
  {
  }

  /** The collected result is the one its worker's fate demands. */
  lemma JoinCollects(pool: Pool, fates: Fates, done: nat, prepared: Pending)
    requires RunsTask(pool, done, prepared)
    ensures Joined(pool, done, fates).attempts == pool.attempts + [Indexed(done, AttemptOf(prepared, fates))]
  {
  }

  lemma JoinRemoves(pool: Pool, fates: Fates, done: nat)
    requires done in pool.workers && done in pool.fallbacks
    ensures var next := Joined(pool, done, fates);
      && next.workers.Keys == pool.workers.Keys - {done} && next.fallbacks.Keys == pool.fallbacks.Keys - {done}
      && |next.workers| == |pool.workers| - 1
      && next.pending == pool.pending && next.nextTask == pool.nextTask
  {
    var next := Joined(pool, done, fates);
    assert next.workers.Keys == pool.workers.Keys - {done};
    assert |next.workers.Keys| == |pool.workers.Keys| - 1;
  }

  lemma StillUncollected(attempts: seq<Indexed>, done: nat, attempt: Attempt, u: nat)
    requires Uncollected(attempts, u) && u != done
    ensures Uncollected(attempts + [Indexed(done, attempt)], u)
  {
  }

  lemma JoinKeepsPool(pool: Pool, prepared: seq<Pending>, fates: Fates, done: nat)
    requires PoolOk(pool, prepared, fates) && done in pool.workers
    ensures PoolOk(Joined(pool, done, fates), prepared, fates)
    ensures |Joined(pool, done, fates).workers| == |pool.workers| - 1
  {
    hide AttemptOf, Queue, CollectedOk, RunsTask, Uncollected, Joined;
    var next := Joined(pool, done, fates);
    assert RunsTask(pool, done, prepared[done]);
    JoinCollects(pool, fates, done, prepared[done]);
    JoinRemoves(pool, fates, done);
    CollectingKeeps(pool.attempts, pool.nextTask, prepared, fates, done);
    forall u | u in next.workers ensures RunsTask(next, u, prepared[u]) && Uncollected(next.attempts, u) {
      JoinRuns(pool, fates, done, u, prepared[u]);
      StillUncollected(pool.attempts, done, AttemptOf(prepared[done], fates), u);
    }
  }

  function Queue(prepared: seq<Pending>, start: nat): seq<Task>
    requires start <= |prepared|
  {
    seq(|prepared| - start, i requires 0 <= i < |prepared| - start => Task(start + i, prepared[start + i]))
  }

  lemma QueueStarts(prepared: seq<Pending>, start: nat)
    requires start <= |prepared| && Queue(prepared, start) != []
    ensures start < |prepared| && Queue(prepared, start)[0] == Task(start, prepared[start])
    ensures Queue(prepared, start)[1..] == Queue(prepared, start + 1)
  {
  }

  // --------------------------------------------------------------------- sort

  predicate ByIndex(attempts: seq<Indexed>) {
    forall j, k :: 0 <= j < k < |attempts| ==> attempts[j].index <= attempts[k].index
  }

  lemma InsertedStaysBelow(before: seq<Indexed>, x: Indexed, front: seq<Indexed>, bound: nat)
    requires multiset(front) == multiset(before) + multiset{x} && x.index <= bound
    requires forall k :: 0 <= k < |before| ==> before[k].index <= bound
    ensures forall k :: 0 <= k < |front| ==> front[k].index <= bound
  {
    forall k | 0 <= k < |front| ensures front[k].index <= bound {
      assert front[k] in multiset(front);
    }
  }

  function Insert(attempts: seq<Indexed>, x: Indexed): (r: seq<Indexed>)
    requires ByIndex(attempts)
    ensures ByIndex(r) && multiset(r) == multiset(attempts) + multiset{x}
  {
    if attempts == [] then [x]
    else
      var n := |attempts| - 1;
      assert attempts == attempts[..n] + [attempts[n]];
      if attempts[n].index <= x.index then attempts + [x]
      else
        var front := Insert(attempts[..n], x);
        InsertedStaysBelow(attempts[..n], x, front, attempts[n].index);
        front + [attempts[n]]
  }

  function SortedByIndex(attempts: seq<Indexed>): (r: seq<Indexed>)
    ensures ByIndex(r) && multiset(r) == multiset(attempts)
  {
    if attempts == [] then []
    else
      var n := |attempts| - 1;
      assert attempts == attempts[..n] + [attempts[n]];
      Insert(SortedByIndex(attempts[..n]), attempts[n])
  }

  /** Distinct indexes below `n`, `n` of them and in order, are 0, 1, 2 and so on. */
  lemma {:induction false} DenseIndexes(attempts: seq<Indexed>, k: nat)
    requires ByIndex(attempts) && k < |attempts|
    requires Distinct(attempts)
    ensures k <= attempts[k].index
  {
    if 0 < k { DenseIndexes(attempts, k - 1); }
  }

  lemma {:induction false} DenseIndexesAbove(attempts: seq<Indexed>, k: nat)
    requires ByIndex(attempts) && k < |attempts|
    requires Distinct(attempts)
    requires forall i :: 0 <= i < |attempts| ==> attempts[i].index < |attempts|
    ensures attempts[k].index <= k
    decreases |attempts| - k
  {
    if k + 1 < |attempts| { DenseIndexesAbove(attempts, k + 1); }
  }

  /** Sorting what was collected puts every attempt at its own index. */
  lemma SortedIsSourceOrder(attempts: seq<Indexed>, prepared: seq<Pending>, fates: Fates, k: nat)
    requires CollectedOk(attempts, |prepared|, prepared, fates) && |attempts| == |prepared|
    requires k < |prepared|
    ensures |SortedByIndex(attempts)| == |prepared|
    ensures SortedByIndex(attempts)[k] == Indexed(k, AttemptOf(prepared[k], fates))
  {
    hide AttemptOf, SortedByIndex;
    var sorted := SortedByIndex(attempts);
    assert |sorted| == |multiset(sorted)| == |multiset(attempts)| == |attempts|;
    SortKeepsDistinct(attempts, sorted);
    forall i | 0 <= i < |sorted| ensures sorted[i] in attempts {
      assert sorted[i] in multiset(sorted);
    }
    DenseIndexes(sorted, k);
    DenseIndexesAbove(sorted, k);
  }

  lemma {:induction false} CountAtLeastTwo(s: seq<Indexed>, i: nat, j: nat)
    requires i < j < |s| && s[i] == s[j]
    ensures multiset(s)[s[i]] >= 2
  {
    assert s == s[..j] + [s[j]] + s[j + 1..];
    assert s[..j][i] == s[i] && s[i] in multiset(s[..j]);
  }

  lemma {:induction false} CountAtMostOne(s: seq<Indexed>, x: Indexed)
    requires Distinct(s)
    ensures multiset(s)[x] <= 1
  {
    if s != [] {
      var n := |s| - 1;
      assert s == s[..n] + [s[n]];
      CountAtMostOne(s[..n], x);
      if x in s[..n] { assert s[n] != x; }
    }
  }

  lemma SortKeepsDistinct(attempts: seq<Indexed>, sorted: seq<Indexed>)
    requires Distinct(attempts) && multiset(sorted) == multiset(attempts)
    ensures Distinct(sorted)
  {
    forall i, j | 0 <= i < j < |sorted| ensures sorted[i].index != sorted[j].index {
      assert sorted[i] in multiset(sorted) && sorted[j] in multiset(sorted);
      var a :| 0 <= a < |attempts| && attempts[a] == sorted[i];
      var b :| 0 <= b < |attempts| && attempts[b] == sorted[j];
      if sorted[i].index == sorted[j].index {
        assert a == b;
        CountAtLeastTwo(sorted, i, j);
        CountAtMostOne(attempts, sorted[i]);
      }
    }
  }

  // -------------------------------------------------------------------- sweep

  function Initial(prepared: seq<Pending>): Pool {
    Pool(Queue(prepared, 0), map[], map[], [], 0)
  }

  /** Starts up to `n` workers. */
  function Filled(pool: Pool, n: nat): Pool
    decreases n
  {
    if n == 0 || pool.pending == [] then pool else Filled(Spawned(pool), n - 1)
  }

  /** The pool after workers ended in this order: it is filled once, and every
      worker that ends makes room for the next. `None` when the order names a
      worker that is not running. */
  function PoolAfter(prepared: seq<Pending>, maxConcurrency: nat, fates: Fates, order: seq<nat>): Option<Pool> {
    if order == [] then Some(Filled(Initial(prepared), maxConcurrency))
    else
      var done := order[|order| - 1];
      match PoolAfter(prepared, maxConcurrency, fates, order[..|order| - 1])
      case None => None
      case Some(pool) =>
        if done in pool.workers && done in pool.fallbacks then Some(Spawned(Joined(pool, done, fates))) else None
  }

  /** No more workers than allowed, and no fewer while work is queued. */
  ghost predicate Bounded(pool: Pool, maxConcurrency: nat) {
    |pool.workers| <= maxConcurrency && (pool.pending != [] ==> |pool.workers| == maxConcurrency)
  }

  lemma {:induction false} FillingKeepsPool(pool: Pool, prepared: seq<Pending>, fates: Fates, n: nat)
    requires PoolOk(pool, prepared, fates)
    ensures PoolOk(Filled(pool, n), prepared, fates)
    ensures Filled(pool, n).attempts == pool.attempts
    ensures |Filled(pool, n).workers| <= |pool.workers| + n
    ensures Filled(pool, n).pending != [] ==> |Filled(pool, n).workers| == |pool.workers| + n
    decreases n
  {
    hide PoolOk;
    if 0 < n && pool.pending != [] {
      SpawnKeepsPool(pool, prepared, fates);
      FillingKeepsPool(Spawned(pool), prepared, fates, n - 1);
    }
  }

  /** Collecting a worker and starting the next keeps the pool within bounds. */
  lemma RefillKeepsPool(pool: Pool, prepared: seq<Pending>, fates: Fates, done: nat, maxConcurrency: nat)
    requires PoolOk(pool, prepared, fates) && Bounded(pool, maxConcurrency) && done in pool.workers && done in pool.fallbacks
    ensures var next := Spawned(Joined(pool, done, fates));
      && PoolOk(next, prepared, fates) && Bounded(next, maxConcurrency) && |next.attempts| == |pool.attempts| + 1
  {
    hide PoolOk, AttemptOf;
    JoinKeepsPool(pool, prepared, fates, done);
    var joined := Joined(pool, done, fates);
    if joined.pending != [] { SpawnKeepsPool(joined, prepared, fates); }
  }

  /** In whatever order workers end, the pool never holds more than its limit,
      always has a worker left to wait for until every Effect is collected, and
      then reports one attempt per Effect in source order. */
  lemma {:induction false} EveryOrderIsBounded(prepared: seq<Pending>, maxConcurrency: nat, fates: Fates, order: seq<nat>)
    requires 0 < maxConcurrency && PoolAfter(prepared, maxConcurrency, fates, order).Some?
    ensures var pool := PoolAfter(prepared, maxConcurrency, fates, order).value;
      && PoolOk(pool, prepared, fates) && Bounded(pool, maxConcurrency)
      && |pool.attempts| == |order| <= |prepared|
      && (pool.workers == map[] <==> |order| == |prepared|)
      && (pool.workers == map[] ==> Reported(pool.attempts) == AttemptsOf(prepared, fates))
  {
    hide PoolOk, Queue, SortedByIndex, AttemptsOf, Spawned, Joined;
    var pool := PoolAfter(prepared, maxConcurrency, fates, order).value;
    if order == [] {
      EmptyPool(prepared, fates);
      FillingKeepsPool(Initial(prepared), prepared, fates, maxConcurrency);
    } else {
      var front := order[..|order| - 1];
      EveryOrderIsBounded(prepared, maxConcurrency, fates, front);
      var before := PoolAfter(prepared, maxConcurrency, fates, front).value;
      RefillKeepsPool(before, prepared, fates, order[|order| - 1], maxConcurrency);
    }
    PoolCounts(pool, prepared, fates);
    if pool.workers == map[] {
      DrainedPool(pool, prepared, fates);
      DrainedReport(pool.attempts, prepared, fates);
    }
  }

  lemma PoolCounts(pool: Pool, prepared: seq<Pending>, fates: Fates)
    requires PoolOk(pool, prepared, fates)
    ensures |pool.attempts| + |pool.workers| == pool.nextTask && |pool.pending| == |prepared| - pool.nextTask
    ensures pool.workers == map[] <==> |pool.workers| == 0
    ensures pool.workers.Keys == pool.fallbacks.Keys
  {
  }

  /** The attempts of a report: sorted by index, without the index. */
  function Reported(attempts: seq<Indexed>): seq<Attempt> {
    var sorted := SortedByIndex(attempts);
    seq(|sorted|, k requires 0 <= k < |sorted| => sorted[k].attempt)
  }

  lemma DrainedReport(attempts: seq<Indexed>, prepared: seq<Pending>, fates: Fates)
    requires |attempts| == |prepared| && CollectedOk(attempts, |prepared|, prepared, fates)
    ensures Reported(attempts) == AttemptsOf(prepared, fates)
  {
    hide AttemptOf, SortedByIndex, CollectedOk;
    var sorted := SortedByIndex(attempts);
    assert |sorted| == |multiset(sorted)| == |multiset(attempts)|;
    forall k | 0 <= k < |prepared| ensures Reported(attempts)[k] == AttemptsOf(prepared, fates)[k] {
      SortedIsSourceOrder(attempts, prepared, fates, k);
    }
  }

  /** One worker started, or one worker ended. */
  ghost predicate PoolStep(a: Pool, b: Pool, fates: Fates) {
    || (a.pending != [] && b == Spawned(a))
    || (exists done :: done in a.workers && done in a.fallbacks && b == Joined(a, done, fates))
  }

  /** Every state the pool went through, from the full queue to the drained pool:
      consecutive states differ by one worker, and none holds too many. */
  ghost predicate IsTrace(trace: seq<Pool>, prepared: seq<Pending>, maxConcurrency: nat, fates: Fates) {
    && trace != [] && trace[0] == Initial(prepared)
    && (forall k :: 0 < k < |trace| ==> Follows(trace, k, fates))
    && (forall k :: 0 <= k < |trace| ==> |trace[k].workers| <= maxConcurrency)
  }

  ghost predicate Follows(trace: seq<Pool>, k: nat, fates: Fates)
    requires 0 < k < |trace|
  {
    PoolStep(trace[k - 1], trace[k], fates)
  }

  lemma TraceExtends(trace: seq<Pool>, pool: Pool, prepared: seq<Pending>, maxConcurrency: nat, fates: Fates)
    requires IsTrace(trace, prepared, maxConcurrency, fates) && PoolStep(trace[|trace| - 1], pool, fates)
    requires |pool.workers| <= maxConcurrency
    ensures IsTrace(trace + [pool], prepared, maxConcurrency, fates)
  {
    hide PoolStep, Initial;
    var next := trace + [pool];
    forall k | 0 < k < |next| ensures Follows(next, k, fates) {
      if k < |trace| { assert Follows(trace, k, fates) && next[k - 1] == trace[k - 1] && next[k] == trace[k]; }
    }
  }

  /** One sweep over a page of pending Effects. Which running worker ends next is
      arbitrary: `order` is the order in which they ended and `trace` lists every
      state of the pool. A validated configuration allows at least one worker. */
  method RunOnce(effects: seq<Pending>, scannedAt: u64, maxConcurrency: nat, fates: Fates)
    returns (attempts: seq<Attempt>, ghost order: seq<nat>, ghost trace: seq<Pool>)
    requires 0 < maxConcurrency
    ensures attempts == AttemptsOf(Eligible(effects, scannedAt), fates)
    ensures var eligible := Eligible(effects, scannedAt);
      |attempts| == |eligible| && forall k :: 0 <= k < |attempts| ==> AttemptTells(attempts[k], eligible[k], fates)
    ensures IsTrace(trace, Eligible(effects, scannedAt), maxConcurrency, fates)
    ensures PoolAfter(Eligible(effects, scannedAt), maxConcurrency, fates, order) == Some(trace[|trace| - 1])
    ensures attempts == Reported(trace[|trace| - 1].attempts) && trace[|trace| - 1].workers == map[]
  {
    hide PoolOk, AttemptsOf, Queue, SortedByIndex, Spawned, Joined, IsTrace, Filled;
    var prepared := Prepare(effects, scannedAt);
    var pool := Initial(prepared);
    EmptyPool(prepared, fates);
    trace, order := [pool], [];
    FirstTrace(prepared, maxConcurrency, fates);
    var started := 0;
    while started < maxConcurrency && pool.pending != []
      invariant PoolOk(pool, prepared, fates) && |pool.workers| == started <= maxConcurrency
      invariant IsTrace(trace, prepared, maxConcurrency, fates) && trace != [] && trace[|trace| - 1] == pool
      invariant Filled(pool, maxConcurrency - started) == Filled(Initial(prepared), maxConcurrency)
      decreases maxConcurrency - started
    {
      SpawnKeepsPool(pool, prepared, fates);
      FillsOne(pool, maxConcurrency - started);
      pool := Spawned(pool);
      TraceExtends(trace, pool, prepared, maxConcurrency, fates);
      trace := trace + [pool];
      started := started + 1;
    }
    FillsNone(pool, maxConcurrency - started);
    while pool.workers != map[]
      invariant PoolOk(pool, prepared, fates) && Bounded(pool, maxConcurrency)
      invariant IsTrace(trace, prepared, maxConcurrency, fates) && trace != [] && trace[|trace| - 1] == pool
      invariant PoolAfter(prepared, maxConcurrency, fates, order) == Some(pool)
      decreases |prepared| - |order|
    {
      EveryOrderIsBounded(prepared, maxConcurrency, fates, order);
      var done :| done in pool.workers;
      JoinKeepsPool(pool, prepared, fates, done);
      PoolCounts(pool, prepared, fates);
      RefillKeepsPool(pool, prepared, fates, done, maxConcurrency);
      assert (order + [done])[..|order|] == order;
      order := order + [done];
      pool := Joined(pool, done, fates);
      TraceExtends(trace, pool, prepared, maxConcurrency, fates);
      trace := trace + [pool];
      if pool.pending != [] {
        SpawnKeepsPool(pool, prepared, fates);
        pool := Spawned(pool);
        TraceExtends(trace, pool, prepared, maxConcurrency, fates);
        trace := trace + [pool];
      } else {
        SpawnsNothing(pool);
      }
      EveryOrderIsBounded(prepared, maxConcurrency, fates, order);
    }
    EveryOrderIsBounded(prepared, maxConcurrency, fates, order);
    attempts := Reported(pool.attempts);
    AttemptsTell(prepared, fates);
    AttemptsMatch(prepared, fates);
  }

  lemma AttemptsMatch(prepared: seq<Pending>, fates: Fates)
    ensures |AttemptsOf(prepared, fates)| == |prepared|
  {
  }

  lemma FirstTrace(prepared: seq<Pending>, maxConcurrency: nat, fates: Fates)
    ensures IsTrace([Initial(prepared)], prepared, maxConcurrency, fates)
  {
  }

  lemma FillsOne(pool: Pool, n: nat)
    requires 0 < n && pool.pending != []
    ensures Filled(pool, n) == Filled(Spawned(pool), n - 1)
  {
  }

  lemma FillsNone(pool: Pool, n: nat)
    requires n == 0 || pool.pending == []
    ensures Filled(pool, n) == pool
  {
  }

  lemma SpawnsNothing(pool: Pool)
    requires pool.pending == []
    ensures Spawned(pool) == pool
  {
  }

  method Prepare(effects: seq<Pending>, scannedAt: u64) returns (prepared: seq<Pending>)
    ensures prepared == Eligible(effects, scannedAt)
  {
    prepared := [];
    var i := 0;
    while i < |effects|
      invariant 0 <= i <= |effects| && prepared == Eligible(effects[..i], scannedAt)
    {
      assert effects[..i + 1][..i] == effects[..i];
      if effects[i].notBefore <= scannedAt {
        prepared := prepared + [effects[i]];
      }
      i := i + 1;
    }
    assert effects[..i] == effects;
  }

  lemma EmptyPool(prepared: seq<Pending>, fates: Fates)
    ensures PoolOk(Initial(prepared), prepared, fates) && |Initial(prepared).workers| == 0
  {
  }

  lemma DrainedPool(pool: Pool, prepared: seq<Pending>, fates: Fates)
    requires PoolOk(pool, prepared, fates) && pool.workers == map[] && pool.pending == []
    ensures |pool.attempts| == |prepared| && CollectedOk(pool.attempts, |prepared|, prepared, fates)
  {
  }

  /** The eligible Effects are the due ones, all of them, in source order. */
  lemma {:induction false} EligibleIsTheDuePart(effects: seq<Pending>, scannedAt: u64) returns (indexes: seq<nat>)
    ensures Increasing(indexes)
    ensures forall i: nat :: i in indexes <==> i < |effects| && effects[i].notBefore <= scannedAt
    ensures |Eligible(effects, scannedAt)| == |indexes|
    ensures forall k :: 0 <= k < |indexes| ==>
      indexes[k] < |effects| && Eligible(effects, scannedAt)[k] == effects[indexes[k]]
  {
    if effects == [] {
      return [];
    }
    var n := |effects| - 1;
    indexes := EligibleIsTheDuePart(effects[..n], scannedAt);
    assert forall k :: 0 <= k < |indexes| ==> indexes[k] in indexes;
    if effects[n].notBefore <= scannedAt {
      indexes := indexes + [n];
    }
  }
}
