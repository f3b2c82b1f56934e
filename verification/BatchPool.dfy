/**
 * Batches on the worker pool: any number of batches hand their items to one pool, whose
 * workers run the statements of each item's task. Every run of the composition is, seen
 * from the pool, a run of the pool and, seen from each batch, a run of that batch, so both
 * theories apply; the link between them is where the task of an unfinished item is.
 */
module BatchPool {
  import opened Wrappers
  import Batches
  import BatchOutcomes
  import WorkerPools

  /** A task of the pool: one item of one batch. */
  datatype Job = Job(batch: nat, item: nat)

  /** A batch, and its own part of the schedule. */
  datatype Tracked = Tracked(total: nat, steps: Batches.Schedule, state: Batches.State)

  datatype Gateway = Gateway(pool: WorkerPools.Pool<Job>, steps: WorkerPools.Schedule<Job>, batches: seq<Tracked>)

  datatype Step =
    | NewBatch(total: nat)
    | PoolStep(own: WorkerPools.Step<Job>)
    | BatchStep(batch: nat, statement: Batches.Step)
    | Hand(batch: nat)
    | TurnAway(batch: nat)
    | Work(worker: nat, statement: Batches.Step)
    | Return(worker: nat)

  // ---------------------------------------------------------------- transitions

  predicate IsWork(statement: Batches.Step) {
    statement.MarkItem? || statement.CountItem? || statement.CheckBatch?
  }

  predicate IsSubmission(statement: Batches.Step) {
    statement.SubmitAccepted? || statement.SubmitRejected?
  }

  /** The worker has a task whose function has not returned. */
  predicate Busy(worker: WorkerPools.Worker<Job>) {
    (worker.Running? || worker.Draining?) && !worker.returned
  }

  predicate KnownJob(g: Gateway, job: Job) {
    job.batch < |g.batches| && job.item < |g.batches[job.batch].state.tasks|
  }

  function TaskOf(g: Gateway, job: Job): Batches.Task
    requires KnownJob(g, job)
  {
    g.batches[job.batch].state.tasks[job.item]
  }

  /** The item a submitting batch offers next. */
  function NextJob(g: Gateway, b: nat): Job
    requires b < |g.batches| && g.batches[b].state.submitter.Submitting?
    requires g.batches[b].state.submitter.next < |g.batches[b].state.submitter.loaded|
  {
    Job(b, g.batches[b].state.submitter.loaded[g.batches[b].state.submitter.next])
  }

  ghost predicate Enabled(g: Gateway, step: Step) {
    && !g.pool.crashed
    && match step
       case NewBatch(total) => total > 0
       case PoolStep(own) => WorkerPools.Enabled(g.pool, own) && !own.Send? && !own.SendBlocking? && !own.Return?
       case BatchStep(b, statement) =>
         b < |g.batches| && !IsWork(statement) && !IsSubmission(statement) && Batches.Enabled(g.batches[b].state, statement)
       case Hand(b) => b < |g.batches| && Batches.Enabled(g.batches[b].state, Batches.SubmitAccepted) && g.pool.sending > 0
       case TurnAway(b) =>
         && b < |g.batches| && Batches.Enabled(g.batches[b].state, Batches.SubmitRejected)
         && (g.pool.closing || !g.pool.started)
       case Work(w, statement) =>
         && w < |g.pool.workers| && Busy(g.pool.workers[w]) && IsWork(statement)
         && var job := g.pool.workers[w].info;
         job.batch < |g.batches| && statement.item == job.item && Batches.Enabled(g.batches[job.batch].state, statement)
       case Return(w) =>
         && w < |g.pool.workers| && Busy(g.pool.workers[w])
         && KnownJob(g, g.pool.workers[w].info) && TaskOf(g, g.pool.workers[w].info).Finished?
  }

  ghost function OnPool(g: Gateway, own: WorkerPools.Step<Job>): Gateway
    requires WorkerPools.Enabled(g.pool, own)
  {
    g.(pool := WorkerPools.Apply(g.pool, own), steps := g.steps + [own])
  }

  ghost function OnBatch(g: Gateway, b: nat, statement: Batches.Step): Gateway
    requires b < |g.batches| && Batches.Enabled(g.batches[b].state, statement)
  {
    var t := g.batches[b];
    g.(batches := g.batches[b := Tracked(t.total, t.steps + [statement], Batches.Apply(t.state, statement))])
  }

  /** The send of Submit: a panic on a closed channel, otherwise accepted if there is room. */
  ghost function Handed(g: Gateway, b: nat): Gateway
    requires Enabled(g, Hand(b))
  {
    var sent := OnPool(g, WorkerPools.Send(NextJob(g, b)));
    if g.pool.closed then sent
    else if |g.pool.queue| < g.pool.capacity then OnBatch(sent, b, Batches.SubmitAccepted)
    else OnBatch(sent, b, Batches.SubmitRejected)
  }

  ghost function Apply(g: Gateway, step: Step): Gateway
    requires Enabled(g, step)
  {
    match step
    case NewBatch(total) => g.(batches := g.batches + [Tracked(total, [], Batches.Init(total))])
    case PoolStep(own) => OnPool(g, own)
    case BatchStep(b, statement) => OnBatch(g, b, statement)
    case Hand(b) => Handed(g, b)
    case TurnAway(b) => OnBatch(g, b, Batches.SubmitRejected)
    case Work(w, statement) => OnBatch(g, g.pool.workers[w].info.batch, statement)
    case Return(w) => OnPool(g, WorkerPools.Return(w, false))
  }

  function Init(size: nat, capacity: nat): Gateway {
    Gateway(WorkerPools.Init(size, capacity), [], [])
  }

  type Schedule = seq<Step>

  ghost function Run(size: nat, capacity: nat, steps: Schedule): Option<Gateway> {
    if steps == [] then Some(Init(size, capacity))
    else
      var before := Run(size, capacity, steps[..|steps| - 1]);
      var step := steps[|steps| - 1];
      if before.None? || !Enabled(before.value, step) then None else Some(Apply(before.value, step))
  }

  // ---------------------------------------------------------------- each part is a run of its own

  ghost predicate IsRun(t: Tracked) {
    t.total > 0 && Batches.Run(t.total, t.steps) == Some(t.state)
  }

  ghost predicate PartsAreRuns(size: nat, capacity: nat, g: Gateway) {
    && WorkerPools.RunFrom(WorkerPools.Init<Job>(size, capacity), g.steps) == Some(g.pool)
    && forall b :: 0 <= b < |g.batches| ==> IsRun(g.batches[b])
  }

  lemma OnPoolIsRun(size: nat, capacity: nat, g: Gateway, own: WorkerPools.Step<Job>)
    requires PartsAreRuns(size, capacity, g) && WorkerPools.Enabled(g.pool, own)
    ensures PartsAreRuns(size, capacity, OnPool(g, own))
  {
    var more, q := WorkerPools.OneMore(WorkerPools.Init<Job>(size, capacity), g.steps, g.pool, own);
  }

  lemma OnBatchIsRun(size: nat, capacity: nat, g: Gateway, b: nat, statement: Batches.Step)
    requires PartsAreRuns(size, capacity, g) && b < |g.batches| && Batches.Enabled(g.batches[b].state, statement)
    ensures PartsAreRuns(size, capacity, OnBatch(g, b, statement))
  {
    var t := g.batches[b];
    assert IsRun(t);
    var more := Batches.Scheduled(t.total, t.steps, statement);
  }

  lemma HandedIsRun(size: nat, capacity: nat, g: Gateway, b: nat)
    requires PartsAreRuns(size, capacity, g) && Enabled(g, Hand(b))
    ensures PartsAreRuns(size, capacity, Handed(g, b))
  {
    var send := WorkerPools.Send(NextJob(g, b));
    OnPoolIsRun(size, capacity, g, send);
    if !g.pool.closed {
      OnBatchIsRun(size, capacity, OnPool(g, send), b,
        if |g.pool.queue| < g.pool.capacity then Batches.SubmitAccepted else Batches.SubmitRejected);
    }
  }

  lemma StepIsRun(size: nat, capacity: nat, g: Gateway, step: Step)
    requires PartsAreRuns(size, capacity, g) && Enabled(g, step)
    ensures PartsAreRuns(size, capacity, Apply(g, step))
  {
    match step
    case NewBatch(_) =>
    case PoolStep(own) => OnPoolIsRun(size, capacity, g, own);
    case BatchStep(b, statement) => OnBatchIsRun(size, capacity, g, b, statement);
    case Hand(b) => HandedIsRun(size, capacity, g, b);
    case TurnAway(b) => OnBatchIsRun(size, capacity, g, b, Batches.SubmitRejected);
    case Work(w, statement) => OnBatchIsRun(size, capacity, g, g.pool.workers[w].info.batch, statement);
    case Return(w) => OnPoolIsRun(size, capacity, g, WorkerPools.Return(w, false));
  }

  /** Seen from the pool a run of the pool, seen from each batch a run of that batch. */
  lemma {:induction false} EveryPartIsARun(size: nat, capacity: nat, steps: Schedule)
    requires Run(size, capacity, steps).Some?
    ensures PartsAreRuns(size, capacity, Run(size, capacity, steps).value)
  {
    if steps != [] {
      var n := |steps| - 1;
      EveryPartIsARun(size, capacity, steps[..n]);
      StepIsRun(size, capacity, Run(size, capacity, steps[..n]).value, steps[n]);
    }
  }

  // ---------------------------------------------------------------- where an unfinished item is

  predicate InProgress(task: Batches.Task) {
    task.Queued? || task.Marked? || task.Counted?
  }

  predicate Holds(pool: WorkerPools.Pool<Job>, w: nat, job: Job) {
    w < |pool.workers| && Busy(pool.workers[w]) && pool.workers[w].info == job
  }

  /** In the queue, or with a worker whose function has not returned. */
  ghost predicate Located(pool: WorkerPools.Pool<Job>, job: Job) {
    job in pool.queue || exists w: nat :: Holds(pool, w, job)
  }

  ghost predicate UnfinishedIsLocated(g: Gateway) {
    forall job: Job :: KnownJob(g, job) && InProgress(TaskOf(g, job)) ==> Located(g.pool, job)
  }

  ghost predicate AcceptedHasTask(g: Gateway) {
    forall job: Job :: job in g.pool.accepted ==> KnownJob(g, job) && !TaskOf(g, job).NoTask?
  }

  ghost predicate Linked(g: Gateway) {
    UnfinishedIsLocated(g) && AcceptedHasTask(g)
  }

  predicate MovesTasks(own: WorkerPools.Step<Job>) {
    own.Send? || own.SendBlocking? || own.Return?
  }

  /** No other step of the pool loses a task whose function has not returned, or accepts one. */
  lemma PoolStepKeepsLocated(pool: WorkerPools.Pool<Job>, own: WorkerPools.Step<Job>, job: Job)
    requires WorkerPools.Enabled(pool, own) && !MovesTasks(own) && Located(pool, job)
    ensures Located(WorkerPools.Apply(pool, own), job)
  {
    var q := WorkerPools.Apply(pool, own);
    if job in pool.queue {
      if own.Receive? {
        ReceivedIsLocated(pool, own.w, job);
      }
    } else {
      var w: nat :| Holds(pool, w, job);
      assert Holds(q, w, job);
    }
  }

  lemma ReceivedIsLocated(pool: WorkerPools.Pool<Job>, w: nat, job: Job)
    requires WorkerPools.Enabled(pool, WorkerPools.Receive(w)) && job in pool.queue
    ensures Located(WorkerPools.Apply(pool, WorkerPools.Receive(w)), job)
  {
    var q := WorkerPools.Apply(pool, WorkerPools.Receive(w));
    if pool.queue[0] == job {
      assert Holds(q, w, job);
    } else {
      var k :| 0 <= k < |pool.queue| && pool.queue[k] == job;
      assert q.queue[k - 1] == job;
    }
  }

  lemma PoolStepKeepsAccepted(pool: WorkerPools.Pool<Job>, own: WorkerPools.Step<Job>)
    requires WorkerPools.Enabled(pool, own) && !own.Send? && !own.SendBlocking?
    ensures WorkerPools.Apply(pool, own).accepted == pool.accepted
  {
  }

  lemma PoolStepKeepsLink(g: Gateway, own: WorkerPools.Step<Job>)
    requires Linked(g) && WorkerPools.Enabled(g.pool, own) && !MovesTasks(own)
    ensures Linked(OnPool(g, own))
  {
    var h := OnPool(g, own);
    PoolStepKeepsAccepted(g.pool, own);
    assert h.batches == g.batches;
    forall job: Job | KnownJob(h, job) && InProgress(TaskOf(h, job)) ensures Located(h.pool, job) {
      assert KnownJob(g, job) && TaskOf(g, job) == TaskOf(h, job);
      PoolStepKeepsLocated(g.pool, own, job);
    }
    forall job: Job | job in h.pool.accepted ensures KnownJob(h, job) && !TaskOf(h, job).NoTask? {
      assert KnownJob(g, job) && TaskOf(g, job) == TaskOf(h, job);
    }
  }

  /** The function of a finished item may return: nothing unfinished was with this worker. */
  lemma ReturnKeepsLink(g: Gateway, w: nat)
    requires Linked(g) && Enabled(g, Return(w))
    ensures Linked(Apply(g, Return(w)))
  {
    var h := Apply(g, Return(w));
    assert h.batches == g.batches && h.pool.accepted == g.pool.accepted && h.pool.queue == g.pool.queue;
    forall job: Job | KnownJob(h, job) && InProgress(TaskOf(h, job)) ensures Located(h.pool, job) {
      assert KnownJob(g, job) && TaskOf(g, job) == TaskOf(h, job);
      if job !in g.pool.queue {
        var v: nat :| Holds(g.pool, v, job);
        assert v != w;
        assert Holds(h.pool, v, job);
      }
    }
    forall job: Job | job in h.pool.accepted ensures KnownJob(h, job) && !TaskOf(h, job).NoTask? {
      assert KnownJob(g, job) && TaskOf(g, job) == TaskOf(h, job);
    }
  }

  // ---------------------------------------------------------------- the batch's side of the link

  /** Tasks are only ever added at the end, and a task never becomes none again. */
  lemma StatementKeepsTasks(s: Batches.State, statement: Batches.Step, i: nat)
    requires Batches.Enabled(s, statement) && i < |s.tasks|
    ensures var t := Batches.Apply(s, statement);
      && i < |t.tasks|
      && (!s.tasks[i].NoTask? ==> !t.tasks[i].NoTask?)
      && (!IsWork(statement) && !statement.SubmitAccepted? ==> t.tasks[i] == s.tasks[i])
      && (IsWork(statement) && statement.item != i ==> t.tasks[i] == s.tasks[i])
  {
  }

  lemma StatementAddsNoTask(s: Batches.State, statement: Batches.Step, i: nat)
    requires Batches.Enabled(s, statement) && |s.tasks| <= i < |Batches.Apply(s, statement).tasks|
    ensures Batches.Apply(s, statement).tasks[i].NoTask?
  {
  }

  lemma OnBatchKeepsAccepted(g: Gateway, b: nat, statement: Batches.Step)
    requires AcceptedHasTask(g) && b < |g.batches| && Batches.Enabled(g.batches[b].state, statement)
    ensures AcceptedHasTask(OnBatch(g, b, statement))
  {
    var h := OnBatch(g, b, statement);
    forall job: Job | job in h.pool.accepted ensures KnownJob(h, job) && !TaskOf(h, job).NoTask? {
      assert KnownJob(g, job);
      if job.batch == b {
        StatementKeepsTasks(g.batches[b].state, statement, job.item);
      }
    }
  }

  /** A statement after which item `i` alone may have changed, to a located one. */
  lemma OnBatchKeepsLocated(g: Gateway, b: nat, statement: Batches.Step)
    requires UnfinishedIsLocated(g) && b < |g.batches| && Batches.Enabled(g.batches[b].state, statement)
    requires statement.SubmitAccepted? ==> Located(g.pool, NextJob(g, b))
    requires IsWork(statement) ==> Located(g.pool, Job(b, statement.item))
    ensures UnfinishedIsLocated(OnBatch(g, b, statement))
  {
    var h := OnBatch(g, b, statement);
    var s := g.batches[b].state;
    forall job: Job | KnownJob(h, job) && InProgress(TaskOf(h, job)) ensures Located(h.pool, job) {
      if job.batch != b {
        assert KnownJob(g, job) && TaskOf(g, job) == TaskOf(h, job);
      } else if job.item >= |s.tasks| {
        StatementAddsNoTask(s, statement, job.item);
      } else {
        StatementKeepsTasks(s, statement, job.item);
        if TaskOf(h, job) == s.tasks[job.item] {
          assert KnownJob(g, job) && TaskOf(g, job) == TaskOf(h, job);
        } else if statement.SubmitAccepted? {
          assert job == NextJob(g, b);
        } else {
          assert job == Job(b, statement.item);
        }
      }
    }
  }

  lemma HandedKeepsLink(g: Gateway, b: nat)
    requires Linked(g) && Enabled(g, Hand(b))
    ensures Linked(Handed(g, b))
  {
    var job := NextJob(g, b);
    var sent := OnPool(g, WorkerPools.Send(job));
    forall other: Job | KnownJob(sent, other) && InProgress(TaskOf(sent, other)) ensures Located(sent.pool, other) {
      assert KnownJob(g, other) && TaskOf(g, other) == TaskOf(sent, other);
      if other !in g.pool.queue {
        var w: nat :| Holds(g.pool, w, other);
        assert Holds(sent.pool, w, other);
      }
    }
    assert UnfinishedIsLocated(sent);
    if g.pool.closed {
      RefusedKeepsAccepted(g, sent);
    } else if |g.pool.queue| < g.pool.capacity {
      assert sent.pool.queue[|g.pool.queue|] == job;
      OnBatchKeepsLocated(sent, b, Batches.SubmitAccepted);
      AcceptedKeepsAccepted(g, b);
    } else {
      RefusedKeepsAccepted(g, sent);
      OnBatchKeepsLocated(sent, b, Batches.SubmitRejected);
      OnBatchKeepsAccepted(sent, b, Batches.SubmitRejected);
    }
  }

  lemma RefusedKeepsAccepted(g: Gateway, h: Gateway)
    requires AcceptedHasTask(g) && h.batches == g.batches && h.pool.accepted == g.pool.accepted
    ensures AcceptedHasTask(h)
  {
    forall job: Job | job in h.pool.accepted ensures KnownJob(h, job) && !TaskOf(h, job).NoTask? {
      assert KnownJob(g, job) && TaskOf(g, job) == TaskOf(h, job);
    }
  }

  lemma AcceptedKeepsAccepted(g: Gateway, b: nat)
    requires AcceptedHasTask(g) && Enabled(g, Hand(b)) && !g.pool.closed && |g.pool.queue| < g.pool.capacity
    ensures AcceptedHasTask(Handed(g, b))
  {
    var h, next := Handed(g, b), NextJob(g, b);
    forall job: Job | job in h.pool.accepted ensures KnownJob(h, job) && !TaskOf(h, job).NoTask? {
      if job != next {
        assert job in g.pool.accepted;
        assert KnownJob(g, job);
        if job.batch == b {
          StatementKeepsTasks(g.batches[b].state, Batches.SubmitAccepted, job.item);
        }
      }
    }
  }

  lemma NewBatchKeepsLink(g: Gateway, total: nat)
    requires Linked(g) && Enabled(g, NewBatch(total))
    ensures Linked(Apply(g, NewBatch(total)))
  {
    var h := Apply(g, NewBatch(total));
    assert h.batches[|g.batches|].state.tasks == [];
    forall job: Job | KnownJob(h, job) ensures KnownJob(g, job) && TaskOf(g, job) == TaskOf(h, job) {
    }
    forall job: Job | job in h.pool.accepted ensures KnownJob(h, job) && !TaskOf(h, job).NoTask? {
      assert KnownJob(g, job);
    }
  }

  lemma StepKeepsLink(g: Gateway, step: Step)
    requires Linked(g) && Enabled(g, step)
    ensures Linked(Apply(g, step))
  {
    match step
    case NewBatch(total) => NewBatchKeepsLink(g, total);
    case PoolStep(own) => PoolStepKeepsLink(g, own);
    case BatchStep(b, statement) =>
      OnBatchKeepsLocated(g, b, statement);
      OnBatchKeepsAccepted(g, b, statement);
    case Hand(b) => HandedKeepsLink(g, b);
    case TurnAway(b) =>
      OnBatchKeepsLocated(g, b, Batches.SubmitRejected);
      OnBatchKeepsAccepted(g, b, Batches.SubmitRejected);
    case Work(w, statement) =>
      var job := g.pool.workers[w].info;
      assert Holds(g.pool, w, job) && job == Job(job.batch, statement.item);
      OnBatchKeepsLocated(g, job.batch, statement);
      OnBatchKeepsAccepted(g, job.batch, statement);
    case Return(w) => ReturnKeepsLink(g, w);
  }

  lemma {:induction false} EveryRunIsLinked(size: nat, capacity: nat, steps: Schedule)
    requires Run(size, capacity, steps).Some?
    ensures Linked(Run(size, capacity, steps).value)
  {
    if steps != [] {
      var n := |steps| - 1;
      EveryRunIsLinked(size, capacity, steps[..n]);
      StepKeepsLink(Run(size, capacity, steps[..n]).value, steps[n]);
    }
  }

  // ---------------------------------------------------------------- after a shutdown

  /** Nothing is in the queue and nobody works. */
  lemma NothingLocated(pool: WorkerPools.Pool<Job>, job: Job)
    requires pool.queue == [] && WorkerPools.AllExited(pool.workers)
    ensures !Located(pool, job)
  {
    forall w: nat ensures !Holds(pool, w, job) {
      if w < |pool.workers| {
        assert pool.workers[w].Exited?;
      }
    }
  }

  /** The item's row says completed or failed. */
  predicate IsSettled(g: Gateway, job: Job) {
    && job.batch < |g.batches| && job.item < |g.batches[job.batch].state.items|
    && Batches.Settled(g.batches[job.batch].state.items[job.item])
  }

  lemma FinishedIsSettled(g: Gateway, job: Job)
    requires KnownJob(g, job) && TaskOf(g, job).Finished? && IsRun(g.batches[job.batch])
    ensures IsSettled(g, job)
  {
    Batches.RunKeepsInv(g.batches[job.batch].total, g.batches[job.batch].steps);
  }

  /**
   * When a graceful shutdown returns, in every run and for every batch: each accepted item is
   * marked, counted and checked, no task is half done, and a batch whose submitter is through
   * has counted exactly the items it loaded.
   */
  lemma ShutdownSettlesEveryBatch(size: nat, capacity: nat, steps: Schedule)
    requires Run(size, capacity, steps).Some?
    requires var g := Run(size, capacity, steps).value;
      WorkerPools.Enabled(g.pool, WorkerPools.ShutdownReturns) && (WorkerPools.HasSpawn(g.steps) || g.pool.accepted == [])
    ensures var g := Run(size, capacity, steps).value;
      && (forall job: Job :: job in g.pool.accepted ==> KnownJob(g, job) && TaskOf(g, job).Finished? && IsSettled(g, job))
      && (forall job: Job :: KnownJob(g, job) ==> TaskOf(g, job).NoTask? || TaskOf(g, job).Finished?)
      && g.pool.completed + g.pool.timedOut == |g.pool.accepted|
  {
    var g := Run(size, capacity, steps).value;
    EveryPartIsARun(size, capacity, steps);
    EveryRunIsLinked(size, capacity, steps);
    WorkerPools.GracefulShutdownDrains(size, capacity, g.steps);
    forall job: Job | KnownJob(g, job) ensures TaskOf(g, job).NoTask? || TaskOf(g, job).Finished? {
      NothingLocated(g.pool, job);
    }
    forall job: Job | job in g.pool.accepted ensures TaskOf(g, job).Finished? && IsSettled(g, job) {
      FinishedIsSettled(g, job);
    }
  }

  /** The batch's own view of that moment. */
  lemma ShutdownSettlesTheBatch(size: nat, capacity: nat, steps: Schedule, b: nat)
    requires Run(size, capacity, steps).Some? && b < |Run(size, capacity, steps).value.batches|
    requires var g := Run(size, capacity, steps).value;
      WorkerPools.Enabled(g.pool, WorkerPools.ShutdownReturns) && (WorkerPools.HasSpawn(g.steps) || g.pool.accepted == [])
    requires var s := Run(size, capacity, steps).value.batches[b].state;
      s.submitter.Submitting? && s.submitter.next == |s.submitter.loaded|
    ensures var t := Run(size, capacity, steps).value.batches[b];
      && BatchOutcomes.Quiescent(t.state)
      && t.state.completed + t.state.failed == |t.state.submitter.loaded|
      && (Batches.SubmitRejected !in t.steps && !BatchOutcomes.EarlyCancel(t.steps) ==> !Batches.Live(t.state.status))
  {
    var g := Run(size, capacity, steps).value;
    var t := g.batches[b];
    EveryPartIsARun(size, capacity, steps);
    assert IsRun(t);
    ShutdownSettlesEveryBatch(size, capacity, steps);
    forall i | 0 <= i < |t.state.tasks| ensures t.state.tasks[i].NoTask? || t.state.tasks[i].Finished? {
      assert KnownJob(g, Job(b, i)) && TaskOf(g, Job(b, i)) == t.state.tasks[i];
    }
    Batches.RunKeepsInv(t.total, t.steps);
    BatchOutcomes.QuiescentCounts(t.state);
    if Batches.SubmitRejected !in t.steps && !BatchOutcomes.EarlyCancel(t.steps) {
      BatchOutcomes.EveryOrderlyRunSettles(t.total, t.steps);
    }
  }
}
