/**
 * What the pool's three counters count, read off the schedule: tasks that returned before
 * their deadline, tasks counted after it or while their context was over, and panics.
 */
module PoolCounts {
  import opened Wrappers
  import opened WorkerPools

  function Front<T>(steps: Schedule<T>): Schedule<T>
    requires steps != []
  {
    steps[..|steps| - 1]
  }

  function Last<T>(steps: Schedule<T>): Step<T>
    requires steps != []
  {
    steps[|steps| - 1]
  }

  /** The deadline of the task that worker `w` took last has passed. */
  predicate Overdue<T>(steps: Schedule<T>, w: nat) {
    steps != [] &&
    ((Last(steps).Expire? && Last(steps).w == w)
     || (Overdue(Front(steps), w) && !(Last(steps).Receive? && Last(steps).w == w)))
  }

  predicate HasCancel<T>(steps: Schedule<T>) {
    steps != [] && (Last(steps).CancelAll? || HasCancel(Front(steps)))
  }

  /** Tasks whose function returned and which were counted before their deadline. */
  function InTimeCounts<T>(steps: Schedule<T>): nat {
    if steps == [] then 0
    else InTimeCounts(Front(steps)) + if Last(steps).CountDone? && !Overdue(Front(steps), Last(steps).w) then 1 else 0
  }

  /** Tasks counted after their deadline, or while their function was still running. */
  function LateCounts<T>(steps: Schedule<T>): nat {
    if steps == [] then 0
    else
      LateCounts(Front(steps))
      + if Last(steps).CountTimeout? || (Last(steps).CountDone? && Overdue(Front(steps), Last(steps).w)) then 1 else 0
  }

  function Panics<T>(steps: Schedule<T>): nat {
    if steps == [] then 0 else Panics(Front(steps)) + if Last(steps).Return? && Last(steps).panics then 1 else 0
  }

  /** The context of a running task is what the schedule did to it. */
  predicate ContextExplained<T>(steps: Schedule<T>, worker: Worker<T>, w: nat) {
    worker.Running? ==>
      && (worker.ctx.DeadlineExceeded? <==> Overdue(steps, w))
      && (worker.ctx.Canceled? <==> !Overdue(steps, w) && HasCancel(steps))
  }

  ghost predicate ContextsExplained<T>(steps: Schedule<T>, p: Pool<T>) {
    && (p.cancelled <==> HasCancel(steps))
    && forall w: nat :: w < |p.workers| ==> ContextExplained(steps, p.workers[w], w)
  }

  ghost predicate CountsExplained<T>(steps: Schedule<T>, p: Pool<T>) {
    p.completed == InTimeCounts(steps) && p.timedOut == LateCounts(steps) && p.panicked == Panics(steps)
  }

  lemma Questions<T>(steps: Schedule<T>, step: Step<T>)
    ensures var all := steps + [step];
      && Front(all) == steps && Last(all) == step
      && (HasCancel(all) <==> HasCancel(steps) || step.CancelAll?)
      && (forall w: nat :: Overdue(all, w) <==>
            (step.Expire? && step.w == w) || (Overdue(steps, w) && !(step.Receive? && step.w == w)))
  {
    assert Front(steps + [step]) == steps && Last(steps + [step]) == step;
  }

  lemma ContextKept<T>(steps: Schedule<T>, p: Pool<T>, step: Step<T>, w: nat)
    requires ContextsExplained(steps, p) && Enabled(p, step) && w < |Apply(p, step).workers|
    ensures ContextExplained(steps + [step], Apply(p, step).workers[w], w)
  {
    Questions(steps, step);
    var q := Apply(p, step);
    StepKeepsNumbers(p, step);
    if w < |p.workers| {
      assert ContextExplained(steps, p.workers[w], w);
      WorkerAfter(p, step, w);
    }
  }

  /** What the step means for the context of worker `w`, which was `x` and is `y`. */
  predicate ContextMoves<T>(p: Pool<T>, step: Step<T>, w: nat, x: Worker<T>, y: Worker<T>) {
    y.Running? ==>
      if step.Receive? && step.w == w then y.ctx == (if p.cancelled then Canceled else InTime)
      else x.Running? && y.ctx == (if step.Expire? && step.w == w then DeadlineExceeded
                                   else if step.CancelAll? && x.ctx.InTime? then Canceled else x.ctx)
  }

  lemma OneWorkerChanges<T>(p: Pool<T>, step: Step<T>)
    requires Enabled(p, step) && (IsWorkerStep(step) || step.Receive?)
    ensures |Apply(p, step).workers| == |p.workers|
    ensures Apply(p, step).workers == p.workers[step.w := Apply(p, step).workers[step.w]]
  {
    match step
    case Receive(_) =>
    case Return(_, _) =>
    case Expire(_) =>
    case CountDone(_) =>
    case CountTimeout(_) =>
    case Drained(_) =>
    case Exit(_) =>
  }

  lemma OwnContextMoves<T>(p: Pool<T>, step: Step<T>)
    requires Enabled(p, step) && (IsWorkerStep(step) || step.Receive?)
    ensures step.w < |Apply(p, step).workers|
    ensures ContextMoves(p, step, step.w, p.workers[step.w], Apply(p, step).workers[step.w])
  {
    match step
    case Receive(_) =>
    case Return(_, _) =>
    case Expire(_) =>
    case CountDone(_) =>
    case _ =>
  }

  lemma WorkerAfter<T>(p: Pool<T>, step: Step<T>, w: nat)
    requires Enabled(p, step) && w < |p.workers|
    ensures w < |Apply(p, step).workers| && ContextMoves(p, step, w, p.workers[w], Apply(p, step).workers[w])
  {
    if IsControlStep(step) || step.Send? || step.SendBlocking? {
      ControlKeepsWorkers(p, step);
    } else if IsWorkerStep(step) || step.Receive? {
      OneWorkerChanges(p, step);
      OwnContextMoves(p, step);
    }
  }

  lemma CancelledKept<T>(p: Pool<T>, step: Step<T>)
    requires Enabled(p, step)
    ensures Apply(p, step).cancelled <==> p.cancelled || step.CancelAll?
  {
  }

  lemma ContextsKept<T>(steps: Schedule<T>, p: Pool<T>, step: Step<T>)
    requires ContextsExplained(steps, p) && Enabled(p, step)
    ensures ContextsExplained(steps + [step], Apply(p, step))
  {
    Questions(steps, step);
    CancelledKept(p, step);
    forall w: nat | w < |Apply(p, step).workers| ensures ContextExplained(steps + [step], Apply(p, step).workers[w], w) {
      ContextKept(steps, p, step, w);
    }
  }

  lemma ControlKeepsCounters<T>(p: Pool<T>, step: Step<T>)
    requires Enabled(p, step) && (IsControlStep(step) || step.Send? || step.SendBlocking?)
    ensures var q := Apply(p, step); q.completed == p.completed && q.timedOut == p.timedOut && q.panicked == p.panicked
  {
  }

  /** The counters move only at a count and at a panic. */
  lemma CountersAfter<T>(p: Pool<T>, step: Step<T>)
    requires Enabled(p, step)
    ensures var q := Apply(p, step);
      var late := step.CountTimeout? || (step.CountDone? && p.workers[step.w].ctx.DeadlineExceeded?);
      && q.completed == p.completed + (if step.CountDone? && !late then 1 else 0)
      && q.timedOut == p.timedOut + (if late then 1 else 0)
      && q.panicked == p.panicked + (if step.Return? && step.panics then 1 else 0)
  {
    if IsControlStep(step) || step.Send? || step.SendBlocking? {
      ControlKeepsCounters(p, step);
    }
  }

  lemma CountsKept<T>(steps: Schedule<T>, p: Pool<T>, step: Step<T>)
    requires ContextsExplained(steps, p) && CountsExplained(steps, p) && Enabled(p, step)
    ensures CountsExplained(steps + [step], Apply(p, step))
  {
    Questions(steps, step);
    CountersAfter(p, step);
    if step.CountDone? {
      assert ContextExplained(steps, p.workers[step.w], step.w);
    }
  }

  lemma {:induction false} RunIsCounted<T>(size: nat, capacity: nat, steps: Schedule<T>)
    requires RunFrom(Init<T>(size, capacity), steps).Some?
    ensures ContextsExplained(steps, RunFrom(Init<T>(size, capacity), steps).value)
    ensures CountsExplained(steps, RunFrom(Init<T>(size, capacity), steps).value)
  {
    if steps != [] {
      var p := RunFrom(Init<T>(size, capacity), Front(steps)).value;
      RunIsCounted(size, capacity, Front(steps));
      ContextsKept(Front(steps), p, Last(steps));
      CountsKept(Front(steps), p, Last(steps));
      assert Front(steps) + [Last(steps)] == steps;
    }
  }

  /**
   * In every run: completed is the number of tasks that returned and were counted before their
   * deadline, timedOut the number of all others counted, panicked the number of panics.
   */
  lemma CountersTellOutcomes<T>(size: nat, capacity: nat, steps: Schedule<T>)
    requires RunFrom(Init<T>(size, capacity), steps).Some?
    ensures var p := RunFrom(Init<T>(size, capacity), steps).value;
      p.completed == InTimeCounts(steps) && p.timedOut == LateCounts(steps) && p.panicked == Panics(steps)
  {
    RunIsCounted(size, capacity, steps);
  }

  lemma OverMeansCanTimeOut<T>(steps: Schedule<T>, p: Pool<T>, w: nat)
    requires !p.crashed && w < |p.workers| && p.workers[w].Running? && ContextExplained(steps, p.workers[w], w)
    ensures Enabled(p, CountTimeout(w)) <==> Overdue(steps, w) || HasCancel(steps)
  {
  }

  /** A running task is given up on exactly when its deadline has passed or the pool was cancelled. */
  lemma GivenUpExactlyWhen<T>(size: nat, capacity: nat, steps: Schedule<T>, w: nat)
    requires RunFrom(Init<T>(size, capacity), steps).Some?
    requires var p := RunFrom(Init<T>(size, capacity), steps).value;
      !p.crashed && w < |p.workers| && p.workers[w].Running?
    ensures Enabled(RunFrom(Init<T>(size, capacity), steps).value, CountTimeout(w)) <==> Overdue(steps, w) || HasCancel(steps)
  {
    RunIsCounted(size, capacity, steps);
    OverMeansCanTimeOut(steps, RunFrom(Init<T>(size, capacity), steps).value, w);
  }
}
