/**
 * The worker pool as a transition system. Each load or store of a flag, each
 * channel operation and each counter update is one step; any number of workers,
 * submitters, starters and closers interleave. `accepted` and `runs` are history:
 * the tasks the channel took, and the tasks whose function was started, in order.
 */
module WorkerPools {
  import opened Wrappers

  /** The context one task runs under. */
  datatype TaskContext = InTime | DeadlineExceeded | Canceled

  datatype Worker<T> =
    | Idle
    | Running(info: T, returned: bool, ctx: TaskContext)
    | Draining(info: T, returned: bool)
    | Exited

  datatype Pool<T> = Pool(
    size: nat, capacity: nat,
    started: bool, closing: bool, closed: bool, cancelled: bool, crashed: bool,
    starters: nat, toSpawn: nat, workers: seq<Worker<T>>,
    entering: nat, sending: nat, blocked: nat, closers: nat,
    queue: seq<T>, completed: nat, timedOut: nat, panicked: nat,
    accepted: seq<T>, runs: seq<T>)

  datatype Step<T> =
    | StartCheck | StartStore | Spawn
    | SubmitEnter | SubmitCheckStarted(blocking: bool) | Send(info: T) | SendBlocking(info: T) | AbortBlocking
    | Receive(w: nat) | Return(w: nat, panics: bool) | Expire(w: nat)
    | CountDone(w: nat) | CountTimeout(w: nat) | Drained(w: nat) | Exit(w: nat)
    | BeginShutdown | Close | CancelAll | ShutdownReturns

  function Init<T(==)>(size: nat, capacity: nat): Pool<T> {
    Pool(size, capacity, false, false, false, false, false, 0, 0, [], 0, 0, 0, 0, [], 0, 0, 0, [], [])
  }

  predicate Enabled<T(==)>(p: Pool<T>, step: Step<T>) {
    && !p.crashed
    && match step
       case StartCheck => !p.started
       case StartStore => p.starters > 0
       case Spawn => p.toSpawn > 0
       case SubmitEnter => !p.closing
       case SubmitCheckStarted(_) => p.entering > 0
       case Send(_) => p.sending > 0
       case SendBlocking(_) => p.blocked > 0 && (p.closed || |p.queue| < p.capacity)
       case AbortBlocking => p.blocked > 0
       case Receive(w) => w < |p.workers| && p.workers[w].Idle? && p.queue != []
       case Return(w, _) => w < |p.workers| && (p.workers[w].Running? || p.workers[w].Draining?) && !p.workers[w].returned
       case Expire(w) => w < |p.workers| && p.workers[w].Running? && p.workers[w].ctx.InTime?
       case CountDone(w) => w < |p.workers| && p.workers[w].Running? && p.workers[w].returned
       case CountTimeout(w) => w < |p.workers| && p.workers[w].Running? && !p.workers[w].ctx.InTime?
       case Drained(w) => w < |p.workers| && p.workers[w].Draining? && p.workers[w].returned
       case Exit(w) => w < |p.workers| && p.workers[w].Idle? && p.closed && p.queue == []
       case BeginShutdown => p.started
       case Close => p.closers > 0
       case CancelAll => p.closing
       case ShutdownReturns => p.closed && AllExited(p.workers)
  }

  predicate AllExited<T(==)>(workers: seq<Worker<T>>) {
    forall w :: 0 <= w < |workers| ==> workers[w].Exited?
  }

  /** A send on the channel: a panic once it is closed, otherwise accepted if there is room. */
  function Offer<T(==)>(p: Pool<T>, info: T): Pool<T> {
    if p.closed then p.(crashed := true)
    else if |p.queue| < p.capacity then p.(queue := p.queue + [info], accepted := p.accepted + [info])
    else p
  }

  function CancelWorkers<T(==)>(workers: seq<Worker<T>>): (r: seq<Worker<T>>)
    ensures |r| == |workers|
    ensures forall w :: 0 <= w < |workers| ==>
      r[w] == if workers[w].Running? && workers[w].ctx.InTime? then workers[w].(ctx := Canceled) else workers[w]
  {
    seq(|workers|, w requires 0 <= w < |workers| =>
      if workers[w].Running? && workers[w].ctx.InTime? then workers[w].(ctx := Canceled) else workers[w])
  }

  function Apply<T(==)>(p: Pool<T>, step: Step<T>): Pool<T>
    requires Enabled(p, step)
  {
    match step
    case StartCheck => p.(starters := p.starters + 1)
    case StartStore => p.(started := true, starters := p.starters - 1, toSpawn := p.toSpawn + p.size)
    case Spawn => p.(toSpawn := p.toSpawn - 1, workers := p.workers + [Idle])
    case SubmitEnter => p.(entering := p.entering + 1)
    case SubmitCheckStarted(blocking) =>
      if !p.started then p.(entering := p.entering - 1)
      else if blocking then p.(entering := p.entering - 1, blocked := p.blocked + 1)
      else p.(entering := p.entering - 1, sending := p.sending + 1)
    case Send(info) => Offer(p.(sending := p.sending - 1), info)
    case SendBlocking(info) => Offer(p.(blocked := p.blocked - 1), info)
    case AbortBlocking => p.(blocked := p.blocked - 1)
    case Receive(w) =>
      p.(workers := p.workers[w := Running(p.queue[0], false, if p.cancelled then Canceled else InTime)],
         queue := p.queue[1..], runs := p.runs + [p.queue[0]])
    case Return(w, panics) =>
      p.(workers := p.workers[w := p.workers[w].(returned := true)],
         panicked := if panics then p.panicked + 1 else p.panicked)
    case Expire(w) => p.(workers := p.workers[w := p.workers[w].(ctx := DeadlineExceeded)])
    case CountDone(w) =>
      if p.workers[w].ctx.DeadlineExceeded?
      then p.(timedOut := p.timedOut + 1, workers := p.workers[w := Idle])
      else p.(completed := p.completed + 1, workers := p.workers[w := Idle])
    case CountTimeout(w) =>
      p.(timedOut := p.timedOut + 1, workers := p.workers[w := Draining(p.workers[w].info, p.workers[w].returned)])
    case Drained(w) => p.(workers := p.workers[w := Idle])
    case Exit(w) => p.(workers := p.workers[w := Exited])
    case BeginShutdown => p.(closing := true, closers := p.closers + 1)
    case Close => if p.closed then p.(crashed := true) else p.(closed := true, closers := p.closers - 1)
    case CancelAll => p.(cancelled := true, workers := CancelWorkers(p.workers))
    case ShutdownReturns => p
  }

  type Schedule<T> = seq<Step<T>>

  /** The state reached from `p`, or None when some step was not enabled. */
  function RunFrom<T(==)>(p: Pool<T>, steps: Schedule<T>): Option<Pool<T>>
    decreases |steps|
  {
    if steps == [] then Some(p)
    else
      var before := RunFrom(p, steps[..|steps| - 1]);
      var step := steps[|steps| - 1];
      if before.None? || !Enabled(before.value, step) then None else Some(Apply(before.value, step))
  }

  // ---------------------------------------------------------------- invariant

  /** Workers that hold a task they have not counted yet. */
  function Held<T(==)>(workers: seq<Worker<T>>): nat {
    if workers == [] then 0
    else Held(workers[..|workers| - 1]) + if workers[|workers| - 1].Running? then 1 else 0
  }

  lemma {:induction false} HeldAfterUpdate<T>(workers: seq<Worker<T>>, w: nat, x: Worker<T>)
    requires w < |workers|
    ensures Held(workers[w := x]) + (if workers[w].Running? then 1 else 0)
            == Held(workers) + (if x.Running? then 1 else 0)
  {
    var n := |workers| - 1;
    if w < n {
      HeldAfterUpdate(workers[..n], w, x);
      assert workers[w := x][..n] == workers[..n][w := x];
    } else {
      assert workers[w := x][..n] == workers[..n];
    }
  }

  lemma {:induction false} HeldAfterCancel<T>(workers: seq<Worker<T>>)
    ensures Held(CancelWorkers(workers)) == Held(workers)
  {
    if workers != [] {
      var n := |workers| - 1;
      HeldAfterCancel(workers[..n]);
      assert CancelWorkers(workers)[..n] == CancelWorkers(workers[..n]);
    }
  }

  lemma {:induction false} NoneHeld<T>(workers: seq<Worker<T>>)
    requires AllExited(workers)
    ensures Held(workers) == 0
  {
    if workers != [] {
      NoneHeld(workers[..|workers| - 1]);
    }
  }

  predicate Conserves<T(==)>(p: Pool<T>) {
    && p.accepted == p.runs + p.queue
    && |p.queue| <= p.capacity
    && |p.runs| == Held(p.workers) + p.completed + p.timedOut
  }

  predicate FlagsConsistent<T(==)>(p: Pool<T>) {
    && (p.closed ==> p.closing)
    && (p.closers > 0 ==> p.closing)
    && (p.closing ==> p.started)
    && (!p.started ==> p.toSpawn == 0 && p.workers == [] && p.sending == 0 && p.blocked == 0)
    && (p.workers == [] ==> p.runs == [])
    && (forall w :: 0 <= w < |p.workers| && p.workers[w].Exited? ==> p.closed && p.queue == [])
  }

  predicate Inv<T(==)>(p: Pool<T>) {
    Conserves(p) && FlagsConsistent(p)
  }

  predicate IsWorkerStep<T(==)>(step: Step<T>) {
    step.Return? || step.Expire? || step.CountDone? || step.CountTimeout? || step.Drained? || step.Exit?
  }

  lemma ReceiveConserves<T>(p: Pool<T>, w: nat)
    requires Conserves(p) && Enabled(p, Receive(w))
    ensures Conserves(Apply(p, Receive(w)))
  {
    HeldAfterUpdate(p.workers, w, Running(p.queue[0], false, if p.cancelled then Canceled else InTime));
    assert p.queue == [p.queue[0]] + p.queue[1..];
  }

  /** Worker `w` becomes `x`, and one task more is counted if it held an uncounted one. */
  lemma WorkerUpdateConserves<T>(p: Pool<T>, q: Pool<T>, w: nat, x: Worker<T>)
    requires Conserves(p) && w < |p.workers| && q.workers == p.workers[w := x]
    requires q.runs == p.runs && q.queue == p.queue && q.accepted == p.accepted && q.capacity == p.capacity
    requires q.completed + q.timedOut + (if x.Running? then 1 else 0)
             == p.completed + p.timedOut + (if p.workers[w].Running? then 1 else 0)
    ensures Conserves(q)
  {
    HeldAfterUpdate(p.workers, w, x);
  }

  lemma WorkerStepConserves<T>(p: Pool<T>, step: Step<T>)
    requires Conserves(p) && Enabled(p, step) && IsWorkerStep(step)
    ensures Conserves(Apply(p, step))
  {
    var q := Apply(p, step);
    WorkerUpdateConserves(p, q, step.w, q.workers[step.w]);
  }

  /** Steps that touch neither tasks nor workers. */
  predicate IsControlStep<T>(step: Step<T>) {
    || step.StartCheck? || step.StartStore? || step.SubmitEnter? || step.SubmitCheckStarted? || step.AbortBlocking?
    || step.BeginShutdown? || step.Close? || step.ShutdownReturns?
  }

  lemma ControlStepConserves<T>(p: Pool<T>, step: Step<T>)
    requires Conserves(p) && Enabled(p, step) && IsControlStep(step)
    ensures Conserves(Apply(p, step))
  {
    var q := Apply(p, step);
    assert q.workers == p.workers && q.runs == p.runs && q.queue == p.queue && q.accepted == p.accepted;
    assert q.completed == p.completed && q.timedOut == p.timedOut && q.capacity == p.capacity;
  }

  lemma OfferConserves<T>(p: Pool<T>, info: T)
    requires Conserves(p)
    ensures Conserves(Offer(p, info))
  {
    assert p.runs + (p.queue + [info]) == p.runs + p.queue + [info];
  }

  lemma SendConserves<T>(p: Pool<T>, step: Step<T>)
    requires Conserves(p) && Enabled(p, step) && (step.Send? || step.SendBlocking?)
    ensures Conserves(Apply(p, step))
  {
    if step.Send? {
      OfferConserves(p.(sending := p.sending - 1), step.info);
    } else {
      OfferConserves(p.(blocked := p.blocked - 1), step.info);
    }
  }

  lemma SpawnConserves<T>(p: Pool<T>)
    requires Conserves(p) && Enabled(p, Spawn)
    ensures Conserves(Apply(p, Spawn))
  {
    assert (p.workers + [Idle])[..|p.workers|] == p.workers;
  }

  lemma CancelConserves<T>(p: Pool<T>)
    requires Conserves(p) && Enabled(p, CancelAll)
    ensures Conserves(Apply(p, CancelAll))
  {
    HeldAfterCancel(p.workers);
  }

  lemma StepConserves<T>(p: Pool<T>, step: Step<T>)
    requires Conserves(p) && Enabled(p, step)
    ensures Conserves(Apply(p, step))
  {
    if step.Receive? {
      ReceiveConserves(p, step.w);
    } else if IsWorkerStep(step) {
      WorkerStepConserves(p, step);
    } else if step.Send? || step.SendBlocking? {
      SendConserves(p, step);
    } else if step.CancelAll? {
      CancelConserves(p);
    } else if step.Spawn? {
      SpawnConserves(p);
    } else {
      ControlStepConserves(p, step);
    }
  }

  lemma WorkerStepKeepsFlags<T>(p: Pool<T>, step: Step<T>)
    requires FlagsConsistent(p) && Enabled(p, step) && (IsWorkerStep(step) || step.Receive? || step.CancelAll?)
    ensures FlagsConsistent(Apply(p, step))
  {
  }

  lemma StepKeepsFlags<T>(p: Pool<T>, step: Step<T>)
    requires FlagsConsistent(p) && Enabled(p, step)
    ensures FlagsConsistent(Apply(p, step))
  {
    if IsWorkerStep(step) || step.Receive? || step.CancelAll? {
      WorkerStepKeepsFlags(p, step);
    }
  }

  /** Every step of every actor keeps the invariant. */
  lemma StepKeepsInv<T>(p: Pool<T>, step: Step<T>)
    requires Inv(p) && Enabled(p, step)
    ensures Inv(Apply(p, step))
  {
    StepConserves(p, step);
    StepKeepsFlags(p, step);
  }

  lemma {:induction false} RunKeepsInv<T>(p: Pool<T>, steps: Schedule<T>)
    requires Inv(p) && RunFrom(p, steps).Some?
    ensures Inv(RunFrom(p, steps).value)
    decreases |steps|
  {
    if steps != [] {
      var n := |steps| - 1;
      RunKeepsInv(p, steps[..n]);
      StepKeepsInv(RunFrom(p, steps[..n]).value, steps[n]);
    }
  }

  /** A run can be continued by any step enabled at its end. */
  lemma OneMore<T>(p: Pool<T>, steps: Schedule<T>, q: Pool<T>, step: Step<T>) returns (more: Schedule<T>, r: Pool<T>)
    requires RunFrom(p, steps) == Some(q) && Enabled(q, step)
    ensures more == steps + [step] && r == Apply(q, step) && RunFrom(p, more) == Some(r)
  {
    more, r := steps + [step], Apply(q, step);
    assert more[..|steps|] == steps;
  }

  // ---------------------------------------------------------------- theorems

  /**
   * Conservation over every run: each accepted task is queued, held by a worker that
   * has not counted it, or counted once as completed or timed out; tasks are started
   * in the order they were accepted, each exactly once; the queue fits its capacity.
   */
  lemma EveryTaskIsAccountedFor<T>(size: nat, capacity: nat, steps: Schedule<T>)
    requires RunFrom(Init<T>(size, capacity), steps).Some?
    ensures var p := RunFrom(Init<T>(size, capacity), steps).value;
      && |p.accepted| == |p.queue| + Held(p.workers) + p.completed + p.timedOut
      && p.accepted == p.runs + p.queue
      && |p.queue| <= p.capacity
  {
    RunKeepsInv(Init<T>(size, capacity), steps);
  }

  predicate HasSpawn<T>(steps: Schedule<T>) {
    exists k :: 0 <= k < |steps| && steps[k].Spawn?
  }

  lemma ControlKeepsWorkers<T>(p: Pool<T>, step: Step<T>)
    requires Enabled(p, step) && (IsControlStep(step) || step.Send? || step.SendBlocking?)
    ensures Apply(p, step).workers == p.workers
  {
  }

  lemma StepKeepsNumbers<T>(p: Pool<T>, step: Step<T>)
    requires Enabled(p, step)
    ensures |Apply(p, step).workers| == |p.workers| + if step.Spawn? then 1 else 0
  {
    if IsControlStep(step) || step.Send? || step.SendBlocking? {
      ControlKeepsWorkers(p, step);
    }
  }

  lemma {:induction false} StaffIffSpawned<T>(p: Pool<T>, steps: Schedule<T>)
    requires p.workers == [] && RunFrom(p, steps).Some?
    ensures RunFrom(p, steps).value.workers != [] <==> HasSpawn(steps)
    decreases |steps|
  {
    if steps != [] {
      var n := |steps| - 1;
      StaffIffSpawned(p, steps[..n]);
      StepKeepsNumbers(RunFrom(p, steps[..n]).value, steps[n]);
      assert steps == steps[..n] + [steps[n]];
    }
  }

  predicate IsDrained<T(==)>(p: Pool<T>) {
    p.queue == [] && p.completed + p.timedOut == |p.accepted|
  }

  /**
   * When the wait of ShutdownGraceful ends, the queue is empty and every accepted
   * task is counted, exactly when some worker had been spawned or nothing was accepted.
   */
  lemma GracefulShutdownDrains<T>(size: nat, capacity: nat, steps: Schedule<T>)
    requires RunFrom(Init<T>(size, capacity), steps).Some?
    requires Enabled(RunFrom(Init<T>(size, capacity), steps).value, ShutdownReturns)
    ensures var p := RunFrom(Init<T>(size, capacity), steps).value;
      IsDrained(p) <==> HasSpawn(steps) || p.accepted == []
  {
    RunKeepsInv(Init<T>(size, capacity), steps);
    StaffIffSpawned(Init<T>(size, capacity), steps);
    var p := RunFrom(Init<T>(size, capacity), steps).value;
    NoneHeld(p.workers);
    if p.workers != [] {
      assert p.workers[0].Exited?;
    }
  }

  lemma StepKeepsDrained<T>(p: Pool<T>, step: Step<T>)
    requires Conserves(p) && p.closed && IsDrained(p) && Enabled(p, step)
    ensures var q := Apply(p, step);
      q.closed && IsDrained(q) && q.accepted == p.accepted && q.completed == p.completed && q.timedOut == p.timedOut
  {
    assert Held(p.workers) == 0;
    if step.CountDone? || step.CountTimeout? {
      HeldAfterUpdate(p.workers, step.w, Idle);
      assert false;
    }
  }

  /** Once the closed pool is drained it stays so, and no counter moves again. */
  lemma {:induction false} DrainedForGood<T>(p: Pool<T>, steps: Schedule<T>)
    requires Inv(p) && p.closed && IsDrained(p) && RunFrom(p, steps).Some?
    ensures var q := RunFrom(p, steps).value;
      q.closed && IsDrained(q) && q.accepted == p.accepted && q.completed == p.completed && q.timedOut == p.timedOut
    decreases |steps|
  {
    if steps != [] {
      var n := |steps| - 1;
      DrainedForGood(p, steps[..n]);
      RunKeepsInv(p, steps[..n]);
      StepKeepsDrained(RunFrom(p, steps[..n]).value, steps[n]);
    }
  }

  /** Calls that are past a check that closing would have failed. */
  function InFlight<T(==)>(p: Pool<T>): nat {
    p.entering + p.sending + p.blocked + p.closers
  }

  lemma StepKeepsQuiet<T>(p: Pool<T>, step: Step<T>)
    requires FlagsConsistent(p) && p.closed && InFlight(p) == 0 && !p.crashed
    requires Enabled(p, step) && !step.BeginShutdown?
    ensures var q := Apply(p, step); q.closed && InFlight(q) == 0 && !q.crashed
  {
  }

  /** A pool closed with no Submit or second close under way never panics, whatever follows. */
  lemma {:induction false} QuietCloseNeverPanics<T>(p: Pool<T>, steps: Schedule<T>)
    requires Inv(p) && p.closed && !p.crashed && InFlight(p) == 0
    requires RunFrom(p, steps).Some? && BeginShutdown !in steps
    ensures !RunFrom(p, steps).value.crashed
    ensures RunFrom(p, steps).value.closed && InFlight(RunFrom(p, steps).value) == 0
    decreases |steps|
  {
    if steps != [] {
      var n := |steps| - 1;
      QuietCloseNeverPanics(p, steps[..n]);
      RunKeepsInv(p, steps[..n]);
      StepKeepsQuiet(RunFrom(p, steps[..n]).value, steps[n]);
    }
  }

  /** A call that is past its last check meets the closed channel. */
  lemma NextStepPanics<T>(p: Pool<T>, info: T) returns (step: Step<T>)
    requires p.closed && !p.crashed && p.sending + p.blocked + p.closers > 0
    ensures !step.BeginShutdown? && Enabled(p, step) && Apply(p, step).crashed
  {
    step := if p.closers > 0 then Close else if p.sending > 0 then Send(info) else SendBlocking(info);
  }

  /** And that is the exact condition: any call still in flight at the close can make the pool panic. */
  lemma StraddlingCallCanPanic<T>(p: Pool<T>, info: T) returns (steps: Schedule<T>)
    requires Inv(p) && p.closed && !p.crashed && InFlight(p) > 0
    ensures forall k :: 0 <= k < |steps| ==> !steps[k].BeginShutdown?
    ensures RunFrom(p, steps).Some? && RunFrom(p, steps).value.crashed
  {
    var q := p;
    steps := [];
    if p.sending + p.blocked + p.closers == 0 {
      steps, q := OneMore(p, steps, q, SubmitCheckStarted(false));
    }
    var step := NextStepPanics(q, info);
    steps, q := OneMore(p, steps, q, step);
  }

  /**
   * A shutdown that overtakes Start's spawning loop waits for nobody: the task accepted in
   * between is left in the queue although the wait has ended.
   */
  lemma ShutdownCanOvertakeStart<T>(size: nat, capacity: nat, info: T) returns (steps: Schedule<T>)
    requires size > 0 && capacity > 0
    ensures var p := RunFrom(Init<T>(size, capacity), steps);
      p.Some? && Enabled(p.value, ShutdownReturns) && p.value.queue == [info] && !IsDrained(p.value)
  {
    var p := Init<T>(size, capacity);
    var q;
    steps, q := BeginStart(p);
    assert q == p.(started := true, toSpawn := size);
    steps, q := SubmitTask(p, steps, q, info);
    assert q == p.(started := true, toSpawn := size, queue := [info], accepted := [info]);
    steps, q := OneMore(p, steps, q, BeginShutdown);
    steps, q := OneMore(p, steps, q, Close);
  }

  /** Start up to the flag, before its first worker. */
  lemma BeginStart<T>(p: Pool<T>) returns (steps: Schedule<T>, q: Pool<T>)
    requires !p.crashed && !p.started && p.starters == 0 && p.toSpawn == 0
    ensures RunFrom(p, steps) == Some(q) && q == p.(started := true, toSpawn := p.size)
  {
    steps, q := OneMore(p, [], p, StartCheck);
    steps, q := OneMore(p, steps, q, StartStore);
  }

  lemma SubmitTask<T>(p: Pool<T>, before: Schedule<T>, b: Pool<T>, info: T) returns (steps: Schedule<T>, q: Pool<T>)
    requires RunFrom(p, before) == Some(b)
    requires !b.crashed && !b.closing && !b.closed && b.started && |b.queue| < b.capacity
    ensures steps == before + [SubmitEnter, SubmitCheckStarted(false), Send(info)]
    ensures RunFrom(p, steps) == Some(q) && q == b.(queue := b.queue + [info], accepted := b.accepted + [info])
  {
    steps, q := OneMore(p, before, b, SubmitEnter);
    steps, q := OneMore(p, steps, q, SubmitCheckStarted(false));
    steps, q := OneMore(p, steps, q, Send(info));
  }

  /** Every call of Start that has set the flag spawns its `size` workers. */
  predicate Staffed<T>(p: Pool<T>) {
    p.started ==> |p.workers| + p.toSpawn >= p.size
  }

  lemma StepKeepsStaff<T>(p: Pool<T>, step: Step<T>)
    requires Staffed(p) && Enabled(p, step)
    ensures Staffed(Apply(p, step)) && Apply(p, step).size == p.size
  {
  }

  lemma {:induction false} RunKeepsStaff<T>(p: Pool<T>, steps: Schedule<T>)
    requires Staffed(p) && RunFrom(p, steps).Some?
    ensures Staffed(RunFrom(p, steps).value) && RunFrom(p, steps).value.size == p.size
    decreases |steps|
  {
    if steps != [] {
      RunKeepsStaff(p, steps[..|steps| - 1]);
      StepKeepsStaff(RunFrom(p, steps[..|steps| - 1]).value, steps[|steps| - 1]);
    }
  }

  /** Once Start has returned, a pool of at least one worker is always drained by its shutdown. */
  lemma StartedPoolDrains<T>(size: nat, capacity: nat, steps: Schedule<T>)
    requires size > 0 && RunFrom(Init<T>(size, capacity), steps).Some?
    requires Enabled(RunFrom(Init<T>(size, capacity), steps).value, ShutdownReturns)
    requires RunFrom(Init<T>(size, capacity), steps).value.toSpawn == 0
    ensures IsDrained(RunFrom(Init<T>(size, capacity), steps).value)
  {
    RunKeepsInv(Init<T>(size, capacity), steps);
    RunKeepsStaff(Init<T>(size, capacity), steps);
    StaffIffSpawned(Init<T>(size, capacity), steps);
    GracefulShutdownDrains(size, capacity, steps);
  }

  // ---------------------------------------------------------------- the pool object

  datatype SubmitResult = Accepted | ShuttingDown | NotStarted | QueueFull

  /**
   * The pool's own fields. A method is either one atomic step, equal to `Apply`, or
   * (Start, Submit) a call that runs without interference, specified outright.
   */
  class WorkerPool<T(==)> {
    const size: nat
    const capacity: nat
    var started: bool
    var closing: bool
    var closed: bool
    var cancelled: bool
    var workers: seq<Worker<T>>
    var queue: seq<T>
    var completed: nat
    var timedOut: nat
    var panicked: nat
    ghost var accepted: seq<T>
    ghost var runs: seq<T>

    /** The pool between calls: no goroutine is half way through one. */
    ghost function View(): Pool<T>
      reads this
    {
      Pool(size, capacity, started, closing, closed, cancelled, false, 0, 0, workers, 0, 0, 0, 0,
           queue, completed, timedOut, panicked, accepted, runs)
    }

    /** Conservation and consistent flags: what every method keeps. */
    ghost predicate Valid()
      reads this
    {
      Inv(View())
    }

    constructor (size: nat, capacity: nat)
      ensures Valid() && View() == Init(size, capacity)
    {
      this.size, this.capacity := size, capacity;
      started, closing, closed, cancelled := false, false, false, false;
      workers, queue := [], [];
      completed, timedOut, panicked := 0, 0, 0;
      accepted, runs := [], [];
    }

    /** Refused if already started; otherwise launches exactly `size` idle workers. */
    method Start() returns (ok: bool)
      requires Valid()
      modifies this
      ensures Valid()
      ensures ok == !old(started) && started
      ensures View() == old(View()).(started := true,
        workers := if ok then old(workers) + IdleWorkers(size) else old(workers))
    {
      if started { return false; }
      started, ok := true, true;
      for k := 0 to size
        invariant View() == old(View()).(started := true, workers := old(workers) + IdleWorkers(k))
      {
        workers := workers + [Idle];
      }
      IdleWorkersKeepInv(old(View()), size);
    }

    /** The answer says which test stopped the task, and only an accepted task changes the pool. */
    method Submit(info: T) returns (r: SubmitResult)
      requires Valid()
      modifies this
      ensures Valid()
      ensures r == ShuttingDown <==> old(closing)
      ensures r == NotStarted <==> !old(closing) && !old(started)
      ensures r == QueueFull <==> !old(closing) && old(started) && |old(queue)| >= capacity
      ensures View() == if r == Accepted
        then old(View()).(queue := old(queue) + [info], accepted := old(accepted) + [info])
        else old(View())
      ensures r == Accepted ==> RunFrom(old(View()), [SubmitEnter, SubmitCheckStarted(false), Send(info)]) == Some(View())
    {
      if closing { return ShuttingDown; }
      if !started { return NotStarted; }
      if |queue| >= capacity { return QueueFull; }
      queue, accepted := queue + [info], accepted + [info];
      r := Accepted;
      SubmitIsThreeSteps(old(View()), info);
      RunKeepsInv(old(View()), [SubmitEnter, SubmitCheckStarted(false), Send(info)]);
    }

    method TakeTask(w: nat)
      requires Valid() && Enabled(View(), Receive(w))
      modifies this
      ensures Valid() && View() == Apply(old(View()), Receive(w))
    {
      StepKeepsInv(View(), Receive(w));
      var info := queue[0];
      workers := workers[w := Running(info, false, if cancelled then Canceled else InTime)];
      queue, runs := queue[1..], runs + [info];
    }

    method CountFinished(w: nat)
      requires Valid() && Enabled(View(), CountDone(w))
      modifies this
      ensures Valid() && View() == Apply(old(View()), CountDone(w))
    {
      StepKeepsInv(View(), CountDone(w));
      if workers[w].ctx == DeadlineExceeded { timedOut := timedOut + 1; } else { completed := completed + 1; }
      workers := workers[w := Idle];
    }

    method CountOverdue(w: nat)
      requires Valid() && Enabled(View(), CountTimeout(w))
      modifies this
      ensures Valid() && View() == Apply(old(View()), CountTimeout(w))
    {
      StepKeepsInv(View(), CountTimeout(w));
      timedOut := timedOut + 1;
      workers := workers[w := Draining(workers[w].info, workers[w].returned)];
    }

    /** The task's function returns or panics; the worker's select then has a closed `done`. */
    method FinishFunction(w: nat, panics: bool)
      requires Valid() && Enabled(View(), Return(w, panics))
      modifies this
      ensures Valid() && View() == Apply(old(View()), Return(w, panics))
    {
      StepKeepsInv(View(), Return(w, panics));
      if panics { panicked := panicked + 1; }
      workers := workers[w := workers[w].(returned := true)];
    }

    method FinishDraining(w: nat)
      requires Valid() && Enabled(View(), Drained(w))
      modifies this
      ensures Valid() && View() == Apply(old(View()), Drained(w))
    {
      StepKeepsInv(View(), Drained(w));
      workers := workers[w := Idle];
    }

    method LeaveLoop(w: nat)
      requires Valid() && Enabled(View(), Exit(w))
      modifies this
      ensures Valid() && View() == Apply(old(View()), Exit(w))
    {
      StepKeepsInv(View(), Exit(w));
      workers := workers[w := Exited];
    }

    /** The opening of a shutdown: nothing before Start, otherwise no later Submit is accepted. */
    method StopAccepting() returns (began: bool)
      requires Valid() && !closed
      modifies this
      ensures Valid()
      ensures began == old(started)
      ensures !began ==> View() == old(View())
      ensures began ==> RunFrom(old(View()), [BeginShutdown, Close]) == Some(View()) && closing && closed
    {
      if !started { return false; }
      closing := true;
      closed := true;
      CloseIsTwoSteps(old(View()));
      RunKeepsInv(old(View()), [BeginShutdown, Close]);
      return true;
    }

    method CancelContext()
      requires Valid() && closing
      modifies this
      ensures Valid() && View() == Apply(old(View()), CancelAll)
    {
      StepKeepsInv(View(), CancelAll);
      cancelled, workers := true, CancelWorkers(workers);
    }
  }

  function IdleWorkers<T>(n: nat): (r: seq<Worker<T>>)
    ensures |r| == n && forall k :: 0 <= k < n ==> r[k].Idle?
  {
    if n == 0 then [] else IdleWorkers(n - 1) + [Idle]
  }

  lemma {:induction false} IdleWorkersHoldNothing<T>(workers: seq<Worker<T>>, n: nat)
    ensures Held(workers + IdleWorkers(n)) == Held(workers)
  {
    if n == 0 {
      assert workers + IdleWorkers(0) == workers;
    } else {
      var all := workers + IdleWorkers(n);
      assert all[..|all| - 1] == workers + IdleWorkers(n - 1);
      IdleWorkersHoldNothing(workers, n - 1);
    }
  }

  lemma IdleWorkersKeepInv<T>(p: Pool<T>, n: nat)
    requires Inv(p) && !p.started
    ensures Inv(p.(started := true, workers := p.workers + IdleWorkers(n)))
  {
    IdleWorkersHoldNothing(p.workers, n);
  }

  /** The constructor function: no pool without workers or without a queue. */
  method NewWorkerPool<T(==)>(workers: int, queueSize: int) returns (r: Option<WorkerPool<T>>)
    ensures r.None? <==> workers <= 0 || queueSize <= 0
    ensures r.Some? ==> fresh(r.value) && r.value.Valid() && r.value.View() == Init(workers, queueSize)
  {
    if workers <= 0 || queueSize <= 0 { return None; }
    var pool := new WorkerPool<T>(workers, queueSize);
    return Some(pool);
  }

  lemma CloseIsTwoSteps<T>(p: Pool<T>)
    requires !p.crashed && p.started && !p.closed && p.closers == 0
    ensures RunFrom(p, [BeginShutdown, Close]) == Some(p.(closing := true, closed := true))
  {
    var steps, q := OneMore(p, [], p, BeginShutdown);
    steps, q := OneMore(p, steps, q, Close);
    assert steps == [BeginShutdown, Close];
  }

  lemma SubmitIsThreeSteps<T>(p: Pool<T>, info: T)
    requires !p.crashed && !p.closing && !p.closed && p.started && |p.queue| < p.capacity
    ensures RunFrom(p, [SubmitEnter, SubmitCheckStarted(false), Send(info)])
            == Some(p.(queue := p.queue + [info], accepted := p.accepted + [info]))
  {
    var steps, q := SubmitTask(p, [], p, info);
    assert steps == [SubmitEnter, SubmitCheckStarted(false), Send(info)];
  }
}
