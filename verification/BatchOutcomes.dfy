/**
 * How a batch ends. The questions are asked of the schedule alone (did a
 * cancellation land after the opening update? did a completion check follow the
 * last count?) and the answers decide the final row, in both directions.
 */
module BatchOutcomes {
  import opened Wrappers
  import opened Batches
  import opened Sets

  // ---------------------------------------------------------------- reading a schedule

  function Last(steps: Schedule): Step
    requires steps != []
  {
    steps[|steps| - 1]
  }

  function Front(steps: Schedule): Schedule
    requires steps != []
  {
    steps[..|steps| - 1]
  }

  predicate HasOpen(steps: Schedule) {
    OpenBatch in steps
  }

  predicate HasInsert(steps: Schedule) {
    InsertItem in steps
  }

  predicate HasLoad(steps: Schedule) {
    exists k :: 0 <= k < |steps| && steps[k].LoadItems?
  }

  /** Some cancellation changed the batch row after the opening update. */
  predicate LateCancel(steps: Schedule) {
    steps != [] && (LateCancel(Front(steps)) || (Last(steps) == CancelHit && HasOpen(Front(steps))))
  }

  /** Some cancellation changed the batch row before the opening update. */
  predicate EarlyCancel(steps: Schedule) {
    steps != [] && (EarlyCancel(Front(steps)) || (Last(steps) == CancelHit && !HasOpen(Front(steps))))
  }

  /** Pending rows were cancelled after the first row existed and before the rows were loaded. */
  predicate CutBeforeLoad(steps: Schedule) {
    steps != [] && (CutBeforeLoad(Front(steps))
                    || (Last(steps) == CancelItems && HasInsert(Front(steps)) && !HasLoad(Front(steps))))
  }

  predicate IsCount(step: Step) {
    step.CountItem? || step.RefuseCount?
  }

  /** A completion check ran after the last counter update. */
  predicate CheckedSinceCount(steps: Schedule) {
    steps != [] && (Last(steps).CheckBatch? || (CheckedSinceCount(Front(steps)) && !IsCount(Last(steps))))
  }

  /** The submitter has dealt with every loaded item and no task is under way. */
  predicate Quiescent(s: State) {
    && s.submitter.Submitting?
    && s.submitter.next == |s.submitter.loaded|
    && (forall i :: 0 <= i < |s.tasks| ==> s.tasks[i].NoTask? || s.tasks[i].Finished?)
  }

  predicate HasCounted(tasks: seq<Task>) {
    exists i :: 0 <= i < |tasks| && tasks[i].Counted?
  }

  // ---------------------------------------------------------------- counting loaded items

  function SettledIndices(items: seq<ItemStatus>): set<nat> {
    set i: nat | i < |items| && Settled(items[i])
  }

  lemma {:induction false} SettledCount(items: seq<ItemStatus>)
    ensures |SettledIndices(items)| == multiset(items)[ItemCompleted] + multiset(items)[ItemFailed]
  {
    if items != [] {
      var n := |items| - 1;
      var front := items[..n];
      SettledCount(front);
      assert items == front + [items[n]];
      if Settled(items[n]) {
        assert SettledIndices(items) == SettledIndices(front) + {n};
      } else {
        assert SettledIndices(items) == SettledIndices(front);
      }
    }
  }

  function Members(ids: seq<nat>): set<nat> {
    set i | i in ids
  }

  lemma {:induction false} DistinctCount(ids: seq<nat>)
    requires Distinct(ids)
    ensures |Members(ids)| == |ids|
  {
    if ids != [] {
      var n := |ids| - 1;
      assert ids == ids[..n] + [ids[n]];
      DistinctCount(ids[..n]);
      assert ids[n] !in ids[..n];
      assert Members(ids) == Members(ids[..n]) + {ids[n]};
    }
  }

  function Below(n: nat): (r: set<nat>)
    ensures forall i: nat :: i in r <==> i < n
  {
    if n == 0 then {} else Below(n - 1) + {n - 1}
  }

  lemma {:induction false} BelowCount(n: nat)
    ensures |Below(n)| == n
  {
    if n > 0 {
      BelowCount(n - 1);
    }
  }

  /** The load misses a row exactly when some row was no longer pending. */
  lemma LoadIsFull(ids: seq<nat>, items: seq<ItemStatus>)
    requires SelectsPending(ids, items)
    ensures |ids| <= |items|
    ensures |ids| == |items| <==> forall i :: 0 <= i < |items| ==> items[i].ItemPending?
  {
    DistinctCount(ids);
    BelowCount(|items|);
    SubsetCount(Members(ids), Below(|items|));
    if forall i :: 0 <= i < |items| ==> items[i].ItemPending? {
      assert Members(ids) == Below(|items|);
    }
    if |ids| == |items| {
      forall i | 0 <= i < |items| ensures items[i].ItemPending? {
        assert i in Below(|items|);
        assert i in ids;
      }
    }
  }

  /** When nothing is under way the counters add up to the number of loaded items. */
  lemma QuiescentCounts(s: State)
    requires Inv(s) && Quiescent(s)
    ensures s.completed + s.failed == |s.submitter.loaded|
    ensures |s.submitter.loaded| <= s.total
  {
    var ids := s.submitter.loaded;
    assert Marked(true) !in s.tasks && Marked(false) !in s.tasks;
    SettledCount(s.items);
    DistinctCount(ids);
    forall i: nat ensures i in SettledIndices(s.items) <==> i in ids {
      if i in ids {
        var k :| 0 <= k < |ids| && ids[k] == i;
        assert k < Handled(s);
      }
    }
    assert SettledIndices(s.items) == Members(ids);
    BelowCount(|s.items|);
    SubsetCount(Members(ids), Below(|s.items|));
  }

  // ---------------------------------------------------------------- schedules against states

  ghost predicate StatusExplains(steps: Schedule, s: State) {
    && (HasOpen(steps) <==> Opened(s))
    && (LateCancel(steps) <==> Opened(s) && s.status.BatchCancelled?)
    && (s.status.BatchCompleted? <==>
          Opened(s) && !LateCancel(steps) && s.completed + s.failed == s.total && CheckedSinceCount(steps))
  }

  ghost predicate LoadExplains(steps: Schedule, s: State) {
    && (HasLoad(steps) <==> Loaded(s))
    && (HasInsert(steps) <==> |s.items| > 0)
    && (Loaded(s) ==> |s.submitter.loaded| <= s.total)
    && (CutBeforeLoad(steps) <==>
          if Loaded(s) then |s.submitter.loaded| < s.total
          else exists i :: 0 <= i < |s.items| && s.items[i].ItemCancelled?)
  }

  /** What the questions about a schedule say about the state it leads to. */
  ghost predicate Explains(steps: Schedule, s: State) {
    Inv(s) && StatusExplains(steps, s) && LoadExplains(steps, s)
  }

  lemma ScheduleQuestions(steps: Schedule, step: Step)
    ensures var all := steps + [step];
      && Front(all) == steps && Last(all) == step
      && (HasOpen(all) <==> HasOpen(steps) || step.OpenBatch?)
      && (HasInsert(all) <==> HasInsert(steps) || step.InsertItem?)
      && (HasLoad(all) <==> HasLoad(steps) || step.LoadItems?)
      && (LateCancel(all) <==> LateCancel(steps) || (step.CancelHit? && HasOpen(steps)))
      && (EarlyCancel(all) <==> EarlyCancel(steps) || (step.CancelHit? && !HasOpen(steps)))
      && (CutBeforeLoad(all) <==> CutBeforeLoad(steps) || (step.CancelItems? && HasInsert(steps) && !HasLoad(steps)))
      && (CheckedSinceCount(all) <==> step.CheckBatch? || (CheckedSinceCount(steps) && !IsCount(step)))
  {
    var all := steps + [step];
    assert Front(all) == steps && Last(all) == step;
    assert all[|steps|] == step;
    assert forall k :: 0 <= k < |steps| ==> all[k] == steps[k];
  }

  /** Only the status, the counters and the submitter's position matter to the status questions. */
  lemma StatusExplained(steps: Schedule, s: State, step: Step)
    requires StatusExplains(steps, s) && Enabled(s, step)
    requires s.completed + s.failed <= s.total
    requires IsCount(step) ==> s.completed + s.failed < s.total
    requires step.CheckBatch? ==> Opened(s) && !s.status.BatchPending?
    requires IsCount(step) ==> Opened(s)
    requires step.OpenBatch? ==> s.completed + s.failed < s.total
    requires Loaded(s) ==> Opened(s)
    ensures StatusExplains(steps + [step], Apply(s, step))
  {
    ScheduleQuestions(steps, step);
  }

  lemma StatusPremises(s: State, step: Step)
    requires Inv(s) && Enabled(s, step)
    ensures s.completed + s.failed <= s.total
    ensures IsCount(step) || step.OpenBatch? ==> s.completed + s.failed < s.total
    ensures step.CheckBatch? ==> Opened(s) && !s.status.BatchPending?
    ensures IsCount(step) ==> Opened(s)
  {
    CountersBounded(s);
    if step.CountItem? {
      assert s.tasks[step.item] in multiset(s.tasks);
    }
  }

  lemma LoadStepExplained(steps: Schedule, s: State, ids: seq<nat>)
    requires Inv(s) && LoadExplains(steps, s) && Enabled(s, LoadItems(ids))
    ensures LoadExplains(steps + [LoadItems(ids)], Apply(s, LoadItems(ids)))
  {
    ScheduleQuestions(steps, LoadItems(ids));
    LoadIsFull(ids, s.items);
  }

  lemma InsertExplained(steps: Schedule, s: State)
    requires Inv(s) && LoadExplains(steps, s) && Enabled(s, InsertItem)
    ensures LoadExplains(steps + [InsertItem], Apply(s, InsertItem))
  {
    ScheduleQuestions(steps, InsertItem);
    var t := Apply(s, InsertItem);
    if exists i :: 0 <= i < |s.items| && s.items[i].ItemCancelled? {
      var i :| 0 <= i < |s.items| && s.items[i].ItemCancelled?;
      assert t.items[i].ItemCancelled?;
    }
  }

  lemma CancelExplained(steps: Schedule, s: State)
    requires Inv(s) && LoadExplains(steps, s) && Enabled(s, CancelItems)
    ensures LoadExplains(steps + [CancelItems], Apply(s, CancelItems))
  {
    ScheduleQuestions(steps, CancelItems);
    var t := Apply(s, CancelItems);
    if |s.items| > 0 && !Loaded(s) {
      assert !Settled(s.items[0]);
      assert t.items[0].ItemCancelled?;
    }
  }

  /** Every other step leaves the rows alone until they are loaded, and the load alone afterwards. */
  lemma OtherStepExplained(steps: Schedule, s: State, step: Step)
    requires Inv(s) && LoadExplains(steps, s) && Enabled(s, step)
    requires !step.InsertItem? && !step.LoadItems? && !step.CancelItems?
    ensures LoadExplains(steps + [step], Apply(s, step))
  {
    ScheduleQuestions(steps, step);
    var t := Apply(s, step);
    assert Loaded(t) <==> Loaded(s);
    assert |t.items| == |s.items| && t.total == s.total;
    assert !Loaded(s) ==> t.items == s.items;
    assert Loaded(s) ==> t.submitter.loaded == s.submitter.loaded;
  }

  lemma LoadExplained(steps: Schedule, s: State, step: Step)
    requires Inv(s) && LoadExplains(steps, s) && Enabled(s, step)
    ensures LoadExplains(steps + [step], Apply(s, step))
  {
    match step
    case LoadItems(ids) => LoadStepExplained(steps, s, ids);
    case InsertItem => InsertExplained(steps, s);
    case CancelItems => CancelExplained(steps, s);
    case _ => OtherStepExplained(steps, s, step);
  }

  lemma StepIsExplained(steps: Schedule, s: State, step: Step)
    requires Explains(steps, s) && Enabled(s, step)
    ensures Explains(steps + [step], Apply(s, step))
  {
    StepKeepsInv(s, step);
    StatusPremises(s, step);
    StatusExplained(steps, s, step);
    LoadExplained(steps, s, step);
  }

  lemma StartIsExplained(total: nat)
    requires total > 0
    ensures Explains([], Init(total))
  {
  }

  lemma LastStepIsExplained(total: nat, steps: Schedule)
    requires steps != [] && Run(total, steps).Some?
    requires Run(total, Front(steps)).Some? ==> Explains(Front(steps), Run(total, Front(steps)).value)
    ensures Explains(steps, Run(total, steps).value)
  {
    StepIsExplained(Front(steps), Run(total, Front(steps)).value, Last(steps));
    assert Front(steps) + [Last(steps)] == steps;
  }

  lemma {:induction false} RunIsExplained(total: nat, steps: Schedule)
    requires total > 0 && Run(total, steps).Some?
    ensures Explains(steps, Run(total, steps).value) && Run(total, steps).value.total == total
  {
    RunKeepsInv(total, steps);
    if steps == [] {
      StartIsExplained(total);
    } else {
      RunIsExplained(total, Front(steps));
      LastStepIsExplained(total, steps);
    }
  }

  // ---------------------------------------------------------------- theorems

  /**
   * In every interleaving, rejections and cancellations included: the counters
   * trail the marked items by exactly the actors between their two updates, never
   * pass the total, and a completed batch has counted every request.
   */
  lemma CountersInEveryRun(total: nat, steps: Schedule)
    requires total > 0 && Run(total, steps).Some?
    ensures var s := Run(total, steps).value;
      && multiset(s.items)[ItemCompleted] - s.completed == multiset(s.tasks)[Marked(true)]
      && multiset(s.items)[ItemFailed] - s.failed
         == multiset(s.tasks)[Marked(false)] + (if s.submitter.RefusedMarked? then 1 else 0)
      && s.completed + s.failed <= total
      && (s.status.BatchCompleted? ==> s.completed + s.failed == total)
  {
    RunKeepsInv(total, steps);
    CountersBounded(Run(total, steps).value);
  }

  lemma StepKeepsFinalStatus(s: State, step: Step)
    requires Enabled(s, step) && Opened(s) && !Live(s.status)
    ensures Opened(Apply(s, step)) && Apply(s, step).status == s.status
  {
  }

  /** After the opening update, completed and cancelled are never left, whatever follows. */
  lemma {:induction false} FinalStatusIsStable(total: nat, steps: Schedule, more: Schedule)
    requires total > 0 && Run(total, steps + more).Some?
    ensures Run(total, steps).Some?
    ensures var s, t := Run(total, steps).value, Run(total, steps + more).value;
      Opened(s) && !Live(s.status) ==> Opened(t) && t.status == s.status
    decreases |more|
  {
    if more == [] {
      assert steps + more == steps;
    } else {
      var n := |more| - 1;
      assert (steps + more)[..|steps + more| - 1] == steps + more[..n];
      assert (steps + more)[|steps + more| - 1] == more[n];
      FinalStatusIsStable(total, steps, more[..n]);
      var s := Run(total, steps + more[..n]).value;
      if Opened(s) && !Live(s.status) {
        StepKeepsFinalStatus(s, more[n]);
      }
    }
  }

  /**
   * The exact outcome of a finished run. The batch row ends completed or cancelled
   * if and only if a cancellation landed after the opening update, or every row was
   * loaded and some check followed the last count; and the counters reach the total
   * if and only if no pending row was cancelled before the load.
   */
  lemma Outcome(total: nat, steps: Schedule)
    requires total > 0 && Run(total, steps).Some? && Quiescent(Run(total, steps).value)
    ensures var s := Run(total, steps).value;
      && (!Live(s.status) <==>
            LateCancel(steps) || (!CutBeforeLoad(steps) && CheckedSinceCount(steps)))
      && (s.completed + s.failed == total <==> !CutBeforeLoad(steps))
  {
    RunIsExplained(total, steps);
    QuiescentCounts(Run(total, steps).value);
  }

  ghost predicate PendingCheck(steps: Schedule, s: State) {
    s.completed + s.failed == 0 || CheckedSinceCount(steps) || HasCounted(s.tasks)
  }

  lemma {:induction false} UnrejectedRunIsChecked(total: nat, steps: Schedule)
    requires total > 0 && Run(total, steps).Some? && SubmitRejected !in steps
    ensures var s := Run(total, steps).value;
      PendingCheck(steps, s) && !s.submitter.Refused? && !s.submitter.RefusedMarked?
  {
    if steps != [] {
      var n := |steps| - 1;
      var s, step := Run(total, steps[..n]).value, steps[n];
      var t := Apply(s, step);
      assert steps == steps[..n] + [step];
      UnrejectedRunIsChecked(total, steps[..n]);
      RunKeepsInv(total, steps[..n]);
      ScheduleQuestions(steps[..n], step);
      if step.CountItem? {
        assert t.tasks[step.item].Counted?;
      } else if HasCounted(s.tasks) && !step.CheckBatch? {
        var i :| 0 <= i < |s.tasks| && s.tasks[i].Counted?;
        assert t.tasks[i].Counted?;
      }
    }
  }

  lemma {:induction false} CancelItemsNeedsHit(total: nat, steps: Schedule)
    requires total > 0 && Run(total, steps).Some?
    ensures Run(total, steps).value.cancels > 0 || CutBeforeLoad(steps) ==> LateCancel(steps) || EarlyCancel(steps)
  {
    if steps != [] {
      var n := |steps| - 1;
      assert steps == steps[..n] + [steps[n]];
      CancelItemsNeedsHit(total, steps[..n]);
      ScheduleQuestions(steps[..n], steps[n]);
    }
  }

  /**
   * No lost completion: while no submission was rejected, a batch whose counters
   * have reached the total but which is still processing has a worker standing
   * between its count and its check.
   */
  lemma CompletionIsNotLost(total: nat, steps: Schedule)
    requires total > 0 && Run(total, steps).Some? && SubmitRejected !in steps
    ensures var s := Run(total, steps).value;
      s.completed + s.failed == total && Live(s.status) ==> HasCounted(s.tasks)
  {
    RunIsExplained(total, steps);
    UnrejectedRunIsChecked(total, steps);
  }

  /** With no rejected submission and no cancellation before the opening update, every finished run settles. */
  lemma EveryOrderlyRunSettles(total: nat, steps: Schedule)
    requires total > 0 && Run(total, steps).Some? && Quiescent(Run(total, steps).value)
    requires SubmitRejected !in steps && !EarlyCancel(steps)
    ensures var s := Run(total, steps).value;
      && !Live(s.status)
      && (!LateCancel(steps) ==> s.status.BatchCompleted? && s.completed + s.failed == total)
  {
    Outcome(total, steps);
    RunIsExplained(total, steps);
    UnrejectedRunIsChecked(total, steps);
    CancelItemsNeedsHit(total, steps);
  }

  // ---------------------------------------------------------------- the conditions are needed

  lemma OneMore(total: nat, steps: Schedule, s: State, step: Step) returns (more: Schedule, t: State)
    requires Run(total, steps) == Some(s) && Enabled(s, step)
    ensures more == steps + [step] && t == Apply(s, step) && Run(total, more) == Some(t)
  {
    more, t := steps + [step], Apply(s, step);
    assert more[..|steps|] == steps;
  }

  /** A rejection that comes last leaves a fully counted batch processing for ever. */
  lemma RejectionCanStrandTheBatch() returns (steps: Schedule)
    ensures Run(1, steps).Some? && Quiescent(Run(1, steps).value)
    ensures SubmitRejected in steps && !EarlyCancel(steps)
    ensures Run(1, steps).value.status.BatchProcessing? && Run(1, steps).value.failed == 1
  {
    var s := Init(1);
    steps, s := OneMore(1, [], s, InsertItem);
    steps, s := OneMore(1, steps, s, OpenBatch);
    steps, s := OneMore(1, steps, s, LoadItems([0]));
    steps, s := OneMore(1, steps, s, SubmitRejected);
    assert steps == [InsertItem, OpenBatch, LoadItems([0]), SubmitRejected];
    steps, s := OneMore(1, steps, s, RefuseItem);
    steps, s := OneMore(1, steps, s, RefuseCount);
    assert steps[3] == SubmitRejected;
    NoCancelInEither(steps);
  }

  lemma {:induction false} NoCancelInEither(steps: Schedule)
    requires CancelHit !in steps
    ensures !EarlyCancel(steps) && !LateCancel(steps)
  {
    if steps != [] {
      NoCancelInEither(Front(steps));
    }
  }

  lemma {:induction false} NoEarlyAfterOpen(steps: Schedule, more: Schedule)
    requires HasOpen(steps) && !EarlyCancel(steps)
    ensures !EarlyCancel(steps + more)
    decreases |more|
  {
    if more == [] {
      assert steps + more == steps;
    } else {
      assert Front(steps + more) == steps + Front(more);
      NoEarlyAfterOpen(steps, Front(more));
    }
  }

  /** A cancellation before the opening update is overwritten by it, and the batch never settles. */
  lemma EarlyCancelCanStrandTheBatch() returns (steps: Schedule)
    ensures Run(1, steps).Some? && Quiescent(Run(1, steps).value)
    ensures SubmitRejected !in steps
    ensures Run(1, steps).value.status.BatchProcessing? && Run(1, steps).value.items == [ItemCancelled]
  {
    var s := Init(1);
    steps, s := OneMore(1, [], s, InsertItem);
    steps, s := OneMore(1, steps, s, CancelHit);
    steps, s := OneMore(1, steps, s, CancelItems);
    steps, s := OneMore(1, steps, s, OpenBatch);
    steps, s := OneMore(1, steps, s, LoadItems([]));
    assert steps == [InsertItem, CancelHit, CancelItems, OpenBatch, LoadItems([])];
  }

  /** A cancellation between the opening update and the load ends the batch with its counters short of the total. */
  lemma LateCancelCanLeaveCountersShort() returns (steps: Schedule)
    ensures Run(1, steps).Some? && Quiescent(Run(1, steps).value)
    ensures SubmitRejected !in steps && !EarlyCancel(steps)
    ensures Run(1, steps).value.status.BatchCancelled?
    ensures Run(1, steps).value.completed + Run(1, steps).value.failed == 0
  {
    var s := Init(1);
    steps, s := OneMore(1, [], s, InsertItem);
    steps, s := OneMore(1, steps, s, OpenBatch);
    steps, s := OneMore(1, steps, s, CancelHit);
    steps, s := OneMore(1, steps, s, CancelItems);
    steps, s := OneMore(1, steps, s, LoadItems([]));
    assert steps == [InsertItem, OpenBatch] + [CancelHit, CancelItems, LoadItems([])];
    NoCancelInEither([InsertItem, OpenBatch]);
    NoEarlyAfterOpen([InsertItem, OpenBatch], [CancelHit, CancelItems, LoadItems([])]);
  }

  // ---------------------------------------------------------------- every run ends

  predicate IsCancelStep(step: Step) {
    step.CancelHit? || step.CancelMiss? || step.CancelItems?
  }

  function PendingIds(items: seq<ItemStatus>): seq<nat> {
    if items == [] then []
    else
      var n := |items| - 1;
      PendingIds(items[..n]) + if items[n].ItemPending? then [n] else []
  }

  lemma {:induction false} PendingIdsSelect(items: seq<ItemStatus>)
    ensures SelectsPending(PendingIds(items), items)
  {
    if items != [] {
      var n := |items| - 1;
      var front := PendingIds(items[..n]);
      PendingIdsSelect(items[..n]);
      assert forall i :: 0 <= i < n ==> items[..n][i] == items[i];
      assert forall i: nat :: i < n && items[i].ItemPending? ==> i in front;
      if items[n].ItemPending? {
        ExtendSelection(front, items);
      }
    }
  }

  lemma ExtendSelection(front: seq<nat>, items: seq<ItemStatus>)
    requires items != [] && items[|items| - 1].ItemPending?
    requires Distinct(front)
    requires forall k :: 0 <= k < |front| ==> front[k] < |items| - 1 && items[front[k]].ItemPending?
    requires forall i :: 0 <= i < |items| - 1 && items[i].ItemPending? ==> i in front
    ensures SelectsPending(front + [|items| - 1], items)
  {
    var all := front + [|items| - 1];
    assert all[|front|] == |items| - 1;
    forall i | 0 <= i < |items| && items[i].ItemPending? ensures i in all {
      if i < |items| - 1 {
        assert i in front;
      }
    }
  }

  /** A reachable state with nothing left for submitter or workers to do is quiescent. */
  lemma SomeStepIsEnabled(s: State) returns (step: Step)
    requires Inv(s) && !Quiescent(s)
    ensures !IsCancelStep(step) && Enabled(s, step)
  {
    match s.submitter
    case Inserting => step := InsertItem;
    case Opening => step := OpenBatch;
    case Loading => PendingIdsSelect(s.items); step := LoadItems(PendingIds(s.items));
    case Refused(_, _) => step := RefuseItem;
    case RefusedMarked(_, _) => step := RefuseCount;
    case Submitting(ids, next) =>
      if next < |ids| {
        step := SubmitAccepted;
      } else {
        var i :| 0 <= i < |s.tasks| && !s.tasks[i].NoTask? && !s.tasks[i].Finished?;
        step := if s.tasks[i].Queued? then MarkItem(i, true)
                else if s.tasks[i].Marked? then CountItem(i)
                else CheckBatch(i);
      }
  }

  function TaskWork(task: Task): nat {
    match task
    case Queued => 3
    case Marked(_) => 2
    case Counted => 1
    case _ => 0
  }

  function TasksWork(tasks: seq<Task>): nat {
    if tasks == [] then 0 else TasksWork(tasks[..|tasks| - 1]) + TaskWork(tasks[|tasks| - 1])
  }

  lemma {:induction false} TasksWorkUpdate(tasks: seq<Task>, i: nat, task: Task)
    requires i < |tasks|
    ensures TasksWork(tasks[i := task]) + TaskWork(tasks[i]) == TasksWork(tasks) + TaskWork(task)
  {
    var n := |tasks| - 1;
    if i < n {
      TasksWorkUpdate(tasks[..n], i, task);
      assert tasks[i := task][..n] == tasks[..n][i := task];
    } else {
      assert tasks[i := task][..n] == tasks[..n];
    }
  }

  /** The steps submitter and workers can still take. */
  function Work(s: State): int {
    TasksWork(s.tasks) +
    match s.submitter
    case Inserting => s.total - |s.items| + 4 * s.total + 2
    case Opening => 4 * s.total + 2
    case Loading => 4 * s.total + 1
    case Submitting(ids, next) => 4 * (|ids| - next)
    case Refused(ids, next) => 4 * (|ids| - next) - 1
    case RefusedMarked(ids, next) => 4 * (|ids| - next) - 2
  }

  lemma SubmitterWorkDecreases(s: State, step: Step)
    requires Enabled(s, step) && !IsCancelStep(step) && !(step.MarkItem? || step.CountItem? || step.CheckBatch?)
    requires step.InsertItem? ==> |s.items| < s.total
    requires step.LoadItems? ==> |step.ids| <= s.total
    requires step.SubmitAccepted? ==> s.tasks[s.submitter.loaded[s.submitter.next]].NoTask?
    ensures Work(Apply(s, step)) < Work(s)
  {
    match step
    case InsertItem => assert (s.tasks + [NoTask])[..|s.tasks|] == s.tasks;
    case SubmitAccepted => TasksWorkUpdate(s.tasks, s.submitter.loaded[s.submitter.next], Queued);
    case _ =>
  }

  lemma WorkerWorkDecreases(s: State, step: Step)
    requires Enabled(s, step) && (step.MarkItem? || step.CountItem? || step.CheckBatch?)
    ensures Work(Apply(s, step)) < Work(s)
  {
    TasksWorkUpdate(s.tasks, step.item,
      if step.MarkItem? then Marked(step.ok) else if step.CountItem? then Counted else Finished);
  }

  lemma WorkDecreases(s: State, step: Step)
    requires Inv(s) && Enabled(s, step)
    ensures IsCancelStep(step) ==> Work(Apply(s, step)) == Work(s)
    ensures !IsCancelStep(step) ==> Work(Apply(s, step)) < Work(s)
  {
    if step.MarkItem? || step.CountItem? || step.CheckBatch? {
      WorkerWorkDecreases(s, step);
    } else if !IsCancelStep(step) {
      if step.LoadItems? {
        LoadIsFull(step.ids, s.items);
      }
      SubmitterWorkDecreases(s, step);
    }
  }

  function OwnSteps(steps: Schedule): nat {
    if steps == [] then 0 else OwnSteps(Front(steps)) + if IsCancelStep(Last(steps)) then 0 else 1
  }

  /** However it is scheduled, a batch of `total` requests takes at most 5 * total + 2 steps of its own. */
  lemma {:induction false} RunsAreShort(total: nat, steps: Schedule)
    requires total > 0 && Run(total, steps).Some?
    ensures OwnSteps(steps) + Work(Run(total, steps).value) <= 5 * total + 2
    ensures Work(Run(total, steps).value) >= 0
  {
    RunKeepsInv(total, steps);
    if steps != [] {
      var n := |steps| - 1;
      RunsAreShort(total, steps[..n]);
      RunKeepsInv(total, steps[..n]);
      WorkDecreases(Run(total, steps[..n]).value, steps[n]);
    }
  }
}
