/**
 * The batch protocol: the rows a batch owns and the actors that update them.
 *
 * Every SQL statement and every channel operation is one atomic step, and a run
 * is any interleaving of the submitter, one worker per queued item and any number
 * of cancellation requests. `Apply` is the effect of one step, `Run` of a whole
 * schedule, and the theorems speak about every schedule.
 */
module Batches {
  import opened Wrappers

  datatype ItemStatus = ItemPending | ItemCompleted | ItemFailed | ItemCancelled

  datatype BatchStatus = BatchPending | BatchProcessing | BatchCompleted | BatchCancelled

  /** Where the task of one item is: a worker marks the item, counts it, then checks the batch. */
  datatype Task = NoTask | Queued | Marked(ok: bool) | Counted | Finished

  /** The goroutine that creates the rows and then runs ProcessBatch. */
  datatype Submitter =
    | Inserting
    | Opening
    | Loading
    | Submitting(loaded: seq<nat>, next: nat)
    | Refused(loaded: seq<nat>, next: nat)
    | RefusedMarked(loaded: seq<nat>, next: nat)

  datatype State = State(
    status: BatchStatus, total: nat, completed: nat, failed: nat,
    items: seq<ItemStatus>, tasks: seq<Task>, submitter: Submitter, cancels: nat)

  datatype Step =
    | InsertItem
    | OpenBatch
    | LoadItems(ids: seq<nat>)
    | SubmitAccepted
    | SubmitRejected
    | RefuseItem
    | RefuseCount
    | MarkItem(item: nat, ok: bool)
    | CountItem(item: nat)
    | CheckBatch(item: nat)
    | CancelHit
    | CancelMiss
    | CancelItems

  // ---------------------------------------------------------------- transitions

  function Init(total: nat): State {
    State(BatchPending, total, 0, 0, [], [], Inserting, 0)
  }

  predicate Distinct(ids: seq<nat>) {
    forall j, k :: 0 <= j < k < |ids| ==> ids[j] != ids[k]
  }

  /** The result of selecting the pending rows: every one of them once, in any order. */
  ghost predicate SelectsPending(ids: seq<nat>, items: seq<ItemStatus>) {
    && Distinct(ids)
    && (forall k :: 0 <= k < |ids| ==> ids[k] < |items| && items[ids[k]].ItemPending?)
    && (forall i :: 0 <= i < |items| && items[i].ItemPending? ==> i in ids)
  }

  function CancelPending(items: seq<ItemStatus>): (r: seq<ItemStatus>)
    ensures |r| == |items|
    ensures forall i :: 0 <= i < |items| ==>
      r[i] == if items[i].ItemPending? then ItemCancelled else items[i]
  {
    seq(|items|, i requires 0 <= i < |items| => if items[i].ItemPending? then ItemCancelled else items[i])
  }

  predicate Live(status: BatchStatus) {
    status.BatchPending? || status.BatchProcessing?
  }

  ghost predicate Enabled(s: State, step: Step) {
    match step
    case InsertItem => s.submitter.Inserting?
    case OpenBatch => s.submitter.Opening?
    case LoadItems(ids) => s.submitter.Loading? && SelectsPending(ids, s.items)
    case SubmitAccepted => s.submitter.Submitting? && s.submitter.next < |s.submitter.loaded|
                           && s.submitter.loaded[s.submitter.next] < |s.tasks|
    case SubmitRejected => s.submitter.Submitting? && s.submitter.next < |s.submitter.loaded|
    case RefuseItem => s.submitter.Refused? && s.submitter.next < |s.submitter.loaded|
                       && s.submitter.loaded[s.submitter.next] < |s.items|
    case RefuseCount => s.submitter.RefusedMarked?
    case MarkItem(i, _) => i < |s.tasks| && i < |s.items| && s.tasks[i].Queued?
    case CountItem(i) => i < |s.tasks| && s.tasks[i].Marked?
    case CheckBatch(i) => i < |s.tasks| && s.tasks[i].Counted?
    case CancelHit => Live(s.status)
    case CancelMiss => !Live(s.status)
    case CancelItems => s.cancels > 0
  }

  ghost function Apply(s: State, step: Step): State
    requires Enabled(s, step)
  {
    match step
    case InsertItem =>
      s.(items := s.items + [ItemPending], tasks := s.tasks + [NoTask],
         submitter := if |s.items| + 1 >= s.total then Opening else Inserting)
    case OpenBatch => s.(status := BatchProcessing, submitter := Loading)
    case LoadItems(ids) => s.(submitter := Submitting(ids, 0))
    case SubmitAccepted =>
      s.(tasks := s.tasks[s.submitter.loaded[s.submitter.next] := Queued],
         submitter := Submitting(s.submitter.loaded, s.submitter.next + 1))
    case SubmitRejected => s.(submitter := Refused(s.submitter.loaded, s.submitter.next))
    case RefuseItem =>
      s.(items := s.items[s.submitter.loaded[s.submitter.next] := ItemFailed],
         submitter := RefusedMarked(s.submitter.loaded, s.submitter.next))
    case RefuseCount =>
      s.(failed := s.failed + 1, submitter := Submitting(s.submitter.loaded, s.submitter.next + 1))
    case MarkItem(i, ok) =>
      s.(items := s.items[i := if ok then ItemCompleted else ItemFailed],
         tasks := s.tasks[i := Marked(ok)])
    case CountItem(i) =>
      if s.tasks[i].ok then s.(completed := s.completed + 1, tasks := s.tasks[i := Counted])
      else s.(failed := s.failed + 1, tasks := s.tasks[i := Counted])
    case CheckBatch(i) =>
      s.(tasks := s.tasks[i := Finished],
         status := if s.completed + s.failed >= s.total && !s.status.BatchCancelled?
                   then BatchCompleted else s.status)
    case CancelHit => s.(status := BatchCancelled, cancels := s.cancels + 1)
    case CancelMiss => s
    case CancelItems => s.(items := CancelPending(s.items), cancels := s.cancels - 1)
  }

  type Schedule = seq<Step>

  /** The state a schedule leads to, or None when some step of it was not enabled. */
  ghost function Run(total: nat, steps: Schedule): Option<State> {
    if steps == [] then Some(Init(total))
    else
      var before := Run(total, steps[..|steps| - 1]);
      var step := steps[|steps| - 1];
      if before.None? || !Enabled(before.value, step) then None else Some(Apply(before.value, step))
  }

  // ---------------------------------------------------------------- the invariant

  predicate Settled(item: ItemStatus) {
    item.ItemCompleted? || item.ItemFailed?
  }

  predicate Opened(s: State) {
    !s.submitter.Inserting? && !s.submitter.Opening?
  }

  predicate Loaded(s: State) {
    s.submitter.Submitting? || s.submitter.Refused? || s.submitter.RefusedMarked?
  }

  /** How many of the loaded items the submitter has dealt with. */
  function Handled(s: State): (n: nat)
    requires Loaded(s)
  {
    if s.submitter.RefusedMarked? then s.submitter.next + 1 else s.submitter.next
  }

  /** Items marked completed (failed) exceed the counter by the actors between the two updates. */
  ghost predicate CountersTrail(s: State) {
    && multiset(s.items)[ItemCompleted] == s.completed + multiset(s.tasks)[Marked(true)]
    && multiset(s.items)[ItemFailed]
       == s.failed + multiset(s.tasks)[Marked(false)] + (if s.submitter.RefusedMarked? then 1 else 0)
  }

  ghost predicate RowsConsistent(s: State) {
    && 0 < s.total && |s.tasks| == |s.items| <= s.total
    && (s.submitter.Inserting? ==> |s.items| < s.total)
    && (!s.submitter.Inserting? ==> |s.items| == s.total)
    && (forall i :: 0 <= i < |s.items| && Settled(s.items[i]) ==> !s.tasks[i].Queued?)
    && (forall i :: 0 <= i < |s.items| && !s.tasks[i].NoTask? && !s.tasks[i].Queued? ==> Settled(s.items[i]))
  }

  ghost predicate NothingStarted(s: State) {
    && s.completed == 0 && s.failed == 0
    && (forall i :: 0 <= i < |s.items| ==> !Settled(s.items[i]))
    && (forall i :: 0 <= i < |s.tasks| ==> s.tasks[i].NoTask?)
  }

  /** Each loaded item is either still to be submitted, or queued, or already settled. */
  ghost predicate LoadedConsistent(s: State)
    requires Loaded(s) && |s.tasks| == |s.items|
  {
    var ids := s.submitter.loaded;
    && Distinct(ids)
    && s.submitter.next <= |ids| && (!s.submitter.Submitting? ==> s.submitter.next < |ids|)
    && (forall k :: 0 <= k < |ids| ==> ids[k] < |s.items|)
    && (forall k :: Handled(s) <= k < |ids| ==> s.tasks[ids[k]].NoTask? && !Settled(s.items[ids[k]]))
    && (forall k :: 0 <= k < Handled(s) ==> !s.tasks[ids[k]].NoTask? || Settled(s.items[ids[k]]))
    && (forall i :: 0 <= i < |s.items| && i !in ids ==> s.tasks[i].NoTask? && !Settled(s.items[i]))
  }

  ghost predicate RowsInv(s: State) {
    && RowsConsistent(s)
    && (!Loaded(s) ==> NothingStarted(s))
    && (Loaded(s) ==> LoadedConsistent(s))
  }

  ghost predicate Inv(s: State) {
    && CountersTrail(s)
    && RowsInv(s)
    && (Opened(s) ==> !s.status.BatchPending?)
    && (!Opened(s) ==> s.status.BatchPending? || s.status.BatchCancelled?)
    && (s.status.BatchCompleted? ==> s.completed + s.failed == s.total)
  }

  lemma {:induction false} TwoCountsFit<T>(s: seq<T>, a: T, b: T)
    requires a != b
    ensures multiset(s)[a] + multiset(s)[b] <= |s|
  {
    if s != [] {
      var n := |s| - 1;
      assert s == s[..n] + [s[n]];
      TwoCountsFit(s[..n], a, b);
    }
  }

  lemma CountersBounded(s: State)
    requires CountersTrail(s) && RowsConsistent(s)
    ensures s.completed + s.failed + multiset(s.tasks)[Marked(true)] + multiset(s.tasks)[Marked(false)] <= s.total
    ensures s.submitter.RefusedMarked? ==> s.completed + s.failed < s.total
  {
    TwoCountsFit(s.items, ItemCompleted, ItemFailed);
  }

  lemma {:induction false} CancelKeepsCounts(items: seq<ItemStatus>)
    ensures multiset(CancelPending(items))[ItemCompleted] == multiset(items)[ItemCompleted]
    ensures multiset(CancelPending(items))[ItemFailed] == multiset(items)[ItemFailed]
  {
    var r := CancelPending(items);
    if items != [] {
      var n := |items| - 1;
      assert items == items[..n] + [items[n]];
      assert r == CancelPending(items[..n]) + [r[n]];
      CancelKeepsCounts(items[..n]);
    }
  }

  lemma CountAfterUpdate<T>(s: seq<T>, i: nat, x: T, y: T)
    requires i < |s|
    ensures multiset(s[i := x])[y] + (if s[i] == y then 1 else 0) == multiset(s)[y] + (if x == y then 1 else 0)
  {
    assert s[i] in multiset(s);
  }

  lemma StepKeepsCounters(s: State, step: Step)
    requires CountersTrail(s) && RowsInv(s) && Enabled(s, step)
    ensures CountersTrail(Apply(s, step))
  {
    match step
    case MarkItem(i, ok) => MarkKeepsCounters(s, i, ok);
    case CountItem(i) => CountKeepsCounters(s, i);
    case CheckBatch(i) => TaskKeepsCounters(s, i, Finished);
    case SubmitAccepted => TaskKeepsCounters(s, s.submitter.loaded[s.submitter.next], Queued);
    case RefuseItem => RefuseKeepsCounters(s);
    case CancelItems => CancelKeepsCounts(s.items);
    case _ =>
  }

  lemma TaskKeepsCounters(s: State, i: nat, task: Task)
    requires CountersTrail(s) && i < |s.tasks| && !s.tasks[i].Marked? && !task.Marked?
    ensures CountersTrail(s.(tasks := s.tasks[i := task]))
  {
    CountAfterUpdate(s.tasks, i, task, Marked(true));
    CountAfterUpdate(s.tasks, i, task, Marked(false));
  }

  lemma RefuseKeepsCounters(s: State)
    requires CountersTrail(s) && Enabled(s, RefuseItem) && !Settled(s.items[s.submitter.loaded[s.submitter.next]])
    ensures CountersTrail(Apply(s, RefuseItem))
  {
    var i := s.submitter.loaded[s.submitter.next];
    CountAfterUpdate(s.items, i, ItemFailed, ItemCompleted);
    CountAfterUpdate(s.items, i, ItemFailed, ItemFailed);
  }

  lemma MarkKeepsCounters(s: State, i: nat, ok: bool)
    requires CountersTrail(s) && RowsConsistent(s) && Enabled(s, MarkItem(i, ok))
    ensures CountersTrail(Apply(s, MarkItem(i, ok)))
  {
    var mark := if ok then ItemCompleted else ItemFailed;
    CountAfterUpdate(s.items, i, mark, ItemCompleted);
    CountAfterUpdate(s.items, i, mark, ItemFailed);
    CountAfterUpdate(s.tasks, i, Marked(ok), Marked(true));
    CountAfterUpdate(s.tasks, i, Marked(ok), Marked(false));
  }

  lemma CountKeepsCounters(s: State, i: nat)
    requires CountersTrail(s) && Enabled(s, CountItem(i))
    ensures CountersTrail(Apply(s, CountItem(i)))
  {
    CountAfterUpdate(s.tasks, i, Counted, Marked(true));
    CountAfterUpdate(s.tasks, i, Counted, Marked(false));
  }

  lemma InsertKeepsRows(s: State)
    requires RowsInv(s) && Enabled(s, InsertItem)
    ensures RowsInv(Apply(s, InsertItem))
  {
  }

  lemma LoadKeepsRows(s: State, ids: seq<nat>)
    requires RowsInv(s) && Enabled(s, LoadItems(ids))
    ensures RowsInv(Apply(s, LoadItems(ids)))
  {
  }

  lemma SubmitKeepsRows(s: State)
    requires RowsInv(s) && Enabled(s, SubmitAccepted)
    ensures RowsInv(Apply(s, SubmitAccepted))
  {
  }

  lemma RefusalKeepsRows(s: State, step: Step)
    requires RowsInv(s) && Enabled(s, step)
    requires step.SubmitRejected? || step.RefuseItem? || step.RefuseCount?
    ensures RowsInv(Apply(s, step))
  {
  }

  /** A worker's update of item `i`, whichever of the three it is. */
  lemma WorkerKeepsRows(s: State, i: nat, item: ItemStatus, task: Task)
    requires RowsInv(s) && i < |s.items| && !s.tasks[i].NoTask?
    requires !task.NoTask? && !task.Queued? && Settled(item)
    ensures RowsInv(s.(items := s.items[i := item], tasks := s.tasks[i := task]))
  {
    var t := s.(items := s.items[i := item], tasks := s.tasks[i := task]);
    assert Loaded(s);
    var ids := s.submitter.loaded;
    assert forall k :: Handled(s) <= k < |ids| ==> ids[k] != i;
    assert i in ids;
    assert RowsConsistent(t);
  }

  lemma WorkerStepKeepsRows(s: State, step: Step)
    requires RowsInv(s) && Enabled(s, step)
    requires step.MarkItem? || step.CountItem? || step.CheckBatch?
    ensures RowsInv(Apply(s, step))
  {
    var i := step.item;
    var t := Apply(s, step);
    WorkerKeepsRows(s, i, t.items[i], t.tasks[i]);
    var u := s.(items := s.items[i := t.items[i]], tasks := s.tasks[i := t.tasks[i]]);
    assert u.items == t.items && u.tasks == t.tasks;
    SameRows(u, t);
  }

  lemma SameRows(s: State, t: State)
    requires RowsInv(s) && t.items == s.items && t.tasks == s.tasks && t.submitter == s.submitter && t.total == s.total
    requires Loaded(s)
    ensures RowsInv(t)
  {
  }

  lemma CancelKeepsRows(s: State)
    requires RowsInv(s) && Enabled(s, CancelItems)
    ensures RowsInv(Apply(s, CancelItems))
  {
    assert forall i :: 0 <= i < |s.items| ==> Settled(CancelPending(s.items)[i]) == Settled(s.items[i]);
  }

  lemma StepKeepsRows(s: State, step: Step)
    requires RowsInv(s) && Enabled(s, step)
    ensures RowsInv(Apply(s, step))
  {
    match step
    case InsertItem => InsertKeepsRows(s);
    case OpenBatch =>
    case LoadItems(ids) => LoadKeepsRows(s, ids);
    case SubmitAccepted => SubmitKeepsRows(s);
    case SubmitRejected => RefusalKeepsRows(s, step);
    case RefuseItem => RefusalKeepsRows(s, step);
    case RefuseCount => RefusalKeepsRows(s, step);
    case MarkItem(_, _) => WorkerStepKeepsRows(s, step);
    case CountItem(_) => WorkerStepKeepsRows(s, step);
    case CheckBatch(_) => WorkerStepKeepsRows(s, step);
    case CancelHit =>
    case CancelMiss =>
    case CancelItems => CancelKeepsRows(s);
  }

  /** Every step of every actor keeps the invariant. */
  lemma StepKeepsInv(s: State, step: Step)
    requires Inv(s) && Enabled(s, step)
    ensures Inv(Apply(s, step))
  {
    StepKeepsCounters(s, step);
    StepKeepsRows(s, step);
    CountersBounded(s);
    CountersBounded(Apply(s, step));
  }

  lemma {:induction false} RunKeepsInv(total: nat, steps: Schedule)
    requires total > 0 && Run(total, steps).Some?
    ensures Inv(Run(total, steps).value) && Run(total, steps).value.total == total
  {
    if steps != [] {
      var n := |steps| - 1;
      RunKeepsInv(total, steps[..n]);
      StepKeepsInv(Run(total, steps[..n]).value, steps[n]);
    }
  }

  /** A schedule can be continued by any step enabled at its end. */
  lemma Scheduled(total: nat, steps: Schedule, step: Step) returns (more: Schedule)
    requires Run(total, steps).Some? && Enabled(Run(total, steps).value, step)
    ensures more == steps + [step] && Run(total, more) == Some(Apply(Run(total, steps).value, step))
  {
    more := steps + [step];
    assert more[..|steps|] == steps;
  }

  // ---------------------------------------------------------------- the tables themselves

  /**
   * The `batches` row and the `batch_items` rows of one batch, updated in place by
   * the statements of the source, next to the program counters of the actors that
   * issue them. Each method is one atomic statement and refines one `Apply`.
   */
  class Tables {
    var status: BatchStatus
    const total: nat
    var completed: nat
    var failed: nat
    var items: seq<ItemStatus>
    var tasks: seq<Task>
    var submitter: Submitter
    var cancels: nat
    ghost var steps: Schedule

    ghost function View(): State
      reads this
    {
      State(status, total, completed, failed, items, tasks, submitter, cancels)
    }

    /** The statements so far are a schedule that leads here, so whatever holds of every run holds of the tables. */
    ghost predicate Valid()
      reads this
    {
      total > 0 && Run(total, steps) == Some(View())
    }

    constructor (total: nat)
      requires total > 0
      ensures Valid() && steps == [] && View() == Init(total)
    {
      this.total := total;
      status, completed, failed := BatchPending, 0, 0;
      items, tasks, submitter, cancels := [], [], Inserting, 0;
      steps := [];
    }

    method InsertRow()
      requires Valid() && Enabled(View(), InsertItem)
      modifies this
      ensures Valid() && steps == old(steps) + [InsertItem] && View() == Apply(old(View()), InsertItem)
    {
      steps := Scheduled(total, steps, InsertItem);
      items, tasks := items + [ItemPending], tasks + [NoTask];
      if |items| >= total { submitter := Opening; }
    }

    method UpdateStatusProcessing()
      requires Valid() && Enabled(View(), OpenBatch)
      modifies this
      ensures Valid() && steps == old(steps) + [OpenBatch] && View() == Apply(old(View()), OpenBatch)
    {
      steps := Scheduled(total, steps, OpenBatch);
      status, submitter := BatchProcessing, Loading;
    }

    /** One turn of the submission loop: the pool either takes the task or refuses it. */
    method SubmitNext(accepted: bool)
      requires Valid() && Enabled(View(), if accepted then SubmitAccepted else SubmitRejected)
      modifies this
      ensures Valid() && steps == old(steps) + [if accepted then SubmitAccepted else SubmitRejected] && View() == Apply(old(View()), if accepted then SubmitAccepted else SubmitRejected)
    {
      steps := Scheduled(total, steps, if accepted then SubmitAccepted else SubmitRejected);
      var ids, next := submitter.loaded, submitter.next;
      if accepted {
        tasks := tasks[ids[next] := Queued];
        submitter := Submitting(ids, next + 1);
      } else {
        submitter := Refused(ids, next);
      }
    }

    method RefusalUpdatesItem()
      requires Valid() && Enabled(View(), RefuseItem)
      modifies this
      ensures Valid() && steps == old(steps) + [RefuseItem] && View() == Apply(old(View()), RefuseItem)
    {
      steps := Scheduled(total, steps, RefuseItem);
      items := items[submitter.loaded[submitter.next] := ItemFailed];
      submitter := RefusedMarked(submitter.loaded, submitter.next);
    }

    method RefusalUpdatesCounter()
      requires Valid() && Enabled(View(), RefuseCount)
      modifies this
      ensures Valid() && steps == old(steps) + [RefuseCount] && View() == Apply(old(View()), RefuseCount)
    {
      failed := failed + 1;
      submitter := Submitting(submitter.loaded, submitter.next + 1);
      assert View() == Apply(old(View()), RefuseCount);
      steps := Scheduled(total, steps, RefuseCount);
    }

    /** First statement of processItem's success path, or of failItem. */
    method WorkerUpdatesItem(i: nat, ok: bool)
      requires Valid() && Enabled(View(), MarkItem(i, ok))
      modifies this
      ensures Valid() && steps == old(steps) + [MarkItem(i, ok)] && View() == Apply(old(View()), MarkItem(i, ok))
    {
      steps := Scheduled(total, steps, MarkItem(i, ok));
      items := items[i := if ok then ItemCompleted else ItemFailed];
      tasks := tasks[i := Marked(ok)];
    }

    method WorkerUpdatesCounter(i: nat)
      requires Valid() && Enabled(View(), CountItem(i))
      modifies this
      ensures Valid() && steps == old(steps) + [CountItem(i)] && View() == Apply(old(View()), CountItem(i))
    {
      if tasks[i].ok { completed := completed + 1; } else { failed := failed + 1; }
      tasks := tasks[i := Counted];
      assert View() == Apply(old(View()), CountItem(i));
      steps := Scheduled(total, steps, CountItem(i));
    }

    method CheckBatchComplete(i: nat)
      requires Valid() && Enabled(View(), CheckBatch(i))
      modifies this
      ensures Valid() && steps == old(steps) + [CheckBatch(i)] && View() == Apply(old(View()), CheckBatch(i))
    {
      steps := Scheduled(total, steps, CheckBatch(i));
      if completed + failed >= total && status != BatchCancelled { status := BatchCompleted; }
      tasks := tasks[i := Finished];
    }

    /** First statement of Cancel; `affected` is the row count it reports. */
    method CancelBatchRow() returns (affected: nat)
      requires Valid()
      modifies this
      ensures Valid() && steps == old(steps) + [if affected == 1 then CancelHit else CancelMiss]
      ensures affected == (if Live(old(status)) then 1 else 0)
      ensures View() == Apply(old(View()), if affected == 1 then CancelHit else CancelMiss)
    {
      steps := Scheduled(total, steps, if Live(status) then CancelHit else CancelMiss);
      affected := 0;
      if status == BatchPending || status == BatchProcessing {
        status, cancels, affected := BatchCancelled, cancels + 1, 1;
      }
    }

    method CancelPendingRows()
      requires Valid() && Enabled(View(), CancelItems)
      modifies this
      ensures Valid() && steps == old(steps) + [CancelItems] && View() == Apply(old(View()), CancelItems)
    {
      steps := Scheduled(total, steps, CancelItems);
      items, cancels := CancelPending(items), cancels - 1;
    }

    /** The SELECT of the pending rows, here in row order. */
    method LoadPending() returns (ids: seq<nat>)
      requires Valid() && submitter.Loading?
      modifies this
      ensures Valid() && steps == old(steps) + [LoadItems(ids)]
      ensures Enabled(old(View()), LoadItems(ids)) && View() == Apply(old(View()), LoadItems(ids))
    {
      ids := [];
      for k := 0 to |items|
        invariant Distinct(ids) && unchanged(this)
        invariant forall j :: 0 <= j < |ids| ==> ids[j] < k && items[ids[j]].ItemPending?
        invariant forall i :: 0 <= i < k && items[i].ItemPending? ==> i in ids
      {
        if items[k].ItemPending? {
          ghost var shorter := ids;
          ids := ids + [k];
          assert ids[|shorter|] == k;
          assert forall i :: i in shorter ==> i in ids;
        }
      }
      steps := Scheduled(total, steps, LoadItems(ids));
      submitter := Submitting(ids, 0);
    }
  }
}
