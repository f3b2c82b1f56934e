/**
 * What the rows and counters of a batch say about its schedule: every row is decided by the
 * steps taken for its item, and at rest each counter is the number of outcomes of its kind.
 */
module BatchRows {
  import opened Wrappers
  import opened Batches
  import opened BatchOutcomes

  // ---------------------------------------------------------------- reading a schedule

  function Inserts(steps: Schedule): nat {
    if steps == [] then 0 else Inserts(Front(steps)) + if Last(steps).InsertItem? then 1 else 0
  }

  /** The items the submitter was given, in its order. */
  function Given(steps: Schedule): seq<nat> {
    if steps == [] then [] else if Last(steps).LoadItems? then Last(steps).ids else Given(Front(steps))
  }

  /** How many of them it has offered to the pool. */
  function Offers(steps: Schedule): nat {
    if steps == [] then 0
    else Offers(Front(steps)) + if Last(steps).SubmitAccepted? || Last(steps).SubmitRejected? then 1 else 0
  }

  /** The submitter marked item `i` failed: it was the item offered last. */
  predicate WasRefused(steps: Schedule, i: nat) {
    steps != [] && (WasRefused(Front(steps), i) || (Last(steps).RefuseItem? && WasOfferedLast(Front(steps), i)))
  }

  predicate WasOfferedLast(steps: Schedule, i: nat) {
    0 < Offers(steps) <= |Given(steps)| && Given(steps)[Offers(steps) - 1] == i
  }

  /** A worker recorded this outcome for item `i`. */
  predicate WasMarked(steps: Schedule, i: nat, ok: bool) {
    MarkItem(i, ok) in steps
  }

  /** Pending rows were cancelled when row `i` existed. */
  predicate WasSwept(steps: Schedule, i: nat) {
    steps != [] && (WasSwept(Front(steps), i) || (Last(steps).CancelItems? && i < Inserts(Front(steps))))
  }

  function Marks(steps: Schedule, ok: bool): nat {
    if steps == [] then 0 else Marks(Front(steps), ok) + if Last(steps).MarkItem? && Last(steps).ok == ok then 1 else 0
  }

  function Refusals(steps: Schedule): nat {
    if steps == [] then 0 else Refusals(Front(steps)) + if Last(steps).RefuseCount? then 1 else 0
  }

  // ---------------------------------------------------------------- the submitter's place

  ghost predicate PlaceExplained(steps: Schedule, s: State) {
    && Inserts(steps) == |s.items|
    && (Loaded(s) ==>
          && Given(steps) == s.submitter.loaded
          && Offers(steps) == s.submitter.next + (if s.submitter.Submitting? then 0 else 1))
    && (!Loaded(s) ==> Offers(steps) == 0)
  }

  lemma PlaceKept(steps: Schedule, s: State, step: Step)
    requires PlaceExplained(steps, s) && Enabled(s, step)
    ensures PlaceExplained(steps + [step], Apply(s, step))
  {
    assert Front(steps + [step]) == steps && Last(steps + [step]) == step;
  }

  // ---------------------------------------------------------------- the rows

  /** The row of item `i`, from the schedule alone. */
  ghost predicate RowExplained(steps: Schedule, i: nat, item: ItemStatus) {
    match item
    case ItemCompleted => WasMarked(steps, i, true) && !WasMarked(steps, i, false) && !WasRefused(steps, i)
    case ItemFailed => !WasMarked(steps, i, true) && (WasMarked(steps, i, false) || WasRefused(steps, i))
    case ItemCancelled => Untouched(steps, i) && WasSwept(steps, i)
    case ItemPending => Untouched(steps, i) && !WasSwept(steps, i)
  }

  predicate Untouched(steps: Schedule, i: nat) {
    !WasMarked(steps, i, true) && !WasMarked(steps, i, false) && !WasRefused(steps, i)
  }

  ghost predicate RowsExplained(steps: Schedule, s: State) {
    && (forall i: nat :: i < |s.items| ==> RowExplained(steps, i, s.items[i]))
    && (forall i: nat :: i >= |s.items| ==> Untouched(steps, i) && !WasSwept(steps, i))
  }

  /** What one more step adds to the questions about item `i`. */
  lemma QuestionsAbout(steps: Schedule, step: Step, i: nat)
    ensures var all := steps + [step];
      && (forall ok :: WasMarked(all, i, ok) <==> WasMarked(steps, i, ok) || step == MarkItem(i, ok))
      && (WasRefused(all, i) <==> WasRefused(steps, i) || (step.RefuseItem? && WasOfferedLast(steps, i)))
      && (WasSwept(all, i) <==> WasSwept(steps, i) || (step.CancelItems? && i < Inserts(steps)))
  {
    assert Front(steps + [step]) == steps && Last(steps + [step]) == step;
  }

  /** The row of item `i` after a step, and which steps leave it alone. */
  lemma RowAfter(s: State, step: Step, i: nat)
    requires Inv(s) && Enabled(s, step) && i < |s.items|
    ensures var t := Apply(s, step);
      && i < |t.items|
      && t.items[i] ==
           (if step.MarkItem? && step.item == i then (if step.ok then ItemCompleted else ItemFailed)
            else if step.RefuseItem? && s.submitter.loaded[s.submitter.next] == i then ItemFailed
            else if step.CancelItems? && s.items[i].ItemPending? then ItemCancelled
            else s.items[i])
      && (step.MarkItem? && step.item == i ==> !Settled(s.items[i]))
      && (step.RefuseItem? && s.submitter.loaded[s.submitter.next] == i ==> !Settled(s.items[i]))
  {
  }

  lemma RowKept(steps: Schedule, s: State, step: Step, i: nat)
    requires Inv(s) && PlaceExplained(steps, s) && Enabled(s, step)
    requires i < |s.items| && RowExplained(steps, i, s.items[i])
    ensures i < |Apply(s, step).items| && RowExplained(steps + [step], i, Apply(s, step).items[i])
  {
    QuestionsAbout(steps, step, i);
    RowAfter(s, step, i);
  }

  lemma NewRow(steps: Schedule, s: State, step: Step, i: nat)
    requires Inv(s) && PlaceExplained(steps, s) && Enabled(s, step)
    requires i >= |s.items| && Untouched(steps, i) && !WasSwept(steps, i)
    ensures Untouched(steps + [step], i) && !WasSwept(steps + [step], i)
    ensures i < |Apply(s, step).items| ==> Apply(s, step).items[i].ItemPending?
  {
    QuestionsAbout(steps, step, i);
  }

  lemma RowsKept(steps: Schedule, s: State, step: Step)
    requires Inv(s) && PlaceExplained(steps, s) && RowsExplained(steps, s) && Enabled(s, step)
    ensures RowsExplained(steps + [step], Apply(s, step))
  {
    var t := Apply(s, step);
    forall i: nat | i < |t.items| ensures RowExplained(steps + [step], i, t.items[i]) {
      if i < |s.items| {
        RowKept(steps, s, step, i);
      } else {
        NewRow(steps, s, step, i);
      }
    }
    forall i: nat | i >= |t.items| ensures Untouched(steps + [step], i) && !WasSwept(steps + [step], i) {
      NewRow(steps, s, step, i);
    }
  }

  // ---------------------------------------------------------------- the counters

  /** Outcomes of each kind: counted, or marked and about to be. */
  ghost predicate CountersExplained(steps: Schedule, s: State) {
    && s.completed + multiset(s.tasks)[Marked(true)] == Marks(steps, true)
    && s.failed + multiset(s.tasks)[Marked(false)] == Marks(steps, false) + Refusals(steps)
  }

  lemma CountsAbout(steps: Schedule, step: Step)
    ensures var all := steps + [step];
      && (forall ok :: Marks(all, ok) == Marks(steps, ok) + if step.MarkItem? && step.ok == ok then 1 else 0)
      && Refusals(all) == Refusals(steps) + if step.RefuseCount? then 1 else 0
  {
    assert Front(steps + [step]) == steps && Last(steps + [step]) == step;
  }

  /** Tasks between their two updates, after the task of item `i` has moved on. */
  lemma MarkedAfterUpdate(tasks: seq<Task>, i: nat, task: Task, ok: bool)
    requires i < |tasks|
    ensures multiset(tasks[i := task])[Marked(ok)] + (if tasks[i] == Marked(ok) then 1 else 0)
            == multiset(tasks)[Marked(ok)] + (if task == Marked(ok) then 1 else 0)
  {
    CountAfterUpdate(tasks, i, task, Marked(ok));
  }

  lemma WorkerCountsKept(steps: Schedule, s: State, step: Step)
    requires CountersExplained(steps, s) && Enabled(s, step) && (step.MarkItem? || step.CountItem? || step.CheckBatch?)
    ensures CountersExplained(steps + [step], Apply(s, step))
  {
    CountsAbout(steps, step);
    var task := Apply(s, step).tasks[step.item];
    MarkedAfterUpdate(s.tasks, step.item, task, true);
    MarkedAfterUpdate(s.tasks, step.item, task, false);
  }

  lemma AcceptanceCountsKept(steps: Schedule, s: State)
    requires CountersExplained(steps, s) && Inv(s) && Enabled(s, SubmitAccepted)
    ensures CountersExplained(steps + [SubmitAccepted], Apply(s, SubmitAccepted))
  {
    CountsAbout(steps, SubmitAccepted);
    var i := s.submitter.loaded[s.submitter.next];
    assert s.tasks[i].NoTask?;
    MarkedAfterUpdate(s.tasks, i, Queued, true);
    MarkedAfterUpdate(s.tasks, i, Queued, false);
  }

  lemma OtherCountsKept(steps: Schedule, s: State, step: Step)
    requires CountersExplained(steps, s) && Enabled(s, step)
    requires !step.MarkItem? && !step.CountItem? && !step.CheckBatch? && !step.SubmitAccepted?
    ensures CountersExplained(steps + [step], Apply(s, step))
  {
    CountsAbout(steps, step);
  }

  lemma CountersKept(steps: Schedule, s: State, step: Step)
    requires CountersExplained(steps, s) && Inv(s) && Enabled(s, step)
    ensures CountersExplained(steps + [step], Apply(s, step))
  {
    if step.MarkItem? || step.CountItem? || step.CheckBatch? {
      WorkerCountsKept(steps, s, step);
    } else if step.SubmitAccepted? {
      AcceptanceCountsKept(steps, s);
    } else {
      OtherCountsKept(steps, s, step);
    }
  }

  // ---------------------------------------------------------------- every run

  ghost predicate Tells(steps: Schedule, s: State) {
    Inv(s) && PlaceExplained(steps, s) && RowsExplained(steps, s) && CountersExplained(steps, s)
  }

  lemma StepTells(steps: Schedule, s: State, step: Step)
    requires Tells(steps, s) && Enabled(s, step)
    ensures Tells(steps + [step], Apply(s, step))
  {
    StepKeepsInv(s, step);
    PlaceKept(steps, s, step);
    RowsKept(steps, s, step);
    CountersKept(steps, s, step);
  }

  lemma LastStepTells(total: nat, steps: Schedule)
    requires steps != [] && Run(total, steps).Some?
    requires Run(total, Front(steps)).Some? ==> Tells(Front(steps), Run(total, Front(steps)).value)
    ensures Tells(steps, Run(total, steps).value)
  {
    StepTells(Front(steps), Run(total, Front(steps)).value, Last(steps));
    assert Front(steps) + [Last(steps)] == steps;
  }

  lemma {:induction false} EveryRunTells(total: nat, steps: Schedule)
    requires total > 0 && Run(total, steps).Some?
    ensures Tells(steps, Run(total, steps).value)
  {
    if steps == [] {
      RunKeepsInv(total, steps);
    } else {
      EveryRunTells(total, Front(steps));
      LastStepTells(total, steps);
    }
  }

  /**
   * In every interleaving, each row is decided by what happened to its item: completed exactly
   * after a successful outcome, failed exactly after a failed one or a refusal, and otherwise
   * cancelled exactly when a cancellation found the row pending.
   */
  lemma RowsTellOutcomes(total: nat, steps: Schedule, i: nat)
    requires total > 0 && Run(total, steps).Some? && i < |Run(total, steps).value.items|
    ensures var item := Run(total, steps).value.items[i];
      && (item == ItemCompleted <==> MarkItem(i, true) in steps)
      && (item == ItemFailed <==> MarkItem(i, false) in steps || WasRefused(steps, i))
      && (item == ItemCancelled <==> Untouched(steps, i) && WasSwept(steps, i))
      && (item == ItemPending <==> Untouched(steps, i) && !WasSwept(steps, i))
  {
    EveryRunTells(total, steps);
    assert RowExplained(steps, i, Run(total, steps).value.items[i]);
  }

  /** At rest, each counter is the number of outcomes of its kind; refusals count as failures. */
  lemma CountersTellOutcomes(total: nat, steps: Schedule)
    requires total > 0 && Run(total, steps).Some? && Quiescent(Run(total, steps).value)
    ensures var s := Run(total, steps).value;
      s.completed == Marks(steps, true) && s.failed == Marks(steps, false) + Refusals(steps)
  {
    EveryRunTells(total, steps);
    var s := Run(total, steps).value;
    assert Marked(true) !in s.tasks && Marked(false) !in s.tasks;
  }
}
