/**
 * Budgets: the check before a request, the record after it, and how far concurrent
 * requests can push spending past the limit. Money is exact.
 */
module Budget {
  import opened Wrappers

  // ---------------------------------------------------------------- the tables

  datatype Row = Row(maxBudget: real, currentSpend: real)

  /** The comparison of the check: no positive limit, or spending still below it. */
  predicate MayProceed(maxBudget: real, currentSpend: real) {
    maxBudget <= 0.0 || currentSpend < maxBudget
  }

  datatype Spend = Spend(keyId: string, userId: string, teamId: string, orgId: string, cost: real)

  datatype Entity = Key | User | Team | Org

  function IdOf(s: Spend, e: Entity): string {
    match e
    case Key => s.keyId
    case User => s.userId
    case Team => s.teamId
    case Org => s.orgId
  }

  const ENTITIES: seq<Entity> := [Key, User, Team, Org]

  /** Cost the spend rows charge to one entity. */
  function Charged(log: seq<Spend>, e: Entity, id: string): real {
    if log == [] then 0.0
    else
      var s := log[|log| - 1];
      Charged(log[..|log| - 1], e, id) + if IdOf(s, e) == id then s.cost else 0.0
  }

  type Budgets = map<(Entity, string), Row>

  /** The effect of the updates for the first `n` entity types; empty ids are skipped. */
  ghost predicate Updated(before: Budgets, after: Budgets, s: Spend, n: nat) {
    && after.Keys == before.Keys
    && forall e: Entity, id: string :: (e, id) in before ==>
         after[(e, id)] == if (exists k :: 0 <= k < n && k < |ENTITIES| && ENTITIES[k] == e) && id != "" && IdOf(s, e) == id
                           then before[(e, id)].(currentSpend := before[(e, id)].currentSpend + s.cost)
                           else before[(e, id)]
  }

  ghost predicate Balanced(opening: Budgets, budgets: Budgets, log: seq<Spend>) {
    && budgets.Keys == opening.Keys
    && forall e: Entity, id: string :: (e, id) in budgets && id != "" ==>
         budgets[(e, id)].currentSpend == opening[(e, id)].currentSpend + Charged(log, e, id)
  }

  lemma SpendIsCharged(opening: Budgets, before: Budgets, after: Budgets, log: seq<Spend>, s: Spend)
    requires Balanced(opening, before, log) && Updated(before, after, s, 4)
    ensures Balanced(opening, after, log + [s])
  {
    assert (log + [s])[..|log|] == log;
    forall e: Entity, id: string | (e, id) in after && id != ""
      ensures after[(e, id)].currentSpend == opening[(e, id)].currentSpend + Charged(log + [s], e, id)
    {
      assert ENTITIES[0] == Key && ENTITIES[1] == User && ENTITIES[2] == Team && ENTITIES[3] == Org;
    }
  }

  /** In the spend's own fields: its key, user, team and organisation are charged, and nobody else. */
  lemma WhoIsCharged(before: Budgets, after: Budgets, s: Spend, e: Entity, id: string)
    requires Updated(before, after, s, 4) && (e, id) in before
    ensures var named := id != "" && ((e == Key && s.keyId == id) || (e == User && s.userId == id)
                                      || (e == Team && s.teamId == id) || (e == Org && s.orgId == id));
      && (e, id) in after
      && after[(e, id)].maxBudget == before[(e, id)].maxBudget
      && after[(e, id)].currentSpend == before[(e, id)].currentSpend + if named then s.cost else 0.0
  {
    assert ENTITIES[0] == Key && ENTITIES[1] == User && ENTITIES[2] == Team && ENTITIES[3] == Org;
  }

  class Ledger {
    var budgets: Budgets
    var log: seq<Spend>
    ghost var opening: Budgets

    /** Every counter is its opening value plus what the log charges to it. */
    ghost predicate Valid()
      reads this
    {
      Balanced(opening, budgets, log)
    }

    constructor (budgets: Budgets)
      ensures Valid() && this.budgets == budgets && log == []
    {
      this.budgets, log, opening := budgets, [], budgets;
    }

    /** Proceed if there is no row, no positive limit, or spending is still below it. */
    method CheckBudget(e: Entity, id: string) returns (ok: bool)
      ensures ok <==> (e, id) !in budgets || budgets[(e, id)].maxBudget <= 0.0
                      || budgets[(e, id)].currentSpend < budgets[(e, id)].maxBudget
    {
      if (e, id) !in budgets { return true; }
      if budgets[(e, id)].maxBudget <= 0.0 { return true; }
      return MayProceed(budgets[(e, id)].maxBudget, budgets[(e, id)].currentSpend);
    }

    /** One log row, and the same cost on each entity that has a budget row. */
    method RecordSpend(s: Spend)
      requires Valid()
      modifies this
      ensures Valid() && log == old(log) + [s] && opening == old(opening)
      ensures Updated(old(budgets), budgets, s, 4)
    {
      log := log + [s];
      for k := 0 to |ENTITIES|
        invariant log == old(log) + [s] && opening == old(opening)
        invariant Updated(old(budgets), budgets, s, k)
      {
        var e := ENTITIES[k];
        var id := IdOf(s, e);
        if id != "" && (e, id) in budgets {
          budgets := budgets[(e, id) := budgets[(e, id)].(currentSpend := budgets[(e, id)].currentSpend + s.cost)];
        }
      }
      SpendIsCharged(opening, old(budgets), budgets, old(log), s);
    }
  }

  // ---------------------------------------------------------------- overshoot

  /** One budget row and the requests that have passed the check and not yet recorded. */
  datatype State = State(spend: real, inFlight: nat)

  datatype Step = Admit | RecordCost(cost: real) | Abandon

  /** At most `slots` requests between check and record, none dearer than `dearest`. */
  datatype Limits = Limits(maxBudget: real, slots: nat, dearest: real)

  predicate Enabled(l: Limits, s: State, step: Step) {
    match step
    case Admit => s.inFlight < l.slots && MayProceed(l.maxBudget, s.spend)
    case RecordCost(cost) => s.inFlight > 0 && 0.0 <= cost <= l.dearest
    case Abandon => s.inFlight > 0
  }

  function Apply(s: State, step: Step): State
    requires step.Admit? || s.inFlight > 0
  {
    match step
    case Admit => s.(inFlight := s.inFlight + 1)
    case RecordCost(cost) => State(s.spend + cost, s.inFlight - 1)
    case Abandon => s.(inFlight := s.inFlight - 1)
  }

  function Run(l: Limits, steps: seq<Step>): Option<State> {
    if steps == [] then Some(State(0.0, 0))
    else
      var before := Run(l, steps[..|steps| - 1]);
      if before.None? || !Enabled(l, before.value, steps[|steps| - 1]) then None
      else Some(Apply(before.value, steps[|steps| - 1]))
  }

  /** What the budget could still be charged by `n` requests. */
  function Cost(n: nat, each: real): real {
    if n == 0 then 0.0 else Cost(n - 1, each) + each
  }

  lemma {:induction false} CostIsProduct(n: nat, each: real)
    ensures Cost(n, each) == n as real * each
  {
    if n > 0 {
      CostIsProduct(n - 1, each);
      assert n as real * each == (n - 1) as real * each + each;
    }
  }

  lemma {:induction false} CostIsMonotone(n: nat, m: nat, each: real)
    requires n <= m && each >= 0.0
    ensures Cost(n, each) <= Cost(m, each)
  {
    if n < m {
      CostIsMonotone(n, m - 1, each);
    }
  }

  /**
   * In every interleaving, what is spent plus what is in flight stays below the budget plus
   * one full round of the dearest requests.
   */
  lemma {:induction false} OvershootIsBounded(l: Limits, steps: seq<Step>)
    requires l.maxBudget > 0.0 && l.dearest >= 0.0 && Run(l, steps).Some?
    ensures var s := Run(l, steps).value;
      s.spend + Cost(s.inFlight, l.dearest) < l.maxBudget + Cost(l.slots, l.dearest)
      && 0.0 <= s.spend && s.inFlight <= l.slots
  {
    if steps == [] {
      CostIsMonotone(0, l.slots, l.dearest);
    } else {
      var n := |steps| - 1;
      OvershootIsBounded(l, steps[..n]);
      var s := Run(l, steps[..n]).value;
      if steps[n].Admit? {
        CostIsMonotone(s.inFlight + 1, l.slots, l.dearest);
      }
    }
  }

  lemma InProducts(l: Limits, s: State)
    requires s.spend + Cost(s.inFlight, l.dearest) < l.maxBudget + Cost(l.slots, l.dearest)
    ensures s.spend + s.inFlight as real * l.dearest < l.maxBudget + l.slots as real * l.dearest
  {
    CostIsProduct(s.inFlight, l.dearest);
    CostIsProduct(l.slots, l.dearest);
  }

  /** In products: current_spend + inflight * c < max_budget + K * c. */
  lemma OvershootInNumbers(l: Limits, steps: seq<Step>)
    requires l.maxBudget > 0.0 && l.dearest >= 0.0 && Run(l, steps).Some?
    ensures var s := Run(l, steps).value;
      s.spend + s.inFlight as real * l.dearest < l.maxBudget + l.slots as real * l.dearest
  {
    OvershootIsBounded(l, steps);
    InProducts(l, Run(l, steps).value);
  }

  lemma OneMore(l: Limits, steps: seq<Step>, step: Step) returns (more: seq<Step>)
    requires Run(l, steps).Some? && Enabled(l, Run(l, steps).value, step)
    ensures more == steps + [step] && Run(l, more) == Some(Apply(Run(l, steps).value, step))
  {
    more := steps + [step];
    assert more[..|steps|] == steps;
  }

  lemma {:induction false} AdmitAll(l: Limits, steps: seq<Step>, n: nat) returns (more: seq<Step>)
    requires Run(l, steps).Some? && Run(l, steps).value.spend < l.maxBudget
    requires Run(l, steps).value.inFlight + n <= l.slots
    ensures Run(l, more) == Some(State(Run(l, steps).value.spend, Run(l, steps).value.inFlight + n))
    decreases n
  {
    if n == 0 {
      more := steps;
    } else {
      more := OneMore(l, steps, Admit);
      more := AdmitAll(l, more, n - 1);
    }
  }

  /** Requests in flight can record any amount up to the dearest each. */
  lemma {:induction false} RecordSum(l: Limits, steps: seq<Step>, sum: real) returns (more: seq<Step>)
    requires l.dearest >= 0.0 && Run(l, steps).Some?
    requires 0.0 <= sum <= Cost(Run(l, steps).value.inFlight, l.dearest)
    ensures Run(l, more) == Some(State(Run(l, steps).value.spend + sum, 0))
    decreases Run(l, steps).value.inFlight
  {
    if Run(l, steps).value.inFlight == 0 {
      more := steps;
    } else {
      var cost := if sum <= l.dearest then sum else l.dearest;
      CostIsMonotone(0, Run(l, steps).value.inFlight - 1, l.dearest);
      more := OneMore(l, steps, RecordCost(cost));
      more := RecordSum(l, more, sum - cost);
    }
  }

  /** One request after the other, `rounds` of them at most: any amount below the budget can be spent. */
  lemma {:induction false} SpendUpTo(l: Limits, amount: real, rounds: nat) returns (steps: seq<Step>)
    requires l.slots > 0 && l.dearest > 0.0 && 0.0 <= amount < l.maxBudget && amount <= Cost(rounds, l.dearest)
    ensures Run(l, steps) == Some(State(amount, 0))
    decreases rounds
  {
    if amount == 0.0 {
      steps := [];
    } else {
      var cost := if amount <= l.dearest then amount else l.dearest;
      CostIsMonotone(0, rounds - 1, l.dearest);
      steps := SpendUpTo(l, amount - cost, rounds - 1);
      steps := OneMore(l, steps, Admit);
      steps := OneMore(l, steps, RecordCost(cost));
    }
  }

  /** Enough requests cost any amount. */
  lemma EnoughRounds(amount: real, each: real) returns (rounds: nat)
    requires each > 0.0 && amount >= 0.0
    ensures amount <= Cost(rounds, each)
  {
    var ratio := amount / each;
    rounds := ratio.Floor + 1;
    CostIsProduct(rounds, each);
    assert amount == ratio * each;
    ScaleUp(ratio, rounds as real, each);
  }

  lemma ScaleUp(a: real, b: real, each: real)
    requires a <= b && each > 0.0
    ensures a * each <= b * each
  {
    assert (b - a) * each >= 0.0;
  }

  /** Any spending below the budget can be topped by a full round of the dearest requests. */
  lemma OvershootIsReached(l: Limits, first: real) returns (steps: seq<Step>)
    requires l.slots > 0 && l.dearest > 0.0 && 0.0 <= first < l.maxBudget
    ensures Run(l, steps) == Some(State(first + Cost(l.slots, l.dearest), 0))
  {
    CostIsMonotone(0, l.slots, l.dearest);
    steps := ReachAbove(l, first, Cost(l.slots, l.dearest));
  }

  lemma ReachAbove(l: Limits, first: real, more: real) returns (steps: seq<Step>)
    requires l.slots > 0 && l.dearest > 0.0 && 0.0 <= first < l.maxBudget && 0.0 <= more <= Cost(l.slots, l.dearest)
    ensures Run(l, steps) == Some(State(first + more, 0))
  {
    var rounds := EnoughRounds(first, l.dearest);
    steps := SpendUpTo(l, first, rounds);
    steps := AdmitAll(l, steps, l.slots);
    steps := RecordSum(l, steps, more);
  }

  /**
   * The bound is exact: with nothing in flight, the amounts that can have been spent are
   * exactly those from zero up to, and not including, the budget plus a full round.
   */
  lemma SpendsReachedExactly(l: Limits, amount: real)
    requires l.maxBudget > 0.0 && l.slots > 0 && l.dearest > 0.0
    ensures (exists steps :: Run(l, steps) == Some(State(amount, 0)))
            <==> 0.0 <= amount < l.maxBudget + Cost(l.slots, l.dearest)
  {
    var round := Cost(l.slots, l.dearest);
    CostIsMonotone(0, l.slots, l.dearest);
    if 0.0 <= amount < l.maxBudget + round {
      var first := if amount <= round then 0.0 else amount - round;
      var steps := ReachAbove(l, first, amount - first);
    }
    if steps :| Run(l, steps) == Some(State(amount, 0)) {
      OvershootIsBounded(l, steps);
    }
  }

  /** Without a positive budget any amount at all can be spent. */
  lemma {:induction false} NoBudgetNoBound(l: Limits, amount: real, rounds: nat) returns (steps: seq<Step>)
    requires l.maxBudget <= 0.0 && l.slots > 0 && l.dearest > 0.0 && 0.0 <= amount <= Cost(rounds, l.dearest)
    ensures Run(l, steps) == Some(State(amount, 0))
    decreases rounds
  {
    if amount == 0.0 {
      steps := [];
    } else {
      var cost := if amount <= l.dearest then amount else l.dearest;
      CostIsMonotone(0, rounds - 1, l.dearest);
      steps := NoBudgetNoBound(l, amount - cost, rounds - 1);
      steps := OneMore(l, steps, Admit);
      steps := OneMore(l, steps, RecordCost(cost));
    }
  }

  /** So spending is bounded exactly when there is a positive budget. */
  lemma SpendIsBoundedIff(l: Limits)
    requires l.slots > 0 && l.dearest > 0.0
    ensures (exists bound: real :: Bounds(l, bound)) <==> l.maxBudget > 0.0
  {
    if l.maxBudget > 0.0 {
      var bound := l.maxBudget + Cost(l.slots, l.dearest);
      forall steps: seq<Step> | Run(l, steps).Some? ensures Run(l, steps).value.spend < bound {
        OvershootIsBounded(l, steps);
        CostIsMonotone(0, Run(l, steps).value.inFlight, l.dearest);
      }
      assert Bounds(l, bound);
    } else {
      forall bound: real ensures !Bounds(l, bound) {
        var amount := if bound < 0.0 then 0.0 else bound;
        var rounds := EnoughRounds(amount, l.dearest);
        var steps := NoBudgetNoBound(l, amount, rounds);
        assert Run(l, steps).value.spend >= bound;
      }
    }
  }

  ghost predicate Bounds(l: Limits, bound: real) {
    forall steps: seq<Step> :: Run(l, steps).Some? ==> Run(l, steps).value.spend < bound
  }
}
