/** Round-robin and weighted selection over a 64-bit counter. */
module Strategy {
  import opened Wrappers
  import opened Words

  datatype Deployment = Deployment(id: string, weight: int)

  /** The override if there is one, otherwise the deployment's own weight; never below one. */
  function Weight(d: Deployment, overrides: map<string, int>): (w: nat)
    ensures w >= 1
  {
    var w := if d.id in overrides then overrides[d.id] else d.weight;
    if w <= 0 then 1 else w
  }

  /** Position of each deployment, repeated by its weight. */
  function Slots(ds: seq<Deployment>, overrides: map<string, int>): seq<nat> {
    if ds == [] then []
    else
      var n := |ds| - 1;
      Slots(ds[..n], overrides) + seq(Weight(ds[n], overrides), _ => n)
  }

  /** The 64-bit counter after one more Add. */
  function Next(counter: nat): nat {
    if counter + 1 >= TWO64 then 0 else counter + 1
  }

  lemma NextWraps(counter: nat)
    requires counter < TWO64
    ensures Next(counter) == (counter + 1) % TWO64 < TWO64
  {
  }

  /** The slot the counter points at. */
  function At(slots: seq<nat>, counter: nat): nat
    requires slots != []
  {
    slots[counter % |slots|]
  }

  method BuildSlots(ds: seq<Deployment>, weights: map<string, int>) returns (slots: seq<nat>)
    ensures slots == Slots(ds, weights)
  {
    slots := [];
    for i := 0 to |ds|
      invariant slots == Slots(ds[..i], weights)
    {
      assert ds[..i + 1][..i] == ds[..i];
      var w := ds[i].weight;
      if ds[i].id in weights { w := weights[ds[i].id]; }
      if w <= 0 { w := 1; }
      ghost var before := slots;
      for k := 0 to w
        invariant slots == before + seq(k, _ => i)
      {
        slots := slots + [i];
      }
    }
    assert ds[..|ds|] == ds;
  }

  class WeightedStrategy {
    const weights: map<string, int>
    var counter: nat

    ghost predicate Valid()
      reads this
    {
      counter < TWO64
    }

    constructor (weights: map<string, int>)
      ensures Valid() && counter == 0 && this.weights == weights
    {
      this.weights, counter := weights, 0;
    }

    /** Takes the slot the counter points at and advances the counter, wrapping at 2^64. */
    method Select(ds: seq<Deployment>) returns (r: Option<nat>)
      requires Valid()
      modifies this
      ensures Valid()
      ensures ds == [] ==> r == None && counter == old(counter)
      ensures ds != [] ==> Slots(ds, weights) != []
      ensures ds != [] ==> r == Some(Slots(ds, weights)[old(counter) % |Slots(ds, weights)|])
      ensures ds != [] ==> counter == (old(counter) + 1) % TWO64
    {
      if |ds| == 0 { return None; }
      SlotsNotEmpty(ds, weights);
      var slots := BuildSlots(ds, weights);
      var idx := counter;
      NextWraps(counter);
      counter := Next(counter);
      r := Some(slots[idx % |slots|]);
    }

    /** `n` selections in a row on an unchanged list. */
    method SelectMany(ds: seq<Deployment>, n: nat) returns (picks: seq<nat>)
      requires Valid() && ds != []
      modifies this
      ensures Valid() && Slots(ds, weights) != []
      ensures picks == Picks(Slots(ds, weights), old(counter), n)
    {
      SlotsNotEmpty(ds, weights);
      picks := [];
      for j := 0 to n
        invariant Valid() && counter == CounterAfter(old(counter), j)
        invariant picks == Picks(Slots(ds, weights), old(counter), j)
      {
        NextWraps(counter);
        var r := Select(ds);
        picks := picks + [r.value];
      }
    }
  }

  class RoundRobinStrategy {
    var counter: nat

    constructor ()
      ensures counter == 0
    {
      counter := 0;
    }

    method Select(count: nat) returns (r: Option<nat>)
      requires counter < TWO64
      modifies this
      ensures counter < TWO64
      ensures count == 0 ==> r == None && counter == old(counter)
      ensures count > 0 ==> r == Some(old(counter) % count) && counter == (old(counter) + 1) % TWO64
    {
      if count == 0 { return None; }
      var idx := counter;
      NextWraps(counter);
      counter := Next(counter);
      r := Some(idx % count);
    }
  }

  lemma SlotsNotEmpty(ds: seq<Deployment>, overrides: map<string, int>)
    requires ds != []
    ensures Slots(ds, overrides) != []
  {
    assert |Slots(ds, overrides)| >= Weight(ds[|ds| - 1], overrides);
  }

  /** Slots follow the order of the list; with `SlotsByWeight` that fixes them. */
  lemma {:induction false} SlotsInOrder(ds: seq<Deployment>, overrides: map<string, int>)
    ensures forall k :: 0 <= k < |Slots(ds, overrides)| ==> Slots(ds, overrides)[k] < |ds|
    ensures forall j, k :: 0 <= j < k < |Slots(ds, overrides)| ==> Slots(ds, overrides)[j] <= Slots(ds, overrides)[k]
  {
    if ds != [] {
      SlotsInOrder(ds[..|ds| - 1], overrides);
    }
  }

  // ---------------------------------------------------------------- fairness

  function CounterAfter(c: nat, n: nat): nat {
    if n == 0 then c else Next(CounterAfter(c, n - 1))
  }

  /** What `n` selections return when the counter starts at `c`. */
  function Picks(slots: seq<nat>, c: nat, n: nat): (r: seq<nat>)
    requires slots != []
    ensures |r| == n
  {
    if n == 0 then [] else Picks(slots, c, n - 1) + [At(slots, CounterAfter(c, n - 1))]
  }

  /** The same for a counter that never wraps. */
  function Around(slots: seq<nat>, c: nat, n: nat): seq<nat>
    requires slots != []
  {
    seq<nat>(n, (j: nat) => At(slots, c + j))
  }

  lemma {:induction false} CounterIs(c: nat, n: nat)
    requires c < TWO64
    ensures CounterAfter(c, n) == (c + n) % TWO64 < TWO64
    ensures c + n < TWO64 ==> CounterAfter(c, n) == c + n
  {
    if n > 0 {
      CounterIs(c, n - 1);
    }
  }

  lemma {:induction false} RepeatedCount(x: nat, w: nat, i: nat)
    ensures multiset(seq(w, _ => x))[i] == if x == i then w else 0
  {
    if w > 0 {
      RepeatedCount(x, w - 1, i);
      assert seq(w, _ => x) == seq(w - 1, _ => x) + [x];
    }
  }

  /** Each deployment owns as many slots as its weight. */
  lemma {:induction false} SlotsByWeight(ds: seq<Deployment>, overrides: map<string, int>, i: nat)
    ensures multiset(Slots(ds, overrides))[i] == if i < |ds| then Weight(ds[i], overrides) else 0
  {
    if ds != [] {
      var n := |ds| - 1;
      SlotsByWeight(ds[..n], overrides, i);
      RepeatedCount(n, Weight(ds[n], overrides), i);
    }
  }

  lemma SameSlot(slots: seq<nat>, c: nat)
    requires slots != []
    ensures At(slots, c + |slots|) == At(slots, c)
  {
    var w := |slots|;
    QuotientIs(c + w, w, c / w + 1, c % w);
  }

  lemma QuotientIs(x: int, w: int, q: int, r: int)
    requires w > 0 && 0 <= r < w && x == q * w + r
    ensures x / w == q && x % w == r
  {
    var d := q - x / w;
    assert d * w == x % w - r;
    assert d >= 1 ==> d * w >= w;
    assert d <= -1 ==> d * w <= -w;
  }

  lemma Rotate(before: seq<nat>, after: seq<nat>)
    requires |before| == |after| > 0 && before[1..] == after[..|after| - 1] && after[|after| - 1] == before[0]
    ensures multiset(before) == multiset(after)
  {
    assert before == [before[0]] + before[1..];
    assert after == after[..|after| - 1] + [after[|after| - 1]];
  }

  /** Any |slots| consecutive positions cover every slot once, wherever they start. */
  lemma {:induction false} OneRound(slots: seq<nat>, c: nat)
    requires slots != []
    ensures multiset(Around(slots, c, |slots|)) == multiset(slots)
  {
    if c == 0 {
      forall j | 0 <= j < |slots| ensures At(slots, j) == slots[j] {
        QuotientIs(j, |slots|, 0, j);
      }
      assert Around(slots, 0, |slots|) == slots;
    } else {
      OneRound(slots, c - 1);
      SameSlot(slots, c - 1);
      Rotate(Around(slots, c - 1, |slots|), Around(slots, c, |slots|));
    }
  }

  lemma AroundSplits(slots: seq<nat>, c: nat, n: nat, m: nat)
    requires slots != []
    ensures Around(slots, c, n + m) == Around(slots, c, n) + Around(slots, c + n, m)
  {
  }

  /** k * x, one round at a time (`TimesIsProduct`). */
  function Times(k: nat, x: nat): nat {
    if k == 0 then 0 else x + Times(k - 1, x)
  }

  lemma {:induction false} TimesIsProduct(k: nat, x: nat)
    ensures Times(k, x) == k * x
  {
    if k > 0 {
      TimesIsProduct(k - 1, x);
      assert k * x == x + (k - 1) * x;
    }
  }

  lemma {:induction false} ManyRounds(slots: seq<nat>, c: nat, k: nat, i: nat)
    requires slots != []
    ensures multiset(Around(slots, c, Times(k, |slots|)))[i] == Times(k, multiset(slots)[i])
    decreases k
  {
    if k > 0 {
      ManyRounds(slots, c + |slots|, k - 1, i);
      OneRound(slots, c);
      AroundSplits(slots, c, |slots|, Times(k - 1, |slots|));
    }
  }

  lemma WrapIsHarmless(x: nat, w: nat)
    requires w > 0 && TWO64 % w == 0
    ensures x % TWO64 % w == x % w
  {
    DropMultiples(x, x / TWO64, x % TWO64, TWO64, TWO64 / w, w);
  }

  lemma DropMultiples(x: nat, k: nat, r: nat, m: nat, q: nat, w: nat)
    requires w > 0 && x == k * m + r && m == q * w
    ensures x % w == r % w
  {
    assert k * (q * w) == (k * q) * w;
    AddMultiple(r, k * q, w);
  }

  lemma AddMultiple(y: nat, q: nat, w: nat)
    requires w > 0
    ensures (y + q * w) % w == y % w
  {
    assert (y / w + q) * w == y / w * w + q * w;
    QuotientIs(y + q * w, w, y / w + q, y % w);
  }

  lemma SlotAfter(slots: seq<nat>, c: nat, n: nat)
    requires slots != [] && c < TWO64 && (c + n < TWO64 || TWO64 % |slots| == 0)
    ensures At(slots, CounterAfter(c, n)) == At(slots, c + n)
  {
    CounterIs(c, n);
    if TWO64 % |slots| == 0 {
      WrapIsHarmless(c + n, |slots|);
    }
  }

  lemma {:induction false} PicksAreAround(slots: seq<nat>, c: nat, n: nat)
    requires slots != [] && c < TWO64 && WrapFree(slots, c, n)
    ensures Picks(slots, c, n) == Around(slots, c, n)
  {
    if n > 0 {
      PicksAreAround(slots, c, n - 1);
      SlotAfter(slots, c, n - 1);
    }
  }

  /** The run stays below the wrap, or the wrap falls between two rounds. */
  predicate WrapFree(slots: seq<nat>, c: nat, n: nat)
    requires slots != []
  {
    c + n <= TWO64 || TWO64 % |slots| == 0
  }

  /**
   * Weighted fairness: from any counter value, k * W consecutive selections on an unchanged
   * list of total weight W choose each deployment exactly k times its weight.
   */
  lemma WeightedFairness(ds: seq<Deployment>, overrides: map<string, int>, c: nat, k: nat, i: nat)
    requires i < |ds| && c < TWO64 && Slots(ds, overrides) != []
    requires WrapFree(Slots(ds, overrides), c, k * |Slots(ds, overrides)|)
    ensures multiset(Picks(Slots(ds, overrides), c, k * |Slots(ds, overrides)|))[i] == k * Weight(ds[i], overrides)
  {
    PicksAreAround(Slots(ds, overrides), c, k * |Slots(ds, overrides)|);
    ManyRounds(Slots(ds, overrides), c, k, i);
    TimesIsProduct(k, |Slots(ds, overrides)|);
    TimesIsProduct(k, Weight(ds[i], overrides));
    SlotsByWeight(ds, overrides, i);
  }

  /** What a deployment is entitled to in k rounds: its positive override, else its own positive weight, else one. */
  lemma FairShares(ds: seq<Deployment>, overrides: map<string, int>, c: nat, k: nat, i: nat)
    requires i < |ds| && c < TWO64 && Slots(ds, overrides) != []
    requires WrapFree(Slots(ds, overrides), c, k * |Slots(ds, overrides)|)
    ensures var picks := multiset(Picks(Slots(ds, overrides), c, k * |Slots(ds, overrides)|))[i];
      var d := ds[i];
      && (d.id in overrides && overrides[d.id] > 0 ==> picks == k * overrides[d.id])
      && (d.id in overrides && overrides[d.id] <= 0 ==> picks == k)
      && (d.id !in overrides && d.weight > 0 ==> picks == k * d.weight)
      && (d.id !in overrides && d.weight <= 0 ==> picks == k)
  {
    WeightedFairness(ds, overrides, c, k, i);
  }

  // ---------------------------------------------------------------- round robin

  function UpTo(n: nat): seq<nat> {
    seq(n, j requires j >= 0 => j)
  }

  /** Round robin is the weighted strategy with all weights one. */
  lemma {:induction false} RoundRobinIsAllOnes(ds: seq<Deployment>)
    requires forall i :: 0 <= i < |ds| ==> ds[i].weight == 1
    ensures Slots(ds, map[]) == UpTo(|ds|)
  {
    if ds != [] {
      var n := |ds| - 1;
      RoundRobinIsAllOnes(ds[..n]);
      assert UpTo(n + 1) == UpTo(n) + [n];
      assert seq(1, _ => n) == [n];
    }
  }

  /** One round over `n` deployments, starting at counter `c`, picks each of them once. */
  ghost predicate FairRound(n: nat, c: nat)
    requires n > 0
  {
    multiset(Picks(UpTo(n), c, n)) == multiset(UpTo(n))
  }

  lemma {:induction false} AbsentCount(s: seq<nat>, x: nat)
    requires x !in s
    ensures multiset(s)[x] == 0
  {
  }

  /** Every round is fair, also across the wrap of the counter, exactly when n divides 2^64. */
  lemma RoundRobinFairIff(n: nat)
    requires 0 < n < TWO64
    ensures (forall c: nat :: c < TWO64 ==> FairRound(n, c)) <==> TWO64 % n == 0
  {
    if TWO64 % n == 0 {
      forall c: nat | c < TWO64 ensures FairRound(n, c) {
        PicksAreAround(UpTo(n), c, n);
        OneRound(UpTo(n), c);
      }
    } else {
      UnfairRound(n);
    }
  }

  /** After the wrap the picks start over at the first deployment. */
  lemma {:induction false} PicksAfterWrap(n: nat, m: nat)
    requires 0 < n < TWO64 && 0 < m <= n && TWO64 % n != 0
    ensures n - 1 !in Picks(UpTo(n), TWO64 - 1, m)
    ensures CounterAfter(TWO64 - 1, m) == m - 1
  {
    if m == 1 {
      assert Picks(UpTo(n), TWO64 - 1, 0) == [];
      assert CounterAfter(TWO64 - 1, 0) == TWO64 - 1;
      QuotientIs(TWO64 - 1, n, TWO64 / n, TWO64 % n - 1);
    } else {
      PicksAfterWrap(n, m - 1);
      QuotientIs(m - 2, n, 0, m - 2);
    }
  }

  /** The round that starts at the last counter value skips the last deployment. */
  lemma UnfairRound(n: nat)
    requires 0 < n < TWO64 && TWO64 % n != 0
    ensures !FairRound(n, TWO64 - 1)
  {
    PicksAfterWrap(n, n);
    AbsentCount(Picks(UpTo(n), TWO64 - 1, n), n - 1);
    assert UpTo(n)[n - 1] == n - 1;
    assert n - 1 in multiset(UpTo(n));
  }
}
