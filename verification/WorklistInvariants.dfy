/**
 What every step of the work-list keeps: the increments queued for a lot add up to its recorded
 amount, and each amount is bounded by (with no cut-off: equal to) the capped sum of what reached it.
 */
module WorklistInvariants {
  import opened Sums
  import opened TraceGraphs
  import opened Worklists

  // ----- the bookkeeping invariant

  /** All increments ever queued for a lot. */
  function Queued(queue: seq<Item>, id: LotId): real {
    if queue == [] then 0.0
    else
      var last := queue[|queue| - 1];
      Queued(queue[..|queue| - 1], id) + if last.lot == id then last.delta else 0.0
  }

  /** An increment larger than its lot acts as the whole lot. */
  function Effective(n: Network, item: Item): real {
    Min(item.delta, QuantityOf(n, item.lot))
  }

  /** What a prefix of the queue passes on from a lot. */
  function GivenTo(n: Network, queue: seq<Item>, id: LotId): real {
    if queue == [] then 0.0
    else
      var last := queue[|queue| - 1];
      GivenTo(n, queue[..|queue| - 1], id) + if last.lot == id then Effective(n, last) else 0.0
  }

  function Given(n: Network, queue: seq<Item>): LotId -> real {
    (id: LotId) => GivenTo(n, queue, id)
  }

  /** The recorded amount, at most the whole lot. */
  function Capped(n: Network, w: Work, id: LotId): real {
    Min(AmountAt(w.amount, id), QuantityOf(n, id))
  }

  /** Queue and amount of a lot tell the same story. */
  ghost predicate AccountAt(n: Network, amount: map<LotId, real>, queue: seq<Item>, id: LotId) {
    Queued(queue, id) == AmountAt(amount, id) && GivenTo(n, queue, id) == Min(AmountAt(amount, id), QuantityOf(n, id))
  }

  ghost predicate Accounts(n: Network, amount: map<LotId, real>, queue: seq<Item>) {
    forall id {:trigger AccountAt(n, amount, queue, id)} :: AccountAt(n, amount, queue, id)
  }

  ghost predicate Consistent(n: Network, w: Work) {
    && w.amount.Keys == w.depth.Keys == w.basis.Keys
    && w.amount.Keys <= n.quantity.Keys
    && (forall id | id in w.amount :: w.amount[id] > 0.0)
    && (forall item | item in w.queue :: item.lot in w.amount && item.delta > 0.0)
    && Accounts(n, w.amount, w.queue)
  }

  ghost predicate StartsAt(n: Network, seeds: seq<Seed>, w: Work, id: LotId) {
    Capped(n, w, id) == Min(QuantityOf(n, id), Seeded(seeds, id))
  }

  /** A start that holds exactly the seeds, each lot capped at its quantity. */
  ghost predicate ProperStart(n: Network, seeds: seq<Seed>, w: Work) {
    && Consistent(n, w)
    && (forall id :: id in w.amount <==> IsSeed(seeds, id))
    && (forall id {:trigger StartsAt(n, seeds, w, id)} | id in n.quantity :: StartsAt(n, seeds, w, id))
    && (forall item | item in w.queue :: item.depth == 0)
    && (forall id | id in w.depth :: w.depth[id] == 0)
  }

  lemma QueuedSnoc(queue: seq<Item>, item: Item, id: LotId)
    ensures Queued(queue + [item], id) == Queued(queue, id) + if item.lot == id then item.delta else 0.0
  {
    assert (queue + [item])[..|queue|] == queue;
  }

  lemma GivenSnoc(n: Network, queue: seq<Item>, item: Item, id: LotId)
    ensures GivenTo(n, queue + [item], id) == GivenTo(n, queue, id) + if item.lot == id then Effective(n, item) else 0.0
  {
    assert (queue + [item])[..|queue|] == queue;
  }

  /** Recording an increment that still fits its lot keeps the accounts. */
  lemma AppendAccounts(n: Network, amount: map<LotId, real>, queue: seq<Item>, item: Item)
    requires Accounts(n, amount, queue)
    requires 0.0 <= AmountAt(amount, item.lot)
    requires 0.0 < item.delta <= QuantityOf(n, item.lot) - AmountAt(amount, item.lot)
    ensures Accounts(n, amount[item.lot := AmountAt(amount, item.lot) + item.delta], queue + [item])
  {
    var amount' := amount[item.lot := AmountAt(amount, item.lot) + item.delta];
    forall id ensures AccountAt(n, amount', queue + [item], id) {
      assert AccountAt(n, amount, queue, id);
      QueuedSnoc(queue, item, id);
      GivenSnoc(n, queue, item, id);
    }
  }

  lemma AccountOf(n: Network, w: Work, id: LotId)
    requires Consistent(n, w)
    ensures Queued(w.queue, id) == AmountAt(w.amount, id) && GivenTo(n, w.queue, id) == Capped(n, w, id)
  {
    assert AccountAt(n, w.amount, w.queue, id);
  }

  lemma StartOf(n: Network, seeds: seq<Seed>, w: Work, id: LotId)
    requires ProperStart(n, seeds, w) && id in n.quantity
    ensures Capped(n, w, id) == Min(n.quantity[id], Seeded(seeds, id))
  {
    assert StartsAt(n, seeds, w, id);
  }

  /** `item` recorded, with any depth and bases for its lot. */
  function Recorded(w: Work, item: Item, depth: nat, basis: set<Basis>): Work {
    Work(w.amount[item.lot := AmountAt(w.amount, item.lot) + item.delta], w.depth[item.lot := depth], w.basis[item.lot := basis], w.queue + [item])
  }

  lemma RecordedConsistent(n: Network, w: Work, item: Item, depth: nat, basis: set<Basis>)
    requires Consistent(n, w) && item.lot in n.quantity
    requires 0.0 < item.delta <= QuantityOf(n, item.lot) - AmountAt(w.amount, item.lot)
    ensures Consistent(n, Recorded(w, item, depth, basis))
  {
    var v := Recorded(w, item, depth, basis);
    AppendAccounts(n, w.amount, w.queue, item);
    assert v.amount.Keys == w.amount.Keys + {item.lot};
    forall i | i in v.queue ensures i.lot in v.amount && i.delta > 0.0 {
      if i != item { assert i in w.queue; }
    }
  }

  lemma OfferConsistent(n: Network, dir: Direction, eps: real, cur: Item, e: Edge, asked: real, w: Work)
    requires ValidNetwork(n) && e in n.edges && eps >= 0.0 && Consistent(n, w)
    ensures Consistent(n, Offer(n, dir, eps, cur, e, asked, w))
  {
    var v := Offer(n, dir, eps, cur, e, asked, w);
    if v != w {
      var item := v.queue[|w.queue|];
      assert ValidEdge(n.quantity, e);
      RecordedConsistent(n, w, item, v.depth[item.lot], v.basis[item.lot]);
    }
  }

  /** A lot has an amount exactly when something was queued for it. */
  lemma {:induction false} QueuedHasItem(queue: seq<Item>, id: LotId)
    requires Queued(queue, id) != 0.0
    ensures exists item :: item in queue && item.lot == id
  {
    var last := queue[|queue| - 1];
    if last.lot == id {
      assert last in queue;
    } else {
      QueuedHasItem(queue[..|queue| - 1], id);
    }
  }

  lemma {:induction false} PushEdgesConsistent(n: Network, dir: Direction, eps: real, cur: Item, es: seq<Edge>, w: Work)
    requires ValidNetwork(n) && (forall e | e in es :: e in n.edges) && eps >= 0.0 && Consistent(n, w)
    ensures Consistent(n, PushEdges(n, dir, eps, cur, es, w))
  {
    if es != [] {
      var init, e := es[..|es| - 1], es[|es| - 1];
      PushEdgesConsistent(n, dir, eps, cur, init, w);
      OfferConsistent(n, dir, eps, cur, e, Requested(n, dir, e, cur.delta), PushEdges(n, dir, eps, cur, init, w));
    }
  }

  lemma RunItemConsistent(n: Network, dir: Direction, eps: real, cur: Item, w: Work)
    requires ValidNetwork(n) && eps >= 0.0 && Consistent(n, w)
    ensures Consistent(n, RunItem(n, dir, eps, cur, w))
  {
    OutMembers(dir, n.edges, cur.lot);
    PushEdgesConsistent(n, dir, eps, cur, Out(dir, n.edges, cur.lot), w);
  }

  lemma {:induction false} RunConsistent(n: Network, dir: Direction, eps: real, start: Work, k: nat)
    requires ValidNetwork(n) && eps >= 0.0 && Consistent(n, start)
    ensures Consistent(n, Run(n, dir, eps, start, k))
  {
    if k > 0 {
      RunConsistent(n, dir, eps, start, k - 1);
      var w := Run(n, dir, eps, start, k - 1);
      if k - 1 < |w.queue| { RunItemConsistent(n, dir, eps, w.queue[k - 1], w); }
    }
  }

  /** Nothing already recorded is taken back: the queue, the set of lots and their bases only grow. */
  ghost predicate Grows(w: Work, v: Work) {
    && w.queue <= v.queue
    && w.amount.Keys <= v.amount.Keys
    && forall id :: BasisAt(w.basis, id) <= BasisAt(v.basis, id)
  }

  lemma GrowsOn(u: Work, w: Work, v: Work)
    requires Grows(u, w) && Grows(w, v)
    ensures Grows(u, v)
  {
    forall id ensures BasisAt(u.basis, id) <= BasisAt(v.basis, id) {
      assert BasisAt(u.basis, id) <= BasisAt(w.basis, id);
    }
  }

  lemma {:induction false} PushEdgesGrows(n: Network, dir: Direction, eps: real, cur: Item, es: seq<Edge>, w: Work)
    requires ValidNetwork(n) && forall e | e in es :: e in n.edges
    ensures Grows(w, PushEdges(n, dir, eps, cur, es, w))
  {
    if es != [] { PushEdgesGrows(n, dir, eps, cur, es[..|es| - 1], w); }
  }

  lemma RunItemGrows(n: Network, dir: Direction, eps: real, cur: Item, w: Work)
    requires ValidNetwork(n)
    ensures Grows(w, RunItem(n, dir, eps, cur, w))
  {
    OutMembers(dir, n.edges, cur.lot);
    PushEdgesGrows(n, dir, eps, cur, Out(dir, n.edges, cur.lot), w);
  }

  lemma {:induction false} RunGrows(n: Network, dir: Direction, eps: real, start: Work, j: nat, k: nat)
    requires ValidNetwork(n) && j <= k
    ensures Grows(Run(n, dir, eps, start, j), Run(n, dir, eps, start, k))
    decreases k
  {
    if j < k {
      var w := Run(n, dir, eps, start, k - 1);
      RunGrows(n, dir, eps, start, j, k - 1);
      if k - 1 < |w.queue| {
        RunItemGrows(n, dir, eps, w.queue[k - 1], w);
        GrowsOn(Run(n, dir, eps, start, j), w, RunItem(n, dir, eps, w.queue[k - 1], w));
      }
    }
  }

  lemma NothingLeft(n: Network, dir: Direction, eps: real, start: Work, k: nat, w: Work)
    requires ValidNetwork(n) && k > 0 && w == Run(n, dir, eps, start, k - 1) && |w.queue| < k
    ensures Run(n, dir, eps, start, k) == w
  {
  }

  lemma {:induction false} RunStaysAt(n: Network, dir: Direction, eps: real, start: Work, j: nat, k: nat, w: Work)
    requires ValidNetwork(n) && w == Run(n, dir, eps, start, j) && |w.queue| == j && j <= k
    ensures Run(n, dir, eps, start, k) == w
    decreases k
  {
    if j < k {
      RunStaysAt(n, dir, eps, start, j, k - 1, w);
      NothingLeft(n, dir, eps, start, k, w);
    }
  }

  /** Once finished, further steps change nothing; two finished runs agree. */
  lemma RunStops(n: Network, dir: Direction, eps: real, start: Work, j: nat, k: nat)
    requires ValidNetwork(n) && Finished(n, dir, eps, start, j) && j <= k
    ensures Run(n, dir, eps, start, k) == Run(n, dir, eps, start, j)
  {
    RunStaysAt(n, dir, eps, start, j, k, Run(n, dir, eps, start, j));
  }

  lemma FinishedIsUnique(n: Network, dir: Direction, eps: real, start: Work, j: nat, k: nat)
    requires ValidNetwork(n) && Finished(n, dir, eps, start, j) && Finished(n, dir, eps, start, k)
    ensures j == k
  {
    if j <= k { RunStops(n, dir, eps, start, j, k); } else { RunStops(n, dir, eps, start, k, j); }
  }

  // ----- what reaches a lot

  function ShareOf(n: Network, dir: Direction, x: LotId -> real, d: LotId): Edge -> real {
    (e: Edge) => if Target(dir, e) == d then Scale(Rate(n, dir, e), x(Origin(dir, e))) else 0.0
  }

  /** What reaches `d` when every lot passes on `x`. */
  function Inflow(n: Network, dir: Direction, x: LotId -> real, d: LotId): real {
    SumOver(n.edges, ShareOf(n, dir, x, d))
  }

  function PushOf(n: Network, dir: Direction, delta: real, d: LotId): Edge -> real {
    (e: Edge) => if Target(dir, e) == d then Scale(Rate(n, dir, e), delta) else 0.0
  }

  lemma RateNonNegative(n: Network, dir: Direction, e: Edge)
    requires ValidNetwork(n) && e in n.edges
    ensures Rate(n, dir, e) > 0.0
  {
    RequestedIsLinear(n, dir, e, 0.0);
  }

  /** An increment, capped at its lot, is passed on in proportion. */
  lemma RequestedIsRated(n: Network, dir: Direction, e: Edge, cur: Item)
    requires ValidNetwork(n) && e in n.edges && cur.lot == Origin(dir, e) && cur.delta >= 0.0
    ensures Requested(n, dir, e, cur.delta) == Scale(Rate(n, dir, e), Effective(n, cur))
    ensures Requested(n, dir, e, cur.delta) >= 0.0
    ensures cur.delta > 0.0 ==> Requested(n, dir, e, cur.delta) > 0.0
  {
    var at := n.quantity[cur.lot];
    var eff := Effective(n, cur);
    RequestedIsLinear(n, dir, e, eff);
    WholeFraction(cur.delta, at);
    assert Min(1.0, cur.delta / at) == Min(1.0, eff / at);
    ScaleNonNegative(Rate(n, dir, e), eff);
    if cur.delta > 0.0 { ScalePositive(Rate(n, dir, e), eff); }
  }

  lemma WholeFraction(x: real, y: real)
    requires y > 0.0
    ensures y / y == 1.0
    ensures x >= y ==> x / y >= 1.0
    ensures x <= y ==> x / y <= 1.0
  {
  }

  lemma InflowMonotone(n: Network, dir: Direction, x: LotId -> real, y: LotId -> real, d: LotId)
    requires ValidNetwork(n)
    requires forall e | e in n.edges && Target(dir, e) == d :: x(Origin(dir, e)) <= y(Origin(dir, e))
    ensures Inflow(n, dir, x, d) <= Inflow(n, dir, y, d)
  {
    forall e | e in n.edges ensures ShareOf(n, dir, x, d)(e) <= ShareOf(n, dir, y, d)(e) {
      RateNonNegative(n, dir, e);
      if Target(dir, e) == d { ScaleMonotone(Rate(n, dir, e), x(Origin(dir, e)), y(Origin(dir, e))); }
    }
    SumBound(n.edges, ShareOf(n, dir, x, d), ShareOf(n, dir, y, d));
  }

  lemma GivenStep(n: Network, queue: seq<Item>, k: nat, id: LotId)
    requires k < |queue|
    ensures Given(n, queue[..k + 1])(id)
         == Given(n, queue[..k])(id) + if queue[k].lot == id then Effective(n, queue[k]) else 0.0
  {
    assert queue[..k + 1][..k] == queue[..k];
  }

  /** Processing one more queue item adds exactly what its edges ask for. */
  lemma InflowStep(n: Network, dir: Direction, queue: seq<Item>, k: nat, d: LotId)
    requires k < |queue|
    ensures Inflow(n, dir, Given(n, queue[..k + 1]), d)
         == Inflow(n, dir, Given(n, queue[..k]), d)
          + SumOver(Out(dir, n.edges, queue[k].lot), PushOf(n, dir, Effective(n, queue[k]), d))
  {
    var cur, before, after := queue[k], Given(n, queue[..k]), Given(n, queue[..k + 1]);
    var f := PushOf(n, dir, Effective(n, cur), d);
    var g := (e: Edge) => if Origin(dir, e) == cur.lot then f(e) else 0.0;
    SumOut(dir, n.edges, cur.lot, f, g);
    forall e | e in n.edges
      ensures ShareOf(n, dir, after, d)(e) == ShareOf(n, dir, before, d)(e) + g(e)
    {
      GivenStep(n, queue, k, Origin(dir, e));
      if Origin(dir, e) == cur.lot {
        ScaleSum(Rate(n, dir, e), before(cur.lot), Effective(n, cur));
      }
    }
    SumAdd(n.edges, ShareOf(n, dir, before, d), g, ShareOf(n, dir, after, d));
  }

  // ----- the balance invariant, one lot at a time

  /** The amount of lot `d` is at most the capped supply; with no cut-off it is exactly that. */
  ghost predicate Balanced(n: Network, eps: real, w: Work, d: LotId, supply: real) {
    && Capped(n, w, d) <= Min(QuantityOf(n, d), supply)
    && (eps == 0.0 ==> Capped(n, w, d) == Min(QuantityOf(n, d), supply))
  }

  /** Adding what still fits, unless it is negligible, keeps a capped balance. */
  lemma CapStep(q: real, existing: real, asked: real, added: real, eps: real, base: real)
    requires q > 0.0 && asked >= 0.0 && eps >= 0.0
    requires added == Max(0.0, Min(asked, q - existing))
    requires Min(existing, q) <= Min(q, base)
    requires eps == 0.0 ==> Min(existing, q) == Min(q, base)
    ensures Min(existing, q) <= Min(q, base + asked)
    ensures Min(existing + added, q) <= Min(q, base + asked)
    ensures eps == 0.0 ==> Min(existing + added, q) == Min(q, base + asked)
    ensures eps == 0.0 && added <= eps ==> Min(existing, q) == Min(q, base + asked)
  {
  }

  lemma OfferBalanced(n: Network, dir: Direction, eps: real, cur: Item, e: Edge, asked: real, w: Work, d: LotId, base: real)
    requires d in n.quantity && n.quantity[d] > 0.0 && eps >= 0.0 && asked >= 0.0
    requires Balanced(n, eps, w, d, base)
    ensures Balanced(n, eps, Offer(n, dir, eps, cur, e, asked, w), d, base + if Target(dir, e) == d then asked else 0.0)
  {
    if Target(dir, e) == d {
      var existing := AmountAt(w.amount, d);
      CapStep(n.quantity[d], existing, asked, Max(0.0, Min(asked, n.quantity[d] - existing)), eps, base);
    }
  }

  /** What an edge asks for at `d`, as a term of the sum over edges. */
  lemma PushedAt(n: Network, dir: Direction, cur: Item, e: Edge, d: LotId) returns (asked: real)
    requires ValidNetwork(n) && e in n.edges && Origin(dir, e) == cur.lot && cur.delta >= 0.0
    ensures asked == Requested(n, dir, e, cur.delta) && asked >= 0.0
    ensures cur.delta > 0.0 ==> asked > 0.0
    ensures PushOf(n, dir, Effective(n, cur), d)(e) == if Target(dir, e) == d then asked else 0.0
  {
    asked := Requested(n, dir, e, cur.delta);
    RequestedIsRated(n, dir, e, cur);
  }

  lemma {:induction false} PushEdgesBalanced(n: Network, dir: Direction, eps: real, cur: Item, es: seq<Edge>, w: Work, d: LotId, base: real, f: Edge -> real)
    requires ValidNetwork(n) && d in n.quantity && eps >= 0.0 && cur.delta >= 0.0
    requires forall e | e in es :: e in n.edges && Origin(dir, e) == cur.lot
    requires f == PushOf(n, dir, Effective(n, cur), d)
    requires Balanced(n, eps, w, d, base)
    ensures Balanced(n, eps, PushEdges(n, dir, eps, cur, es, w), d, base + SumOver(es, f))
  {
    if es != [] {
      var init, last := es[..|es| - 1], es[|es| - 1];
      PushEdgesBalanced(n, dir, eps, cur, init, w, d, base, f);
      var asked := PushedAt(n, dir, cur, last, d);
      OfferBalanced(n, dir, eps, cur, last, asked, PushEdges(n, dir, eps, cur, init, w), d, base + SumOver(init, f));
    }
  }

  /** The seeds of a lot plus what a prefix of the queue passed on to it. */
  function Supply(n: Network, dir: Direction, seeds: seq<Seed>, queue: seq<Item>, d: LotId): real {
    Seeded(seeds, d) + Inflow(n, dir, Given(n, queue), d)
  }

  lemma RunItemBalanced(n: Network, dir: Direction, eps: real, seeds: seq<Seed>, w: Work, k: nat, d: LotId)
    requires ValidNetwork(n) && d in n.quantity && eps >= 0.0 && k < |w.queue| && w.queue[k].delta > 0.0
    requires Balanced(n, eps, w, d, Supply(n, dir, seeds, w.queue[..k], d))
    ensures Balanced(n, eps, RunItem(n, dir, eps, w.queue[k], w), d, Supply(n, dir, seeds, w.queue[..k + 1], d))
  {
    var es := Out(dir, n.edges, w.queue[k].lot);
    OutMembers(dir, n.edges, w.queue[k].lot);
    PushEdgesBalanced(n, dir, eps, w.queue[k], es, w, d, Supply(n, dir, seeds, w.queue[..k], d),
      PushOf(n, dir, Effective(n, w.queue[k]), d));
    InflowStep(n, dir, w.queue, k, d);
  }

  lemma InflowOfNothing(n: Network, dir: Direction, x: LotId -> real, d: LotId)
    requires forall id :: x(id) == 0.0
    ensures Inflow(n, dir, x, d) == 0.0
  {
    forall e ensures ShareOf(n, dir, x, d)(e) == 0.0 { ScaleZero(Rate(n, dir, e)); }
    SumZero(n.edges, ShareOf(n, dir, x, d));
  }

  /** What holds before queue item `k` is processed. */
  ghost predicate Invariant(n: Network, dir: Direction, eps: real, seeds: seq<Seed>, w: Work, k: nat) {
    && Consistent(n, w)
    && k <= |w.queue|
    && forall d {:trigger BalancedAt(n, dir, eps, seeds, w, k, d)} | d in n.quantity :: BalancedAt(n, dir, eps, seeds, w, k, d)
  }

  /** Lot `d` holds what the first `k` items supply. */
  ghost predicate BalancedAt(n: Network, dir: Direction, eps: real, seeds: seq<Seed>, w: Work, k: nat, d: LotId)
    requires k <= |w.queue|
  {
    Balanced(n, eps, w, d, Supply(n, dir, seeds, w.queue[..k], d))
  }

  lemma StartBalanced(n: Network, dir: Direction, eps: real, seeds: seq<Seed>, start: Work, d: LotId)
    requires d in n.quantity && Capped(n, start, d) == Min(n.quantity[d], Seeded(seeds, d))
    ensures Balanced(n, eps, start, d, Supply(n, dir, seeds, start.queue[..0], d))
  {
    InflowOfNothing(n, dir, Given(n, start.queue[..0]), d);
  }

  lemma NextItem(n: Network, dir: Direction, eps: real, start: Work, k: nat, w: Work, v: Work)
    requires ValidNetwork(n) && k > 0 && w == Run(n, dir, eps, start, k - 1) && v == Run(n, dir, eps, start, k) && k <= |v.queue|
    ensures k - 1 < |w.queue| && v == RunItem(n, dir, eps, w.queue[k - 1], w) && v.queue[..k] == w.queue[..k]
  {
    assert k - 1 < |w.queue|;
    RunItemGrows(n, dir, eps, w.queue[k - 1], w);
  }

  lemma PositiveDelta(n: Network, dir: Direction, eps: real, start: Work, k: nat, w: Work)
    requires ValidNetwork(n) && eps >= 0.0 && Consistent(n, start) && w == Run(n, dir, eps, start, k) && k < |w.queue|
    ensures w.queue[k].delta > 0.0
  {
    RunConsistent(n, dir, eps, start, k);
    assert w.queue[k] in w.queue;
  }

  lemma {:induction false} RunBalanced(n: Network, dir: Direction, eps: real, seeds: seq<Seed>, start: Work, k: nat, v: Work, d: LotId)
    requires ValidNetwork(n) && eps >= 0.0 && Consistent(n, start) && d in n.quantity
    requires Capped(n, start, d) == Min(n.quantity[d], Seeded(seeds, d))
    requires v == Run(n, dir, eps, start, k) && k <= |v.queue|
    ensures Balanced(n, eps, v, d, Supply(n, dir, seeds, v.queue[..k], d))
  {
    if k == 0 {
      StartBalanced(n, dir, eps, seeds, start, d);
    } else {
      var w := Run(n, dir, eps, start, k - 1);
      NextItem(n, dir, eps, start, k, w, v);
      RunBalanced(n, dir, eps, seeds, start, k - 1, w, d);
      PositiveDelta(n, dir, eps, start, k - 1, w);
      NextBalanced(n, dir, eps, seeds, w, v, k - 1, d);
    }
  }

  lemma NextBalanced(n: Network, dir: Direction, eps: real, seeds: seq<Seed>, w: Work, v: Work, k: nat, d: LotId)
    requires ValidNetwork(n) && d in n.quantity && eps >= 0.0 && k < |w.queue| && w.queue[k].delta > 0.0 && k < |v.queue|
    requires v == RunItem(n, dir, eps, w.queue[k], w) && v.queue[..k + 1] == w.queue[..k + 1]
    requires Balanced(n, eps, w, d, Supply(n, dir, seeds, w.queue[..k], d))
    ensures Balanced(n, eps, v, d, Supply(n, dir, seeds, v.queue[..k + 1], d))
  {
    RunItemBalanced(n, dir, eps, seeds, w, k, d);
  }

  lemma RunInvariant(n: Network, dir: Direction, eps: real, seeds: seq<Seed>, start: Work, k: nat)
    requires ValidNetwork(n) && eps >= 0.0 && ProperStart(n, seeds, start)
    requires k <= |Run(n, dir, eps, start, k).queue|
    ensures Invariant(n, dir, eps, seeds, Run(n, dir, eps, start, k), k)
  {
    var w := Run(n, dir, eps, start, k);
    RunConsistent(n, dir, eps, start, k);
    forall d | d in n.quantity ensures BalancedAt(n, dir, eps, seeds, w, k, d) {
      StartOf(n, seeds, start, d);
      RunBalanced(n, dir, eps, seeds, start, k, w, d);
    }
  }
}
