/**
 The work-list both traces run: amounts found so far, and a growing queue of increments still to be
 pushed along the edges of the lot they arrived at. `Run(.., k)` is the state after k queue items.
 */
module Worklists {
  import opened Sums
  import opened TraceGraphs

  /** How a quantity came to be attributed to a lot. */
  datatype Basis = Direct | Proportional | DeclaredAllocation

  datatype Item = Item(lot: LotId, delta: real, depth: nat)

  datatype Work = Work(amount: map<LotId, real>, depth: map<LotId, nat>, basis: map<LotId, set<Basis>>, queue: seq<Item>)

  /** Increments at or below this many kilograms are dropped. */
  const CUT_OFF: real := 0.000001

  function AmountAt(m: map<LotId, real>, id: LotId): real {
    if id in m then m[id] else 0.0
  }

  function BasisAt(m: map<LotId, set<Basis>>, id: LotId): set<Basis> {
    if id in m then m[id] else {}
  }

  function BasisOf(a: AllocationMethod): Basis {
    if a.Estimated? then Proportional else DeclaredAllocation
  }

  /**
   What an increment at the origin of `e` asks for at its target. Back: the same fraction of the input
   as of the lot. Forward: the target's quantity times the affected share of all its inputs.
   */
  function Requested(n: Network, dir: Direction, e: Edge, delta: real): real
    requires ValidNetwork(n) && e in n.edges
  {
    var fraction := Min(1.0, Ratio(delta, n.quantity[Origin(dir, e)]));
    if dir.Backward? then Scale(e.allocatedKg, fraction)
    else
      TotalInputPositive(n, e);
      Scale(n.quantity[e.destination], Ratio(Scale(e.allocatedKg, fraction), TotalInput(n, e.destination)))
  }

  /** The target of `e` takes what it has room for of `asked`; what is negligible is dropped. */
  function Offer(n: Network, dir: Direction, eps: real, cur: Item, e: Edge, asked: real, w: Work): Work {
    var target := Target(dir, e);
    var existing := AmountAt(w.amount, target);
    var added := Max(0.0, Min(asked, QuantityOf(n, target) - existing));
    if added <= eps then w
    else
      Work(w.amount[target := existing + added],
           w.depth[target := MaxNat(DepthAt(w.depth, target), cur.depth + 1)],
           w.basis[target := BasisAt(w.basis, target) + BasisAt(w.basis, cur.lot) + {BasisOf(e.allocation)}],
           w.queue + [Item(target, added, cur.depth + 1)])
  }

  /** One edge of one queue item. */
  function PushEdge(n: Network, dir: Direction, eps: real, cur: Item, e: Edge, w: Work): Work
    requires ValidNetwork(n) && e in n.edges
  {
    Offer(n, dir, eps, cur, e, Requested(n, dir, e, cur.delta), w)
  }

  function PushEdges(n: Network, dir: Direction, eps: real, cur: Item, es: seq<Edge>, w: Work): Work
    requires ValidNetwork(n) && forall e | e in es :: e in n.edges
  {
    if es == [] then w
    else
      PushEdge(n, dir, eps, cur, es[|es| - 1], PushEdges(n, dir, eps, cur, es[..|es| - 1], w))
  }

  function RunItem(n: Network, dir: Direction, eps: real, cur: Item, w: Work): Work
    requires ValidNetwork(n)
  {
    OutMembers(dir, n.edges, cur.lot);
    PushEdges(n, dir, eps, cur, Out(dir, n.edges, cur.lot), w)
  }

  function Run(n: Network, dir: Direction, eps: real, start: Work, k: nat): Work
    requires ValidNetwork(n)
  {
    if k == 0 then start
    else
      var w := Run(n, dir, eps, start, k - 1);
      if k - 1 < |w.queue| then RunItem(n, dir, eps, w.queue[k - 1], w) else w
  }

  /** The loop has processed its whole queue. */
  ghost predicate Finished(n: Network, dir: Direction, eps: real, start: Work, k: nat)
    requires ValidNetwork(n)
  {
    |Run(n, dir, eps, start, k).queue| == k
  }

  // ----- seeds

  datatype Seed = Seed(lot: LotId, quantityKg: real)

  /** The tolerance with which a trace quantity may exceed, or count as less than, the lot quantity. */
  const TOLERANCE: real := 0.001

  ghost predicate ValidSeed(n: Network, s: Seed) {
    s.lot in n.quantity && 0.0 < s.quantityKg <= n.quantity[s.lot] + TOLERANCE
  }

  function SeedBasis(n: Network, s: Seed): Basis {
    if s.quantityKg < QuantityOf(n, s.lot) - TOLERANCE then Proportional else Direct
  }

  function AddSeed(n: Network, s: Seed, w: Work): Work {
    var existing := AmountAt(w.amount, s.lot);
    var added := Max(0.0, Min(s.quantityKg, QuantityOf(n, s.lot) - existing));
    if added <= 0.0 then w
    else
      Work(w.amount[s.lot := existing + added], w.depth[s.lot := 0], w.basis[s.lot := {SeedBasis(n, s)}],
           w.queue + [Item(s.lot, added, 0)])
  }

  const IDLE: Work := Work(map[], map[], map[], [])

  function AddSeeds(n: Network, seeds: seq<Seed>): Work {
    if seeds == [] then IDLE
    else AddSeed(n, seeds[|seeds| - 1], AddSeeds(n, seeds[..|seeds| - 1]))
  }

  /** Everything the caller asked for at a lot. */
  function Seeded(seeds: seq<Seed>, id: LotId): real {
    if seeds == [] then 0.0
    else
      var s := seeds[|seeds| - 1];
      Seeded(seeds[..|seeds| - 1], id) + if s.lot == id then s.quantityKg else 0.0
  }

  ghost predicate IsSeed(seeds: seq<Seed>, id: LotId) {
    exists s :: s in seeds && s.lot == id
  }

  // ----- rates

  /** What one kilogram at the origin of `e` asks for at its target. */
  function Rate(n: Network, dir: Direction, e: Edge): real {
    var at := QuantityOf(n, Origin(dir, e));
    if at <= 0.0 then 0.0
    else if dir.Backward? then Ratio(e.allocatedKg, at)
    else
      var total := TotalInput(n, e.destination);
      if total <= 0.0 then 0.0 else Scale(Ratio(QuantityOf(n, e.destination), total), Ratio(e.allocatedKg, at))
  }

  lemma FractionBound(x: real, y: real)
    requires 0.0 <= x <= y && y > 0.0
    ensures 0.0 <= x / y <= 1.0
  {
  }

  lemma BackwardRequest(a: real, at: real, delta: real)
    requires at > 0.0
    ensures a * (delta / at) == Scale(Ratio(a, at), delta)
  {
    ScaleRatio(a, delta, at);
  }

  lemma ForwardRequest(q: real, a: real, t: real, at: real, delta: real)
    requires t > 0.0 && at > 0.0
    ensures q * ((a * (delta / at)) / t) == Scale(Scale(Ratio(q, t), Ratio(a, at)), delta)
  {
    var share := a * (delta / at);
    ScaleRatio(q, share, t);
    BackwardRequest(a, at, delta);
    var u, v := Ratio(q, t), Ratio(a, at);
    assert u * (v * delta) == (u * v) * delta;
  }

  lemma RequestedIsLinear(n: Network, dir: Direction, e: Edge, delta: real)
    requires ValidNetwork(n) && e in n.edges && 0.0 <= delta <= n.quantity[Origin(dir, e)]
    ensures Rate(n, dir, e) > 0.0
    ensures Requested(n, dir, e, delta) == Scale(Rate(n, dir, e), delta)
  {
    var at, a := n.quantity[Origin(dir, e)], e.allocatedKg;
    FractionBound(delta, at);
    RatioPositive(a, at);
    if dir.Backward? {
      BackwardRequest(a, at, delta);
    } else {
      var q, t := n.quantity[e.destination], TotalInput(n, e.destination);
      TotalInputPositive(n, e);
      RatioPositive(q, t);
      ScalePositive(Ratio(q, t), Ratio(a, at));
      ForwardRequest(q, a, t, at, delta);
    }
  }
}
