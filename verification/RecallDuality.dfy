/**
 Tracing forward and tracing back measure the same flow: on a mass-balanced genealogy the kilograms
 of `t` that come from the whole of `s` are the kilograms of `s` that the whole of `t` requires.
 */
module RecallDuality {
  import opened Sums
  import opened TraceGraphs
  import opened Worklists
  import opened WorklistInvariants
  import opened RecallEquations
  import opened RecallReach

  /** The inputs of every derived lot total its quantity, and no lot is allocated beyond what it holds. */
  ghost predicate MassBalanced(n: Network) {
    && (forall e | e in n.edges :: TotalInput(n, e.destination) == QuantityOf(n, e.destination))
    && forall d | d in n.quantity :: TotalOutput(n, d) <= n.quantity[d]
  }

  ghost predicate SolvesLinear(n: Network, dir: Direction, source: LotId -> real, x: LotId -> real) {
    forall d | d in n.quantity :: x(d) == source(d) + Inflow(n, dir, x, d)
  }

  /** Lot by lot, what `x` holds times the share of the lot that `y` asks for. */
  function Pair(n: Network, x: LotId -> real, y: LotId -> real): LotId -> real {
    (d: LotId) => Scale(Fraction(n, y, d), x(d))
  }

  function Fraction(n: Network, x: LotId -> real, d: LotId): real {
    if QuantityOf(n, d) > 0.0 then Ratio(x(d), QuantityOf(n, d)) else 0.0
  }

  /** What edge `e` passes on of `x`, weighed with the share of its target that `y` asks for. */
  function Carried(n: Network, dir: Direction, x: LotId -> real, y: LotId -> real): Edge -> real {
    (e: Edge) => Scale(Fraction(n, y, Target(dir, e)), Scale(Rate(n, dir, e), x(Origin(dir, e))))
  }

  function At(f: Edge -> real, dir: Direction, d: LotId): Edge -> real {
    (e: Edge) => if Target(dir, e) == d then f(e) else 0.0
  }

  function Gather(edges: seq<Edge>, f: Edge -> real, dir: Direction): LotId -> real {
    (d: LotId) => SumOver(edges, At(f, dir, d))
  }

  function Single(id: LotId, x: real): LotId -> real {
    (d: LotId) => if d == id then x else 0.0
  }

  lemma {:induction false} SumSingle(lots: seq<LotId>, id: LotId, x: real)
    requires Distinct(lots)
    ensures SumOver(lots, Single(id, x)) == if id in lots then x else 0.0
  {
    if lots != [] {
      var init, last := lots[..|lots| - 1], lots[|lots| - 1];
      SumSingle(init, id, x);
      assert lots == init + [last];
      if last == id { assert id !in init; }
    }
  }

  /** Summing edge by edge or lot by lot gives the same. */
  lemma {:induction false} GatherAll(lots: seq<LotId>, edges: seq<Edge>, f: Edge -> real, dir: Direction)
    requires Distinct(lots) && forall e | e in edges :: Target(dir, e) in lots
    ensures SumOver(lots, Gather(edges, f, dir)) == SumOver(edges, f)
  {
    if edges == [] {
      SumZero(lots, Gather(edges, f, dir));
    } else {
      var init, e := edges[..|edges| - 1], edges[|edges| - 1];
      GatherAll(lots, init, f, dir);
      var single := Single(Target(dir, e), f(e));
      SumSingle(lots, Target(dir, e), f(e));
      forall d | d in lots ensures Gather(edges, f, dir)(d) == Gather(init, f, dir)(d) + single(d) {
        var g := At(f, dir, d);
        assert SumOver(edges, g) == SumOver(init, g) + g(e);
      }
      SumAdd(lots, Gather(init, f, dir), single, Gather(edges, f, dir));
    }
  }

  /** On a mass-balanced graph the rate of an edge is its allocation as a share of its origin, in both directions. */
  lemma BalancedRate(n: Network, dir: Direction, e: Edge)
    requires ValidNetwork(n) && MassBalanced(n) && e in n.edges
    ensures Rate(n, dir, e) == Ratio(e.allocatedKg, n.quantity[Origin(dir, e)])
  {
    assert ValidEdge(n.quantity, e);
    var q := n.quantity[e.destination];
    RatioUnique(q, q, 1.0);
  }

  lemma CarriedAt(n: Network, dir: Direction, x: LotId -> real, y: LotId -> real, e: Edge)
    ensures Carried(n, dir, x, y)(e) == Scale(Fraction(n, y, Target(dir, e)), Scale(Rate(n, dir, e), x(Origin(dir, e))))
  {
  }

  /** The flow of an edge: its allocation times the shares of both ends. */
  lemma CarriedBalanced(n: Network, dir: Direction, x: LotId -> real, y: LotId -> real, e: Edge)
    requires ValidNetwork(n) && MassBalanced(n) && e in n.edges
    ensures Carried(n, dir, x, y)(e) == Scale(Fraction(n, y, Target(dir, e)), Scale(e.allocatedKg, Fraction(n, x, Origin(dir, e))))
  {
    assert ValidEdge(n.quantity, e);
    CarriedAt(n, dir, x, y, e);
    BalancedRate(n, dir, e);
    ScaleRatio(e.allocatedKg, x(Origin(dir, e)), n.quantity[Origin(dir, e)]);
  }

  lemma EdgeCarriesTheSame(n: Network, x: LotId -> real, y: LotId -> real, e: Edge)
    requires ValidNetwork(n) && MassBalanced(n) && e in n.edges
    ensures Carried(n, Forward, x, y)(e) == Carried(n, Backward, y, x)(e)
  {
    CarriedBalanced(n, Forward, x, y, e);
    CarriedBalanced(n, Backward, y, x, e);
    ScaleSwap(e.allocatedKg, Fraction(n, x, e.source), Fraction(n, y, e.destination));
  }

  lemma GatherTerm(n: Network, dir: Direction, x: LotId -> real, y: LotId -> real, d: LotId, e: Edge)
    ensures At(Carried(n, dir, x, y), dir, d)(e) == Scale(Fraction(n, y, d), ShareOf(n, dir, x, d)(e))
  {
    ScaleZero(Fraction(n, y, d));
  }

  lemma GatherInflow(n: Network, dir: Direction, x: LotId -> real, y: LotId -> real, d: LotId)
    ensures Gather(n.edges, Carried(n, dir, x, y), dir)(d) == Scale(Fraction(n, y, d), Inflow(n, dir, x, d))
  {
    var f, g, c := At(Carried(n, dir, x, y), dir, d), ShareOf(n, dir, x, d), Fraction(n, y, d);
    forall e ensures f(e) == Scale(c, g(e)) { GatherTerm(n, dir, x, y, d, e); }
    SumScale(n.edges, c, g, f);
  }

  lemma PairStep(n: Network, dir: Direction, source: LotId -> real, x: LotId -> real, y: LotId -> real, d: LotId)
    requires x(d) == source(d) + Inflow(n, dir, x, d)
    ensures Pair(n, x, y)(d) == Pair(n, source, y)(d) + Gather(n.edges, Carried(n, dir, x, y), dir)(d)
  {
    GatherInflow(n, dir, x, y, d);
    ScaleSum(Fraction(n, y, d), source(d), Inflow(n, dir, x, d));
  }

  /** Pairing a solution with any demand splits into its source and what the edges carry. */
  lemma PairSplits(n: Network, lots: seq<LotId>, dir: Direction, source: LotId -> real, x: LotId -> real, y: LotId -> real)
    requires ValidNetwork(n) && Distinct(lots) && (forall d :: d in lots <==> d in n.quantity)
    requires SolvesLinear(n, dir, source, x)
    ensures SumOver(lots, Pair(n, x, y)) == SumOver(lots, Pair(n, source, y)) + SumOver(n.edges, Carried(n, dir, x, y))
  {
    var f := Carried(n, dir, x, y);
    forall d | d in lots ensures Pair(n, x, y)(d) == Pair(n, source, y)(d) + Gather(n.edges, f, dir)(d) {
      PairStep(n, dir, source, x, y, d);
    }
    SumAdd(lots, Pair(n, source, y), Gather(n.edges, f, dir), Pair(n, x, y));
    forall e | e in n.edges ensures Target(dir, e) in lots { assert ValidEdge(n.quantity, e); }
    GatherAll(lots, n.edges, f, dir);
  }

  lemma PairSymmetric(n: Network, lots: seq<LotId>, x: LotId -> real, y: LotId -> real)
    requires ValidNetwork(n) && forall d | d in lots :: d in n.quantity
    ensures SumOver(lots, Pair(n, x, y)) == SumOver(lots, Pair(n, y, x))
  {
    forall d | d in lots ensures Pair(n, x, y)(d) == Pair(n, y, x)(d) {
      ScaleRatio(x(d), y(d), n.quantity[d]);
      ScaleCommutes(x(d), Fraction(n, y, d));
    }
    SumCongruence(lots, Pair(n, x, y), Pair(n, y, x));
  }

  /**
   Reciprocity: for any seeds, what the forward solution delivers against a demand equals what the
   demand's backward solution requires of the seeds.
   */
  lemma Reciprocity(n: Network, lots: seq<LotId>, supply: LotId -> real, x: LotId -> real, demand: LotId -> real, y: LotId -> real)
    requires ValidNetwork(n) && MassBalanced(n) && Distinct(lots) && (forall d :: d in lots <==> d in n.quantity)
    requires SolvesLinear(n, Forward, supply, x) && SolvesLinear(n, Backward, demand, y)
    ensures SumOver(lots, Pair(n, supply, y)) == SumOver(lots, Pair(n, demand, x))
  {
    PairSplits(n, lots, Forward, supply, x, y);
    PairSplits(n, lots, Backward, demand, y, x);
    PairSymmetric(n, lots, x, y);
    forall e | e in n.edges ensures Carried(n, Forward, x, y)(e) == Carried(n, Backward, y, x)(e) {
      EdgeCarriesTheSame(n, x, y, e);
    }
    SumCongruence(n.edges, Carried(n, Forward, x, y), Carried(n, Backward, y, x));
  }

  // ----- the two traces

  /** In an acyclic genealogy nothing flows back into the only seed. */
  lemma NoneFlowsHome(n: Network, dir: Direction, eps: real, s: Seed, start: Work, k: nat, e: Edge)
    requires ValidNetwork(n) && Acyclic(n) && ProperStart(n, [s], start)
    requires e in n.edges && Target(dir, e) == s.lot
    ensures Origin(dir, e) !in Run(n, dir, eps, start, k).amount
  {
    var w := Run(n, dir, eps, start, k);
    if Origin(dir, e) in w.amount {
      ScopeIsReached(n, dir, eps, [s], start, k, Origin(dir, e));
      var a, p :| IsSeed([s], a) && Walk(dir, n.edges, a, p, Origin(dir, e)) && |p| == DepthAt(w.depth, Origin(dir, e));
      NoWalkHome(n, dir, a, p, e);
    }
  }

  lemma NothingIntoSeed(n: Network, dir: Direction, s: Seed, start: Work, k: nat)
    requires ValidNetwork(n) && Acyclic(n) && ProperStart(n, [s], start)
    ensures Inflow(n, dir, Found(n, Run(n, dir, 0.0, start, k)), s.lot) == 0.0
  {
    var w := Run(n, dir, 0.0, start, k);
    var f := ShareOf(n, dir, Found(n, w), s.lot);
    forall e | e in n.edges ensures f(e) == 0.0 {
      assert ValidEdge(n.quantity, e);
      if Target(dir, e) == s.lot {
        NoneFlowsHome(n, dir, 0.0, s, start, k, e);
        assert Found(n, w)(Origin(dir, e)) == 0.0;
      }
    }
    SumZero(n.edges, f);
  }

  lemma NoWalkHome(n: Network, dir: Direction, a: LotId, p: seq<Edge>, e: Edge)
    requires ValidNetwork(n) && Acyclic(n) && e in n.edges
    requires Walk(dir, n.edges, a, p, Origin(dir, e))
    ensures Target(dir, e) != a
  {
    var rank, top := AcyclicRank(dir, n);
    assert (p + [e])[..|p|] == p;
    WalkRank(dir, n, rank, top, a, p + [e], Target(dir, e));
  }

  /** Started from one whole lot, a trace without cut-off solves the linear equations, if every other lot has room. */
  lemma WholeLotIsLinear(n: Network, dir: Direction, id: LotId, start: Work, k: nat)
    requires ValidNetwork(n) && Acyclic(n) && id in n.quantity
    requires forall d | d in n.quantity :: HasRoom(n, dir, d)
    requires ProperStart(n, [Seed(id, n.quantity[id])], start) && Finished(n, dir, 0.0, start, k)
    ensures SolvesLinear(n, dir, Single(id, n.quantity[id]), Found(n, Run(n, dir, 0.0, start, k)))
  {
    var s := Seed(id, n.quantity[id]);
    var x := Found(n, Run(n, dir, 0.0, start, k));
    TraceSolves(n, dir, [s], start, k);
    NothingIntoSeed(n, dir, s, start, k);
    assert [s][..0] == [];
    forall d | d in n.quantity ensures x(d) == Single(id, n.quantity[id])(d) + Inflow(n, dir, x, d) {
      if d == id {
        assert Seeded([s], d) == n.quantity[id];
      } else {
        UnclampedIsLinear(n, dir, [s], start, k, d);
      }
    }
  }

  lemma PairWithSingle(n: Network, lots: seq<LotId>, id: LotId, y: LotId -> real)
    requires ValidNetwork(n) && Distinct(lots) && (forall d :: d in lots <==> d in n.quantity) && id in n.quantity
    ensures SumOver(lots, Pair(n, Single(id, n.quantity[id]), y)) == y(id)
  {
    var q := n.quantity[id];
    forall d | d in lots ensures Pair(n, Single(id, q), y)(d) == Single(id, y(id))(d) {
      ScaleZero(Fraction(n, y, d));
      if d == id { RatioTimes(y(id), q); }
    }
    SumCongruence(lots, Pair(n, Single(id, q), y), Single(id, y(id)));
    SumSingle(lots, id, y(id));
  }

  lemma {:induction false} ListLots(ids: set<LotId>) returns (lots: seq<LotId>)
    ensures Distinct(lots) && forall d :: d in lots <==> d in ids
  {
    if ids == {} {
      lots := [];
    } else {
      var d :| d in ids;
      var rest := ListLots(ids - {d});
      lots := rest + [d];
      assert forall x :: x in lots <==> x in rest || x == d;
    }
  }

  /** Forward from all of `s` and back from all of `t`: the same kilograms. */
  lemma ForwardIsBackward(n: Network, s: LotId, t: LotId, startF: Work, kF: nat, startB: Work, kB: nat)
    requires ValidNetwork(n) && Acyclic(n) && MassBalanced(n) && s in n.quantity && t in n.quantity
    requires ProperStart(n, [Seed(s, n.quantity[s])], startF) && Finished(n, Forward, 0.0, startF, kF)
    requires ProperStart(n, [Seed(t, n.quantity[t])], startB) && Finished(n, Backward, 0.0, startB, kB)
    ensures Capped(n, Run(n, Forward, 0.0, startF, kF), t) == Capped(n, Run(n, Backward, 0.0, startB, kB), s)
  {
    var x, y := Found(n, Run(n, Forward, 0.0, startF, kF)), Found(n, Run(n, Backward, 0.0, startB, kB));
    forall d | d in n.quantity ensures HasRoom(n, Forward, d) && HasRoom(n, Backward, d) {
      ForwardHasRoom(n, d);
      BackwardHasRoom(n, d);
    }
    WholeLotIsLinear(n, Forward, s, startF, kF);
    WholeLotIsLinear(n, Backward, t, startB, kB);
    var lots := ListLots(n.quantity.Keys);
    Reciprocity(n, lots, Single(s, n.quantity[s]), x, Single(t, n.quantity[t]), y);
    PairWithSingle(n, lots, s, y);
    PairWithSingle(n, lots, t, x);
    assert x(t) == Capped(n, Run(n, Forward, 0.0, startF, kF), t);
    assert y(s) == Capped(n, Run(n, Backward, 0.0, startB, kB), s);
  }
}
