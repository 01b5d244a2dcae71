/**
 What the cut-off costs: every increment it drops is missing where it was dropped and, in proportion,
 wherever walks lead from there, and nothing else is missing.
 */
module RecallLosses {
  import opened Sums
  import opened TraceGraphs
  import opened Worklists
  import opened WorklistInvariants
  import opened RecallEquations
  import opened RecallDuality
  import opened RecallWalks

  /** What the target of `e` would take of `asked`. */
  function Taken(n: Network, dir: Direction, e: Edge, asked: real, w: Work): real {
    Max(0.0, Min(asked, QuantityOf(n, Target(dir, e)) - AmountAt(w.amount, Target(dir, e))))
  }

  /** What one edge of one item drops at `d`: at most the cut-off. */
  function DroppedBy(n: Network, dir: Direction, eps: real, e: Edge, asked: real, w: Work, d: LotId): (loss: real)
    ensures 0.0 <= loss && (eps >= 0.0 ==> loss <= eps)
  {
    if Target(dir, e) == d && Taken(n, dir, e, asked, w) <= eps then Taken(n, dir, e, asked, w) else 0.0
  }

  function DroppedAlong(n: Network, dir: Direction, eps: real, cur: Item, es: seq<Edge>, w: Work, d: LotId): (loss: real)
    requires ValidNetwork(n) && forall e | e in es :: e in n.edges
    ensures loss >= 0.0
  {
    if es == [] then 0.0
    else
      var init, e := es[..|es| - 1], es[|es| - 1];
      DroppedAlong(n, dir, eps, cur, init, w, d)
      + DroppedBy(n, dir, eps, e, Requested(n, dir, e, cur.delta), PushEdges(n, dir, eps, cur, init, w), d)
  }

  /** All that the first `k` items of the queue drop at `d`. */
  function Dropped(n: Network, dir: Direction, eps: real, start: Work, k: nat, d: LotId): (loss: real)
    requires ValidNetwork(n)
    ensures loss >= 0.0
  {
    if k == 0 then 0.0
    else
      var w := Run(n, dir, eps, start, k - 1);
      Dropped(n, dir, eps, start, k - 1, d) + if k - 1 < |w.queue| then DroppedByItem(n, dir, eps, w.queue[k - 1], w, d) else 0.0
  }

  function DroppedByItem(n: Network, dir: Direction, eps: real, cur: Item, w: Work, d: LotId): (loss: real)
    requires ValidNetwork(n)
    ensures loss >= 0.0
  {
    OutMembers(dir, n.edges, cur.lot);
    DroppedAlong(n, dir, eps, cur, Out(dir, n.edges, cur.lot), w, d)
  }

  // ----- the balance invariant from below

  /** Short of its capped supply, the amount of lot `d` misses at most `loss`. */
  ghost predicate Misses(n: Network, w: Work, d: LotId, supply: real, loss: real) {
    Min(QuantityOf(n, d), supply) - loss <= Capped(n, w, d)
  }

  lemma OfferMisses(n: Network, dir: Direction, eps: real, cur: Item, e: Edge, asked: real, w: Work, d: LotId, base: real, loss: real)
    requires d in n.quantity && n.quantity[d] > 0.0 && eps >= 0.0 && asked >= 0.0 && loss >= 0.0
    requires Misses(n, w, d, base, loss)
    ensures Misses(n, Offer(n, dir, eps, cur, e, asked, w), d, base + if Target(dir, e) == d then asked else 0.0,
              loss + DroppedBy(n, dir, eps, e, asked, w, d))
  {
  }

  lemma {:induction false} PushEdgesMisses(n: Network, dir: Direction, eps: real, cur: Item, es: seq<Edge>, w: Work, d: LotId,
                                           base: real, loss: real, f: Edge -> real)
    requires ValidNetwork(n) && d in n.quantity && eps >= 0.0 && cur.delta >= 0.0 && loss >= 0.0
    requires forall e | e in es :: e in n.edges && Origin(dir, e) == cur.lot
    requires f == PushOf(n, dir, Effective(n, cur), d)
    requires Misses(n, w, d, base, loss)
    ensures Misses(n, PushEdges(n, dir, eps, cur, es, w), d, base + SumOver(es, f), loss + DroppedAlong(n, dir, eps, cur, es, w, d))
  {
    if es != [] {
      var init, last := es[..|es| - 1], es[|es| - 1];
      PushEdgesMisses(n, dir, eps, cur, init, w, d, base, loss, f);
      var asked := PushedAt(n, dir, cur, last, d);
      OfferMisses(n, dir, eps, cur, last, asked, PushEdges(n, dir, eps, cur, init, w), d, base + SumOver(init, f),
        loss + DroppedAlong(n, dir, eps, cur, init, w, d));
    }
  }

  lemma RunItemMisses(n: Network, dir: Direction, eps: real, seeds: seq<Seed>, w: Work, k: nat, d: LotId, loss: real)
    requires ValidNetwork(n) && d in n.quantity && eps >= 0.0 && k < |w.queue| && w.queue[k].delta > 0.0 && loss >= 0.0
    requires Misses(n, w, d, Supply(n, dir, seeds, w.queue[..k], d), loss)
    ensures Misses(n, RunItem(n, dir, eps, w.queue[k], w), d, Supply(n, dir, seeds, w.queue[..k + 1], d),
              loss + DroppedByItem(n, dir, eps, w.queue[k], w, d))
  {
    var es := Out(dir, n.edges, w.queue[k].lot);
    OutMembers(dir, n.edges, w.queue[k].lot);
    PushEdgesMisses(n, dir, eps, w.queue[k], es, w, d, Supply(n, dir, seeds, w.queue[..k], d), loss,
      PushOf(n, dir, Effective(n, w.queue[k]), d));
    InflowStep(n, dir, w.queue, k, d);
  }

  lemma StartMisses(n: Network, dir: Direction, seeds: seq<Seed>, start: Work, d: LotId)
    requires d in n.quantity && Capped(n, start, d) == Min(n.quantity[d], Seeded(seeds, d))
    ensures Misses(n, start, d, Supply(n, dir, seeds, start.queue[..0], d), 0.0)
  {
    InflowOfNothing(n, dir, Given(n, start.queue[..0]), d);
  }

  lemma NextMisses(n: Network, dir: Direction, eps: real, seeds: seq<Seed>, w: Work, v: Work, k: nat, d: LotId, loss: real)
    requires ValidNetwork(n) && d in n.quantity && eps >= 0.0 && k < |w.queue| && w.queue[k].delta > 0.0 && loss >= 0.0 && k < |v.queue|
    requires v == RunItem(n, dir, eps, w.queue[k], w) && v.queue[..k + 1] == w.queue[..k + 1]
    requires Misses(n, w, d, Supply(n, dir, seeds, w.queue[..k], d), loss)
    ensures Misses(n, v, d, Supply(n, dir, seeds, v.queue[..k + 1], d), loss + DroppedByItem(n, dir, eps, w.queue[k], w, d))
  {
    RunItemMisses(n, dir, eps, seeds, w, k, d, loss);
  }

  lemma {:induction false} RunMisses(n: Network, dir: Direction, eps: real, seeds: seq<Seed>, start: Work, k: nat, v: Work, d: LotId)
    requires ValidNetwork(n) && eps >= 0.0 && Consistent(n, start) && d in n.quantity
    requires Capped(n, start, d) == Min(n.quantity[d], Seeded(seeds, d))
    requires v == Run(n, dir, eps, start, k) && k <= |v.queue|
    ensures Misses(n, v, d, Supply(n, dir, seeds, v.queue[..k], d), Dropped(n, dir, eps, start, k, d))
  {
    if k == 0 {
      StartMisses(n, dir, seeds, start, d);
    } else {
      var w := Run(n, dir, eps, start, k - 1);
      NextItem(n, dir, eps, start, k, w, v);
      RunMisses(n, dir, eps, seeds, start, k - 1, w, d);
      PositiveDelta(n, dir, eps, start, k - 1, w);
      NextMisses(n, dir, eps, seeds, w, v, k - 1, d, Dropped(n, dir, eps, start, k - 1, d));
    }
  }

  lemma MissesFound(n: Network, dir: Direction, seeds: seq<Seed>, w: Work, k: nat, d: LotId, loss: real)
    requires Consistent(n, w) && |w.queue| == k && d in n.quantity
    requires Misses(n, w, d, Supply(n, dir, seeds, w.queue[..k], d), loss)
    ensures Misses(n, w, d, Seeded(seeds, d) + Inflow(n, dir, Found(n, w), d), loss)
  {
    AllIsGiven(n, dir, w, k, d);
  }

  lemma EndMisses(n: Network, dir: Direction, eps: real, seeds: seq<Seed>, start: Work, k: nat, w: Work, d: LotId)
    requires ValidNetwork(n) && eps >= 0.0 && Consistent(n, start) && d in n.quantity
    requires Capped(n, start, d) == Min(n.quantity[d], Seeded(seeds, d))
    requires w == Run(n, dir, eps, start, k) && |w.queue| == k
    ensures Misses(n, w, d, Seeded(seeds, d) + Inflow(n, dir, Found(n, w), d), Dropped(n, dir, eps, start, k, d))
  {
    RunMisses(n, dir, eps, seeds, start, k, w, d);
    RunConsistent(n, dir, eps, start, k);
    MissesFound(n, dir, seeds, w, k, d, Dropped(n, dir, eps, start, k, d));
  }

  /** Short of balance at a lot by at most `drop`. */
  ghost predicate ShortAt(n: Network, dir: Direction, seeds: seq<Seed>, x: LotId -> real, drop: LotId -> real, d: LotId) {
    Min(QuantityOf(n, d), Seeded(seeds, d) + Inflow(n, dir, x, d)) - drop(d) <= x(d)
  }

  function DroppedAt(n: Network, dir: Direction, eps: real, start: Work, k: nat): LotId -> real
    requires ValidNetwork(n)
  {
    (d: LotId) => Dropped(n, dir, eps, start, k, d)
  }

  lemma MissesIsShort(n: Network, dir: Direction, seeds: seq<Seed>, w: Work, drop: LotId -> real, d: LotId)
    requires Misses(n, w, d, Seeded(seeds, d) + Inflow(n, dir, Found(n, w), d), drop(d))
    ensures ShortAt(n, dir, seeds, Found(n, w), drop, d)
  {
  }

  /** A finished trace falls short of balance at a lot by at most what was dropped there. */
  lemma FinishedIsShort(n: Network, dir: Direction, eps: real, seeds: seq<Seed>, start: Work, k: nat, w: Work, d: LotId)
    requires ValidNetwork(n) && eps >= 0.0 && ProperStart(n, seeds, start) && d in n.quantity
    requires w == Run(n, dir, eps, start, k) && |w.queue| == k
    ensures ShortAt(n, dir, seeds, Found(n, w), DroppedAt(n, dir, eps, start, k), d)
  {
    StartOf(n, seeds, start, d);
    EndMisses(n, dir, eps, seeds, start, k, w, d);
    MissesIsShort(n, dir, seeds, w, DroppedAt(n, dir, eps, start, k), d);
  }

  ghost predicate ShortEverywhere(n: Network, dir: Direction, seeds: seq<Seed>, x: LotId -> real, drop: LotId -> real) {
    forall d {:trigger ShortAt(n, dir, seeds, x, drop, d)} | d in n.quantity :: ShortAt(n, dir, seeds, x, drop, d)
  }

  lemma TraceIsShort(n: Network, dir: Direction, eps: real, seeds: seq<Seed>, start: Work, k: nat, w: Work)
    requires ValidNetwork(n) && eps >= 0.0 && ProperStart(n, seeds, start)
    requires w == Run(n, dir, eps, start, k) && |w.queue| == k
    ensures ShortEverywhere(n, dir, seeds, Found(n, w), DroppedAt(n, dir, eps, start, k))
  {
    forall d | d in n.quantity ensures ShortAt(n, dir, seeds, Found(n, w), DroppedAt(n, dir, eps, start, k), d) {
      FinishedIsShort(n, dir, eps, seeds, start, k, w, d);
    }
  }

  // ----- losses travel like amounts

  function Sum2(x: LotId -> real, y: LotId -> real): LotId -> real {
    (d: LotId) => x(d) + y(d)
  }

  lemma InflowAdds(n: Network, dir: Direction, x: LotId -> real, y: LotId -> real, z: LotId -> real, d: LotId)
    requires forall id :: z(id) == x(id) + y(id)
    ensures Inflow(n, dir, z, d) == Inflow(n, dir, x, d) + Inflow(n, dir, y, d)
  {
    var f, g, h := ShareOf(n, dir, x, d), ShareOf(n, dir, y, d), ShareOf(n, dir, z, d);
    forall e | e in n.edges ensures h(e) == f(e) + g(e) {
      ScaleSum(Rate(n, dir, e), x(Origin(dir, e)), y(Origin(dir, e)));
    }
    SumAdd(n.edges, f, g, h);
  }

  /** `loss` bounds what is missing, if at every lot it covers what was dropped there and what its neighbours miss. */
  lemma {:induction false} LossBelowAt(n: Network, dir: Direction, seeds: seq<Seed>, x: LotId -> real, exact: LotId -> real, drop: LotId -> real,
                                       loss: LotId -> real, rank: map<LotId, nat>, top: nat, d: LotId)
    requires ValidNetwork(n) && Ranked(dir, n, rank, top) && d in n.quantity
    requires ShortEverywhere(n, dir, seeds, x, drop)
    requires Solves(n, dir, seeds, exact) && SolvesLinear(n, dir, drop, loss)
    requires forall id | id in n.quantity :: x(id) <= exact(id)
    ensures exact(d) - x(d) <= loss(d)
    decreases rank[d]
  {
    forall e | e in n.edges && Target(dir, e) == d
      ensures x(Origin(dir, e)) <= exact(Origin(dir, e)) <= Sum2(x, loss)(Origin(dir, e))
    {
      assert ValidEdge(n.quantity, e);
      LossBelowAt(n, dir, seeds, x, exact, drop, loss, rank, top, Origin(dir, e));
    }
    LossStep(n, dir, x, exact, loss, d);
    assert ShortAt(n, dir, seeds, x, drop, d);
    LossHere(n.quantity[d], Seeded(seeds, d), Inflow(n, dir, x, d), Inflow(n, dir, exact, d), Inflow(n, dir, loss, d), drop(d), x(d));
  }

  lemma LossStep(n: Network, dir: Direction, x: LotId -> real, exact: LotId -> real, loss: LotId -> real, d: LotId)
    requires ValidNetwork(n)
    requires forall e | e in n.edges && Target(dir, e) == d ::
               x(Origin(dir, e)) <= exact(Origin(dir, e)) <= Sum2(x, loss)(Origin(dir, e))
    ensures Inflow(n, dir, exact, d) <= Inflow(n, dir, x, d) + Inflow(n, dir, loss, d)
    ensures Inflow(n, dir, loss, d) >= 0.0
  {
    InflowMonotone(n, dir, x, exact, d);
    InflowMonotone(n, dir, exact, Sum2(x, loss), d);
    InflowAdds(n, dir, x, loss, Sum2(x, loss), d);
  }

  lemma LossHere(q: real, seeded: real, inflow: real, exactInflow: real, lossInflow: real, drop: real, x: real)
    requires Min(q, seeded + inflow) - drop <= x && exactInflow <= inflow + lossInflow && lossInflow >= 0.0
    ensures Min(q, seeded + exactInflow) - x <= drop + lossInflow
  {
  }

  // ----- the losses of all lots together

  /** Lot by lot of `lots`, the weight of the walks from it, times what was dropped at it. */
  function WeighedAt(n: Network, dir: Direction, drop: LotId -> real, top: nat, d: LotId): LotId -> real {
    (a: LotId) => Scale(drop(a), WalkSums(n, dir, a, top)(d))
  }

  function Weighed(n: Network, dir: Direction, lots: seq<LotId>, drop: LotId -> real, top: nat): LotId -> real {
    (d: LotId) => SumOver(lots, WeighedAt(n, dir, drop, top, d))
  }

  /** What was dropped at the listed lots. */
  function DropOn(lots: seq<LotId>, drop: LotId -> real): LotId -> real {
    (d: LotId) => if d in lots then drop(d) else 0.0
  }

  lemma AddSolutions(n: Network, dir: Direction, s: LotId -> real, x: LotId -> real, t: LotId -> real, y: LotId -> real,
                     u: LotId -> real, z: LotId -> real)
    requires SolvesLinear(n, dir, s, x) && SolvesLinear(n, dir, t, y)
    requires forall d :: u(d) == s(d) + t(d)
    requires forall d :: z(d) == x(d) + y(d)
    ensures SolvesLinear(n, dir, u, z)
  {
    forall d | d in n.quantity ensures z(d) == u(d) + Inflow(n, dir, z, d) { InflowAdds(n, dir, x, y, z, d); }
  }

  lemma NothingWeighed(n: Network, dir: Direction, drop: LotId -> real, top: nat)
    requires ValidNetwork(n)
    ensures SolvesLinear(n, dir, DropOn([], drop), Weighed(n, dir, [], drop, top))
  {
    var none := Weighed(n, dir, [], drop, top);
    forall d | d in n.quantity ensures none(d) == DropOn([], drop)(d) + Inflow(n, dir, none, d) { InflowOfNothing(n, dir, none, d); }
  }

  lemma OneMoreDrop(init: seq<LotId>, a: LotId, drop: LotId -> real)
    requires a !in init
    ensures forall d :: DropOn(init + [a], drop)(d) == DropOn(init, drop)(d) + Single(a, drop(a))(d)
  {
  }

  lemma {:induction false} WeighedSolves(n: Network, dir: Direction, rank: map<LotId, nat>, top: nat, lots: seq<LotId>, drop: LotId -> real)
    requires ValidNetwork(n) && Ranked(dir, n, rank, top) && Distinct(lots)
    ensures SolvesLinear(n, dir, DropOn(lots, drop), Weighed(n, dir, lots, drop, top))
  {
    if lots == [] {
      NothingWeighed(n, dir, drop, top);
    } else {
      var init, a := lots[..|lots| - 1], lots[|lots| - 1];
      WeighedSolves(n, dir, rank, top, init, drop);
      WalkSumsSolve(n, dir, rank, top, a);
      ScaledSolves(n, dir, a, drop(a), WalkSums(n, dir, a, top));
      assert lots == init + [a];
      assert a !in init;
      OneMoreDrop(init, a, drop);
      AddSolutions(n, dir, DropOn(init, drop), Weighed(n, dir, init, drop, top), Single(a, drop(a)), Scaled(drop(a), WalkSums(n, dir, a, top)),
        DropOn(lots, drop), Weighed(n, dir, lots, drop, top));
    }
  }

  /** Lot by lot, what the trace dropped there times the weight of the listed walks from there. */
  function LossFrom(n: Network, dir: Direction, drop: LotId -> real, ws: LotId -> seq<seq<Edge>>): LotId -> real {
    (a: LotId) => Scale(drop(a), SumOver(ws(a), WalkWeights(n, dir)))
  }

  lemma WeighedIsLossFrom(n: Network, dir: Direction, rank: map<LotId, nat>, top: nat, lots: seq<LotId>, drop: LotId -> real,
                          ws: LotId -> seq<seq<Edge>>, d: LotId)
    requires Ranked(dir, n, rank, top) && Distinct(n.edges) && d in n.quantity
    requires forall a | a in lots :: ListsWalks(n, dir, a, d, ws(a))
    ensures Weighed(n, dir, lots, drop, top)(d) == SumOver(lots, LossFrom(n, dir, drop, ws))
  {
    forall a | a in lots ensures WeighedAt(n, dir, drop, top, d)(a) == LossFrom(n, dir, drop, ws)(a) {
      RankedWalks(n, dir, rank, top, a, d);
      ListsAgree(n, dir, a, d, ws(a), WalksInto(dir, n.edges, a, d, top));
    }
    SumCongruence(lots, WeighedAt(n, dir, drop, top, d), LossFrom(n, dir, drop, ws));
  }

  lemma LossOfLots(n: Network, dir: Direction, seeds: seq<Seed>, x: LotId -> real, exact: LotId -> real, drop: LotId -> real,
                   lots: seq<LotId>, rank: map<LotId, nat>, top: nat, d: LotId)
    requires ValidNetwork(n) && Ranked(dir, n, rank, top) && ShortEverywhere(n, dir, seeds, x, drop)
    requires Solves(n, dir, seeds, exact) && forall id | id in n.quantity :: x(id) <= exact(id)
    requires Distinct(lots) && (forall id :: id in lots <==> id in n.quantity) && d in n.quantity
    ensures exact(d) - x(d) <= Weighed(n, dir, lots, drop, top)(d)
  {
    var loss := Weighed(n, dir, lots, drop, top);
    WeighedSolves(n, dir, rank, top, lots, drop);
    OnAllLots(n, dir, lots, drop, loss);
    LossBelowAt(n, dir, seeds, x, exact, drop, loss, rank, top, d);
  }

  lemma OnAllLots(n: Network, dir: Direction, lots: seq<LotId>, drop: LotId -> real, loss: LotId -> real)
    requires SolvesLinear(n, dir, DropOn(lots, drop), loss) && forall id :: id in lots <==> id in n.quantity
    ensures SolvesLinear(n, dir, drop, loss)
  {
  }

  /**
   The amount that a trace with a cut-off misses at a lot is at most the sum, over all lots, of what the
   trace dropped there times the weight of the walks from there.
   */
  lemma CutOffLosesAtMost(n: Network, dir: Direction, eps: real, seeds: seq<Seed>, start: Work, k: nat, exact: LotId -> real,
                          lots: seq<LotId>, d: LotId, ws: LotId -> seq<seq<Edge>>)
    requires ValidNetwork(n) && Acyclic(n) && Distinct(n.edges) && eps >= 0.0 && ProperStart(n, seeds, start)
    requires Finished(n, dir, eps, start, k) && Solves(n, dir, seeds, exact)
    requires Distinct(lots) && (forall id :: id in lots <==> id in n.quantity) && d in n.quantity
    requires forall a | a in lots :: ListsWalks(n, dir, a, d, ws(a))
    ensures 0.0 <= exact(d) - Capped(n, Run(n, dir, eps, start, k), d) <= SumOver(lots, LossFrom(n, dir, DroppedAt(n, dir, eps, start, k), ws))
  {
    var rank, top := AcyclicRank(dir, n);
    CutOffOnlyLoses(n, dir, eps, seeds, start, k, exact);
    TraceIsShort(n, dir, eps, seeds, start, k, Run(n, dir, eps, start, k));
    LossOfLots(n, dir, seeds, Found(n, Run(n, dir, eps, start, k)), exact, DroppedAt(n, dir, eps, start, k), lots, rank, top, d);
    WeighedIsLossFrom(n, dir, rank, top, lots, DroppedAt(n, dir, eps, start, k), ws, d);
    assert Found(n, Run(n, dir, eps, start, k))(d) == Capped(n, Run(n, dir, eps, start, k), d);
  }

  lemma NoDropSolves(n: Network, dir: Direction, seeds: seq<Seed>, x: LotId -> real, drop: LotId -> real)
    requires ShortEverywhere(n, dir, seeds, x, drop) && Supported(n, dir, seeds, x)
    requires forall d | d in n.quantity :: drop(d) == 0.0
    ensures Solves(n, dir, seeds, x)
  {
    forall d | d in n.quantity ensures x(d) == Min(n.quantity[d], Seeded(seeds, d) + Inflow(n, dir, x, d)) {
      assert ShortAt(n, dir, seeds, x, drop, d);
    }
  }

  /** If nothing is dropped, a trace with a cut-off is exact. */
  lemma NothingDroppedIsExact(n: Network, dir: Direction, eps: real, seeds: seq<Seed>, start: Work, k: nat, exact: LotId -> real, d: LotId)
    requires ValidNetwork(n) && Acyclic(n) && eps >= 0.0 && ProperStart(n, seeds, start)
    requires Finished(n, dir, eps, start, k) && Solves(n, dir, seeds, exact) && d in n.quantity
    requires forall id | id in n.quantity :: Dropped(n, dir, eps, start, k, id) == 0.0
    ensures Capped(n, Run(n, dir, eps, start, k), d) == exact(d)
  {
    var x, drop := Found(n, Run(n, dir, eps, start, k)), DroppedAt(n, dir, eps, start, k);
    TraceIsShort(n, dir, eps, seeds, start, k, Run(n, dir, eps, start, k));
    TraceIsSupported(n, dir, eps, seeds, start, k);
    assert forall id :: drop(id) == Dropped(n, dir, eps, start, k, id);
    NoDropSolves(n, dir, seeds, x, drop);
    SolutionIsUnique(n, dir, seeds, x, exact);
    assert x(d) == Capped(n, Run(n, dir, eps, start, k), d);
  }
}
