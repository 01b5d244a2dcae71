/**
 What a finished trace computes: the only solution of the capped balance equations of the genealogy,
 whatever the order of edges and seeds; and exactly the linear equations where no cap binds. That the
 order of queue items does not matter either is in `RecallOrders`.
 */
module RecallEquations {
  import opened Sums
  import opened TraceGraphs
  import opened Worklists
  import opened WorklistInvariants

  /** The amounts of a state, each at most its lot. */
  function Found(n: Network, w: Work): LotId -> real {
    (id: LotId) => Capped(n, w, id)
  }

  /** `x` balances: every lot holds its seeds plus what its neighbours pass on, up to its quantity. */
  ghost predicate Solves(n: Network, dir: Direction, seeds: seq<Seed>, x: LotId -> real) {
    forall d | d in n.quantity :: x(d) == Min(n.quantity[d], Seeded(seeds, d) + Inflow(n, dir, x, d))
  }

  /** `x` claims no more than its neighbours support. */
  ghost predicate Supported(n: Network, dir: Direction, seeds: seq<Seed>, x: LotId -> real) {
    forall d | d in n.quantity :: x(d) <= Min(n.quantity[d], Seeded(seeds, d) + Inflow(n, dir, x, d))
  }

  lemma InflowCongruence(n: Network, dir: Direction, x: LotId -> real, y: LotId -> real, d: LotId)
    requires forall e | e in n.edges && Target(dir, e) == d :: x(Origin(dir, e)) == y(Origin(dir, e))
    ensures Inflow(n, dir, x, d) == Inflow(n, dir, y, d)
  {
    SumCongruence(n.edges, ShareOf(n, dir, x, d), ShareOf(n, dir, y, d));
  }

  /** All of a queue passes on exactly the amounts found. */
  lemma AllIsGiven(n: Network, dir: Direction, w: Work, k: nat, d: LotId)
    requires Consistent(n, w) && |w.queue| == k
    ensures Inflow(n, dir, Given(n, w.queue[..k]), d) == Inflow(n, dir, Found(n, w), d)
  {
    assert w.queue[..k] == w.queue;
    forall id ensures Given(n, w.queue[..k])(id) == Found(n, w)(id) { AccountOf(n, w, id); }
    InflowCongruence(n, dir, Given(n, w.queue[..k]), Found(n, w), d);
  }

  lemma FinishedBalance(n: Network, dir: Direction, eps: real, seeds: seq<Seed>, w: Work, k: nat, d: LotId)
    requires Invariant(n, dir, eps, seeds, w, k) && |w.queue| == k && d in n.quantity
    ensures Balanced(n, eps, w, d, Seeded(seeds, d) + Inflow(n, dir, Found(n, w), d))
  {
    assert BalancedAt(n, dir, eps, seeds, w, k, d);
    AllIsGiven(n, dir, w, k, d);
  }

  /** With any cut-off the trace claims no more than the equations support; with none it solves them. */
  lemma BalancedEverywhere(n: Network, dir: Direction, eps: real, seeds: seq<Seed>, w: Work)
    requires Invariant(n, dir, eps, seeds, w, |w.queue|)
    ensures Supported(n, dir, seeds, Found(n, w))
    ensures eps == 0.0 ==> Solves(n, dir, seeds, Found(n, w))
  {
    forall d | d in n.quantity
      ensures Balanced(n, eps, w, d, Seeded(seeds, d) + Inflow(n, dir, Found(n, w), d))
    {
      FinishedBalance(n, dir, eps, seeds, w, |w.queue|, d);
    }
  }

  /** With no cut-off the trace solves the balance equations, on any graph on which it finishes. */
  lemma TraceSolves(n: Network, dir: Direction, seeds: seq<Seed>, start: Work, k: nat)
    requires ValidNetwork(n) && ProperStart(n, seeds, start) && Finished(n, dir, 0.0, start, k)
    ensures Solves(n, dir, seeds, Found(n, Run(n, dir, 0.0, start, k)))
  {
    RunInvariant(n, dir, 0.0, seeds, start, k);
    BalancedEverywhere(n, dir, 0.0, seeds, Run(n, dir, 0.0, start, k));
  }

  lemma TraceIsSupported(n: Network, dir: Direction, eps: real, seeds: seq<Seed>, start: Work, k: nat)
    requires ValidNetwork(n) && eps >= 0.0 && ProperStart(n, seeds, start) && Finished(n, dir, eps, start, k)
    ensures Supported(n, dir, seeds, Found(n, Run(n, dir, eps, start, k)))
  {
    RunInvariant(n, dir, eps, seeds, start, k);
    BalancedEverywhere(n, dir, eps, seeds, Run(n, dir, eps, start, k));
  }

  /** On an acyclic graph a supported claim lies below every solution: by induction on the level of the lot. */
  lemma {:induction false} SupportedBelowAt(n: Network, dir: Direction, seeds: seq<Seed>, x: LotId -> real, y: LotId -> real,
                                            rank: map<LotId, nat>, top: nat, d: LotId)
    requires ValidNetwork(n) && Ranked(dir, n, rank, top) && d in n.quantity
    requires Supported(n, dir, seeds, x) && Solves(n, dir, seeds, y)
    ensures x(d) <= y(d)
    decreases rank[d]
  {
    forall e | e in n.edges && Target(dir, e) == d ensures x(Origin(dir, e)) <= y(Origin(dir, e)) {
      assert ValidEdge(n.quantity, e);
      SupportedBelowAt(n, dir, seeds, x, y, rank, top, Origin(dir, e));
    }
    InflowMonotone(n, dir, x, y, d);
  }

  lemma SupportedBelow(n: Network, dir: Direction, seeds: seq<Seed>, x: LotId -> real, y: LotId -> real)
    requires ValidNetwork(n) && Acyclic(n)
    requires Supported(n, dir, seeds, x) && Solves(n, dir, seeds, y)
    ensures forall d | d in n.quantity :: x(d) <= y(d)
  {
    var rank, top := AcyclicRank(dir, n);
    forall d | d in n.quantity ensures x(d) <= y(d) {
      SupportedBelowAt(n, dir, seeds, x, y, rank, top, d);
    }
  }

  /** The balance equations of an acyclic genealogy have at most one solution. */
  lemma SolutionIsUnique(n: Network, dir: Direction, seeds: seq<Seed>, x: LotId -> real, y: LotId -> real)
    requires ValidNetwork(n) && Acyclic(n)
    requires Solves(n, dir, seeds, x) && Solves(n, dir, seeds, y)
    ensures forall d | d in n.quantity :: x(d) == y(d)
  {
    SupportedBelow(n, dir, seeds, x, y);
    SupportedBelow(n, dir, seeds, y, x);
  }

  /** A cut-off never adds mass: every amount is at most the exact one. */
  lemma CutOffOnlyLoses(n: Network, dir: Direction, eps: real, seeds: seq<Seed>, start: Work, k: nat, exact: LotId -> real)
    requires ValidNetwork(n) && Acyclic(n) && eps >= 0.0 && ProperStart(n, seeds, start)
    requires Finished(n, dir, eps, start, k) && Solves(n, dir, seeds, exact)
    ensures forall d | d in n.quantity :: Found(n, Run(n, dir, eps, start, k))(d) <= exact(d)
  {
    TraceIsSupported(n, dir, eps, seeds, start, k);
    SupportedBelow(n, dir, seeds, Found(n, Run(n, dir, eps, start, k)), exact);
  }

  // ----- order independence

  lemma TotalInputPermutation(n: Network, m: Network, lot: LotId)
    requires multiset(n.edges) == multiset(m.edges)
    ensures TotalInput(n, lot) == TotalInput(m, lot)
  {
    var g := (e: Edge) => if Origin(Backward, e) == lot then Allocated(e) else 0.0;
    SumOut(Backward, n.edges, lot, Allocated, g);
    SumOut(Backward, m.edges, lot, Allocated, g);
    SumPermutation(n.edges, m.edges, g);
  }

  lemma InflowPermutation(n: Network, m: Network, dir: Direction, x: LotId -> real, d: LotId)
    requires n.quantity == m.quantity && multiset(n.edges) == multiset(m.edges)
    ensures Inflow(n, dir, x, d) == Inflow(m, dir, x, d)
  {
    SumPermutation(n.edges, m.edges, ShareOf(n, dir, x, d));
    forall e | e in m.edges ensures ShareOf(n, dir, x, d)(e) == ShareOf(m, dir, x, d)(e) {
      TotalInputPermutation(n, m, e.destination);
      assert Rate(n, dir, e) == Rate(m, dir, e);
    }
    SumCongruence(m.edges, ShareOf(n, dir, x, d), ShareOf(m, dir, x, d));
  }

  /**
   Two traces of the same genealogy, with edges and seeds in any order and the seeds of a lot given
   in one piece or several, end with the same amount at every lot.
   */
  lemma TraceOrderIsIrrelevant(n: Network, m: Network, dir: Direction, seeds: seq<Seed>, seeds': seq<Seed>,
                               start: Work, start': Work, k: nat, k': nat)
    requires ValidNetwork(n) && ValidNetwork(m) && Acyclic(n)
    requires n.quantity == m.quantity && multiset(n.edges) == multiset(m.edges)
    requires forall id :: Seeded(seeds, id) == Seeded(seeds', id)
    requires ProperStart(n, seeds, start) && ProperStart(m, seeds', start')
    requires Finished(n, dir, 0.0, start, k) && Finished(m, dir, 0.0, start', k')
    ensures forall d | d in n.quantity ::
              Capped(n, Run(n, dir, 0.0, start, k), d) == Capped(m, Run(m, dir, 0.0, start', k'), d)
  {
    var w, v := Run(n, dir, 0.0, start, k), Run(m, dir, 0.0, start', k');
    TraceSolves(n, dir, seeds, start, k);
    TraceSolves(m, dir, seeds', start', k');
    SolutionTransfers(n, m, dir, seeds, seeds', Found(m, v));
    SolutionIsUnique(n, dir, seeds, Found(n, w), Found(m, v));
    assert forall d :: Found(n, w)(d) == Capped(n, w, d) && Found(m, v)(d) == Capped(m, v, d);
  }

  lemma SolutionTransfers(n: Network, m: Network, dir: Direction, seeds: seq<Seed>, seeds': seq<Seed>, y: LotId -> real)
    requires n.quantity == m.quantity && multiset(n.edges) == multiset(m.edges)
    requires forall id :: Seeded(seeds, id) == Seeded(seeds', id)
    requires Solves(m, dir, seeds', y)
    ensures Solves(n, dir, seeds, y)
  {
    forall d | d in n.quantity
      ensures y(d) == Min(n.quantity[d], Seeded(seeds, d) + Inflow(n, dir, y, d))
    {
      InflowPermutation(n, m, dir, y, d);
    }
  }

  // ----- where no cap binds

  /** Every lot passed on in full. */
  function Whole(n: Network): LotId -> real {
    (id: LotId) => QuantityOf(n, id)
  }

  /** Lot `d` can take everything its neighbours could ever pass on. */
  ghost predicate HasRoom(n: Network, dir: Direction, d: LotId) {
    Inflow(n, dir, Whole(n), d) <= QuantityOf(n, d)
  }

  lemma ForwardShareOfWhole(n: Network, e: Edge, t: real)
    requires ValidNetwork(n) && e in n.edges && t == TotalInput(n, e.destination)
    ensures t > 0.0
    ensures Scale(Rate(n, Forward, e), n.quantity[e.source]) == Scale(Ratio(n.quantity[e.destination], t), e.allocatedKg)
  {
    TotalInputPositive(n, e);
    assert ValidEdge(n.quantity, e);
    var u, a, at := Ratio(n.quantity[e.destination], t), e.allocatedKg, n.quantity[e.source];
    RatioTimes(a, at);
    assert (u * Ratio(a, at)) * at == u * (Ratio(a, at) * at);
  }

  lemma ShareAt(n: Network, dir: Direction, x: LotId -> real, d: LotId, e: Edge)
    ensures ShareOf(n, dir, x, d)(e) == if Target(dir, e) == d then Scale(Rate(n, dir, e), x(Origin(dir, e))) else 0.0
  {
  }

  lemma ForwardShare(n: Network, e: Edge, d: LotId)
    ensures ShareOf(n, Forward, Whole(n), d)(e)
         == if e.destination == d then Scale(Rate(n, Forward, e), QuantityOf(n, e.source)) else 0.0
  {
    ShareAt(n, Forward, Whole(n), d, e);
  }

  function InputTo(d: LotId): Edge -> real {
    (e: Edge) => if e.destination == d then e.allocatedKg else 0.0
  }

  lemma TotalInputTerms(n: Network, d: LotId)
    ensures TotalInput(n, d) == SumOver(n.edges, InputTo(d))
  {
    forall e | e in n.edges ensures InputTo(d)(e) == if Origin(Backward, e) == d then Allocated(e) else 0.0 {}
    SumOut(Backward, n.edges, d, Allocated, InputTo(d));
  }

  /** Forward, the inputs of a derived lot, passed on in full, make exactly that lot. */
  lemma ForwardInflowOfWhole(n: Network, d: LotId, e0: Edge)
    requires ValidNetwork(n) && d in n.quantity && e0 in n.edges && e0.destination == d
    ensures Inflow(n, Forward, Whole(n), d) == n.quantity[d]
  {
    TotalInputPositive(n, e0);
    TotalInputTerms(n, d);
    var f, t := ShareOf(n, Forward, Whole(n), d), TotalInput(n, d);
    var c := Ratio(n.quantity[d], t);
    forall e | e in n.edges ensures f(e) == Scale(c, InputTo(d)(e)) {
      ForwardShare(n, e, d);
      ScaleZero(c);
      if e.destination == d { ForwardShareOfWhole(n, e, t); }
    }
    SumScale(n.edges, c, InputTo(d), f);
    RatioTimes(n.quantity[d], t);
  }

  lemma ForwardHasRoom(n: Network, d: LotId)
    requires ValidNetwork(n) && d in n.quantity
    ensures HasRoom(n, Forward, d)
  {
    if exists e :: e in n.edges && e.destination == d {
      var e :| e in n.edges && e.destination == d;
      ForwardInflowOfWhole(n, d, e);
    } else {
      forall e | e in n.edges ensures ShareOf(n, Forward, Whole(n), d)(e) == 0.0 { ForwardShare(n, e, d); }
      SumZero(n.edges, ShareOf(n, Forward, Whole(n), d));
    }
  }

  lemma BackwardShareOfWhole(n: Network, e: Edge)
    requires ValidNetwork(n) && e in n.edges
    ensures Scale(Rate(n, Backward, e), QuantityOf(n, e.destination)) == e.allocatedKg
  {
    assert ValidEdge(n.quantity, e);
    RatioTimes(e.allocatedKg, n.quantity[e.destination]);
  }

  /** Back, a lot has room unless its outputs were allocated more than it holds. */
  lemma BackwardHasRoom(n: Network, d: LotId)
    requires ValidNetwork(n)
    ensures Inflow(n, Backward, Whole(n), d) == TotalOutput(n, d)
    ensures HasRoom(n, Backward, d) <==> TotalOutput(n, d) <= QuantityOf(n, d)
  {
    var f := ShareOf(n, Backward, Whole(n), d);
    forall e | e in n.edges ensures f(e) == if Origin(Forward, e) == d then Allocated(e) else 0.0 {
      BackwardShareOfWhole(n, e);
    }
    SumOut(Forward, n.edges, d, Allocated, f);
  }

  /** Where there is room, nothing asked of a lot that is not a seed is ever cut down. */
  lemma NeverClamped(n: Network, dir: Direction, eps: real, seeds: seq<Seed>, start: Work, k: nat, w: Work, es: seq<Edge>, i: nat)
    requires ValidNetwork(n) && eps >= 0.0 && ProperStart(n, seeds, start)
    requires w == Run(n, dir, eps, start, k) && k < |w.queue| && es == Out(dir, n.edges, w.queue[k].lot)
    requires i < |es| && (forall e | e in es :: e in n.edges)
    requires HasRoom(n, dir, Target(dir, es[i])) && !IsSeed(seeds, Target(dir, es[i]))
    ensures var v := PushEdges(n, dir, eps, w.queue[k], es[..i], w);
            Requested(n, dir, es[i], w.queue[k].delta) <= QuantityOf(n, Target(dir, es[i])) - AmountAt(v.amount, Target(dir, es[i]))
  {
    OutMembers(dir, n.edges, w.queue[k].lot);
    assert es[i] in es && ValidEdge(n.quantity, es[i]);
    RunInvariant(n, dir, eps, seeds, start, k);
    RoomForNext(n, dir, eps, seeds, w, k, es, i);
  }

  lemma {:induction false} SeededOnlySeeds(seeds: seq<Seed>, id: LotId)
    requires !IsSeed(seeds, id)
    ensures Seeded(seeds, id) == 0.0
  {
    if seeds != [] {
      assert seeds[|seeds| - 1] in seeds;
      forall s | s in seeds[..|seeds| - 1] ensures s in seeds {}
      SeededOnlySeeds(seeds[..|seeds| - 1], id);
    }
  }

  lemma GivenIsBounded(n: Network, w: Work, k: nat, id: LotId)
    requires ValidNetwork(n) && Consistent(n, w) && k <= |w.queue|
    ensures 0.0 <= GivenTo(n, w.queue[..k], id) <= Capped(n, w, id) <= QuantityOf(n, id)
  {
    GivenPrefix(n, w, k, |w.queue|, id);
    GivenPrefix(n, w, 0, k, id);
    AccountOf(n, w, id);
    assert w.queue[..|w.queue|] == w.queue;
  }

  lemma {:induction false} GivenPrefix(n: Network, w: Work, j: nat, k: nat, id: LotId)
    requires ValidNetwork(n) && Consistent(n, w) && j <= k <= |w.queue|
    ensures GivenTo(n, w.queue[..j], id) <= GivenTo(n, w.queue[..k], id)
    decreases k
  {
    if j < k {
      GivenPrefix(n, w, j, k - 1, id);
      GivenStep(n, w.queue, k - 1, id);
      assert w.queue[k - 1] in w.queue;
    }
  }

  /** One more item of the queue, passed on in full, still fits a lot with room. */
  lemma SupplyFits(n: Network, dir: Direction, eps: real, seeds: seq<Seed>, w: Work, k: nat, d: LotId)
    requires ValidNetwork(n) && k < |w.queue| && Invariant(n, dir, eps, seeds, w, k)
    requires HasRoom(n, dir, d) && !IsSeed(seeds, d)
    ensures Supply(n, dir, seeds, w.queue[..k], d)
          + SumOver(Out(dir, n.edges, w.queue[k].lot), PushOf(n, dir, Effective(n, w.queue[k]), d)) <= QuantityOf(n, d)
  {
    SeededOnlySeeds(seeds, d);
    InflowStep(n, dir, w.queue, k, d);
    forall e | e in n.edges ensures Given(n, w.queue[..k + 1])(Origin(dir, e)) <= Whole(n)(Origin(dir, e)) {
      GivenIsBounded(n, w, k + 1, Origin(dir, e));
    }
    InflowMonotone(n, dir, Given(n, w.queue[..k + 1]), Whole(n), d);
  }

  lemma RoomForNext(n: Network, dir: Direction, eps: real, seeds: seq<Seed>, w: Work, k: nat, es: seq<Edge>, i: nat)
    requires ValidNetwork(n) && eps >= 0.0 && k < |w.queue| && Invariant(n, dir, eps, seeds, w, k)
    requires es == Out(dir, n.edges, w.queue[k].lot) && i < |es|
    requires forall e | e in es :: e in n.edges && Origin(dir, e) == w.queue[k].lot
    requires HasRoom(n, dir, Target(dir, es[i])) && !IsSeed(seeds, Target(dir, es[i]))
    ensures Requested(n, dir, es[i], w.queue[k].delta)
         <= n.quantity[Target(dir, es[i])] - AmountAt(PushEdges(n, dir, eps, w.queue[k], es[..i], w).amount, Target(dir, es[i]))
  {
    var cur, d := w.queue[k], Target(dir, es[i]);
    assert ValidEdge(n.quantity, es[i]);
    var f := PushOf(n, dir, Effective(n, cur), d);
    var supply := Supply(n, dir, seeds, w.queue[..k], d);
    var v := PushEdges(n, dir, eps, cur, es[..i], w);
    assert cur in w.queue && BalancedAt(n, dir, eps, seeds, w, k, d);
    SupplyFits(n, dir, eps, seeds, w, k, d);
    PushEdgesBalanced(n, dir, eps, cur, es[..i], w, d, supply, f);
    var asked := PushedAt(n, dir, cur, es[i], d);
    PrefixOfPushes(n, dir, cur, es, i, d);
    CappedFits(n.quantity[d], AmountAt(v.amount, d), asked, supply + SumOver(es[..i], f));
  }

  lemma CappedFits(q: real, amount: real, asked: real, supply: real)
    requires Min(amount, q) <= Min(q, supply) && supply + asked <= q && asked > 0.0
    ensures asked <= q - amount
  {
  }

  lemma PrefixOfPushes(n: Network, dir: Direction, cur: Item, es: seq<Edge>, i: nat, d: LotId)
    requires ValidNetwork(n) && cur.delta >= 0.0 && i < |es|
    requires forall e | e in es :: e in n.edges && Origin(dir, e) == cur.lot
    ensures var f := PushOf(n, dir, Effective(n, cur), d); SumOver(es[..i], f) + f(es[i]) <= SumOver(es, f)
  {
    var f := PushOf(n, dir, Effective(n, cur), d);
    forall e | e in es ensures f(e) >= 0.0 { var asked := PushedAt(n, dir, cur, e, d); }
    assert es == es[..i + 1] + es[i + 1..];
    SumAppend(es[..i + 1], es[i + 1..], f);
    assert es[..i + 1][..i] == es[..i];
    SumNonNegative(es[i + 1..], f);
  }

  /** Where there is room and no cut-off, the trace is exactly the linear recursion. */
  lemma UnclampedIsLinear(n: Network, dir: Direction, seeds: seq<Seed>, start: Work, k: nat, d: LotId)
    requires ValidNetwork(n) && ProperStart(n, seeds, start) && Finished(n, dir, 0.0, start, k)
    requires d in n.quantity && !IsSeed(seeds, d) && HasRoom(n, dir, d)
    ensures var x := Found(n, Run(n, dir, 0.0, start, k)); x(d) == Inflow(n, dir, x, d)
  {
    var w := Run(n, dir, 0.0, start, k);
    TraceSolves(n, dir, seeds, start, k);
    RunInvariant(n, dir, 0.0, seeds, start, k);
    SeededOnlySeeds(seeds, d);
    forall e | e in n.edges ensures Found(n, w)(Origin(dir, e)) <= Whole(n)(Origin(dir, e)) {}
    InflowMonotone(n, dir, Found(n, w), Whole(n), d);
  }
}
