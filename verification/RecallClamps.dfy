/**
 When a trace is cut down: the clamp takes something away from a lot exactly when more reaches the lot
 than it holds, and for a trace from one lot that can be told from the walks alone.
 */
module RecallClamps {
  import opened Sums
  import opened TraceGraphs
  import opened Worklists
  import opened WorklistInvariants
  import opened RecallEquations
  import opened RecallReach
  import opened RecallStarts
  import RecallTermination
  import opened RecallDuality
  import opened RecallWalks

  /** The `i`-th edge of queue item `k` asks lot `d` for more than it still has room for. */
  ghost predicate CutBy(n: Network, dir: Direction, eps: real, start: Work, k: nat, i: nat, d: LotId)
    requires ValidNetwork(n)
  {
    var w := Run(n, dir, eps, start, k);
    k < |w.queue| && CutEdge(n, dir, eps, w.queue[k], w, i, d)
  }

  ghost predicate CutEdge(n: Network, dir: Direction, eps: real, cur: Item, w: Work, i: nat, d: LotId)
    requires ValidNetwork(n)
  {
    var es := Out(dir, n.edges, cur.lot);
    OutMembers(dir, n.edges, cur.lot);
    && i < |es| && Target(dir, es[i]) == d
    && Requested(n, dir, es[i], cur.delta) > QuantityOf(n, d) - AmountAt(PushEdges(n, dir, eps, cur, es[..i], w).amount, d)
  }

  /** Somewhere in the run, what is asked of lot `d` is cut down. */
  ghost predicate IsCut(n: Network, dir: Direction, eps: real, start: Work, d: LotId)
    requires ValidNetwork(n)
  {
    exists k, i :: CutBy(n, dir, eps, start, k, i, d)
  }

  // ----- a cut means that too much arrives

  lemma CutOverflows(amount: real, asked: real, supply: real, q: real)
    requires Min(amount, q) <= Min(q, supply) && asked > q - amount && asked >= 0.0 && amount <= q
    ensures supply + asked > q
  {
  }

  /** What the first edges of an item push, the next included, is part of what the whole item passes on. */
  lemma CutBySupply(n: Network, dir: Direction, eps: real, seeds: seq<Seed>, w: Work, k: nat, i: nat, d: LotId)
    requires ValidNetwork(n) && k < |w.queue| && Invariant(n, dir, eps, seeds, w, k) && eps >= 0.0 && d in n.quantity
    requires CutEdge(n, dir, eps, w.queue[k], w, i, d) && AmountAt(w.amount, d) <= n.quantity[d]
    ensures Supply(n, dir, seeds, w.queue[..k + 1], d) > n.quantity[d]
  {
    var cur, es := w.queue[k], Out(dir, n.edges, w.queue[k].lot);
    var f := PushOf(n, dir, Effective(n, cur), d);
    OutMembers(dir, n.edges, cur.lot);
    assert cur in w.queue && es[i] in es && BalancedAt(n, dir, eps, seeds, w, k, d);
    var supply := Supply(n, dir, seeds, w.queue[..k], d);
    PushEdgesBalanced(n, dir, eps, cur, es[..i], w, d, supply, f);
    PushedWithin(n, dir, eps, cur, es[..i], w, d);
    var asked := PushedAt(n, dir, cur, es[i], d);
    CutOverflows(AmountAt(PushEdges(n, dir, eps, cur, es[..i], w).amount, d), asked, supply + SumOver(es[..i], f), n.quantity[d]);
    PrefixOfPushes(n, dir, cur, es, i, d);
    InflowStep(n, dir, w.queue, k, d);
  }

  lemma NoSeedStartsEmpty(n: Network, seeds: seq<Seed>, start: Work, d: LotId)
    requires ValidNetwork(n) && ProperStart(n, seeds, start) && !IsSeed(seeds, d)
    ensures AmountAt(start.amount, d) == 0.0 <= QuantityOf(n, d) && Seeded(seeds, d) == 0.0
  {
    SeededOnlySeeds(seeds, d);
  }

  /** What a part of the queue passes on is at most what the final amounts pass on. */
  lemma PartBelowFound(n: Network, dir: Direction, w: Work, k: nat, d: LotId)
    requires ValidNetwork(n) && Consistent(n, w) && k <= |w.queue|
    ensures Inflow(n, dir, Given(n, w.queue[..k]), d) <= Inflow(n, dir, Found(n, w), d)
  {
    var part, all := Given(n, w.queue[..k]), Found(n, w);
    forall e | e in n.edges && Target(dir, e) == d ensures part(Origin(dir, e)) <= all(Origin(dir, e)) {
      GivenIsBounded(n, w, k, Origin(dir, e));
    }
    InflowMonotone(n, dir, part, all, d);
  }

  lemma QueueIsPrefix(n: Network, dir: Direction, eps: real, start: Work, k: nat, last: nat)
    requires ValidNetwork(n) && Finished(n, dir, eps, start, last) && k < |Run(n, dir, eps, start, k).queue|
    ensures k + 1 <= |Run(n, dir, eps, start, last).queue|
    ensures Run(n, dir, eps, start, k).queue[..k + 1] == Run(n, dir, eps, start, last).queue[..k + 1]
  {
    if k >= last { RunStops(n, dir, eps, start, last, k); }
    RunGrows(n, dir, eps, start, k, last);
    var queue, all := Run(n, dir, eps, start, k).queue, Run(n, dir, eps, start, last).queue;
    assert all[..|queue|] == queue;
  }

  lemma GivenBelowFound(n: Network, dir: Direction, eps: real, start: Work, k: nat, last: nat, d: LotId)
    requires ValidNetwork(n) && eps >= 0.0 && Consistent(n, start) && Finished(n, dir, eps, start, last)
    requires k < |Run(n, dir, eps, start, k).queue|
    ensures Inflow(n, dir, Given(n, Run(n, dir, eps, start, k).queue[..k + 1]), d) <= Inflow(n, dir, Found(n, Run(n, dir, eps, start, last)), d)
  {
    QueueIsPrefix(n, dir, eps, start, k, last);
    PartOfRun(n, dir, eps, start, k + 1, last, d);
  }

  lemma PartOfRun(n: Network, dir: Direction, eps: real, start: Work, k: nat, last: nat, d: LotId)
    requires ValidNetwork(n) && eps >= 0.0 && Consistent(n, start) && k <= |Run(n, dir, eps, start, last).queue|
    ensures Inflow(n, dir, Given(n, Run(n, dir, eps, start, last).queue[..k]), d) <= Inflow(n, dir, Found(n, Run(n, dir, eps, start, last)), d)
  {
    RunConsistent(n, dir, eps, start, last);
    PartBelowFound(n, dir, Run(n, dir, eps, start, last), k, d);
  }

  /** With any cut-off: if a lot that is no seed is cut down, the final amounts pass on more to it than it holds. */
  lemma CutNeedsOverflow(n: Network, dir: Direction, eps: real, seeds: seq<Seed>, start: Work, last: nat, d: LotId)
    requires ValidNetwork(n) && eps >= 0.0 && ProperStart(n, seeds, start) && Finished(n, dir, eps, start, last)
    requires d in n.quantity && !IsSeed(seeds, d) && IsCut(n, dir, eps, start, d)
    ensures Inflow(n, dir, Found(n, Run(n, dir, eps, start, last)), d) > n.quantity[d]
  {
    var k, i :| CutBy(n, dir, eps, start, k, i, d);
    var w := Run(n, dir, eps, start, k);
    NoSeedStartsEmpty(n, seeds, start, d);
    RunWithin(n, dir, eps, start, k, d);
    RunInvariant(n, dir, eps, seeds, start, k);
    CutBySupply(n, dir, eps, seeds, w, k, i, d);
    GivenBelowFound(n, dir, eps, start, k, last, d);
  }

  // ----- without a cut, everything that is asked for is taken

  lemma UncutEdge(n: Network, dir: Direction, cur: Item, e: Edge, v: Work, d: LotId, f: Edge -> real)
    requires ValidNetwork(n) && e in n.edges && Origin(dir, e) == cur.lot && cur.delta > 0.0
    requires Target(dir, e) == d ==> Requested(n, dir, e, cur.delta) <= QuantityOf(n, d) - AmountAt(v.amount, d)
    requires f == PushOf(n, dir, Effective(n, cur), d)
    ensures AmountAt(PushEdge(n, dir, 0.0, cur, e, v).amount, d) == AmountAt(v.amount, d) + f(e)
  {
    var asked := PushedAt(n, dir, cur, e, d);
  }

  lemma {:induction false} UncutEdges(n: Network, dir: Direction, cur: Item, es: seq<Edge>, i: nat, w: Work, d: LotId, f: Edge -> real)
    requires ValidNetwork(n) && es == Out(dir, n.edges, cur.lot) && i <= |es| && cur.delta > 0.0
    requires forall e | e in es :: e in n.edges && Origin(dir, e) == cur.lot
    requires forall j | 0 <= j < i :: !CutEdge(n, dir, 0.0, cur, w, j, d)
    requires f == PushOf(n, dir, Effective(n, cur), d)
    ensures AmountAt(PushEdges(n, dir, 0.0, cur, es[..i], w).amount, d) == AmountAt(w.amount, d) + SumOver(es[..i], f)
  {
    if i > 0 {
      UncutEdges(n, dir, cur, es, i - 1, w, d, f);
      assert es[..i][..i - 1] == es[..i - 1];
      assert !CutEdge(n, dir, 0.0, cur, w, i - 1, d);
      UncutEdge(n, dir, cur, es[i - 1], PushEdges(n, dir, 0.0, cur, es[..i - 1], w), d, f);
    }
  }

  lemma UncutItem(n: Network, dir: Direction, w: Work, k: nat, d: LotId)
    requires ValidNetwork(n) && k < |w.queue| && w.queue[k].delta > 0.0
    requires forall i: nat :: !CutEdge(n, dir, 0.0, w.queue[k], w, i, d)
    requires AmountAt(w.amount, d) == Inflow(n, dir, Given(n, w.queue[..k]), d)
    ensures AmountAt(RunItem(n, dir, 0.0, w.queue[k], w).amount, d) == Inflow(n, dir, Given(n, w.queue[..k + 1]), d)
  {
    var cur, es := w.queue[k], Out(dir, n.edges, w.queue[k].lot);
    OutMembers(dir, n.edges, cur.lot);
    UncutEdges(n, dir, cur, es, |es|, w, d, PushOf(n, dir, Effective(n, cur), d));
    assert es[..|es|] == es;
    InflowStep(n, dir, w.queue, k, d);
  }

  lemma {:induction false} UncutRun(n: Network, dir: Direction, seeds: seq<Seed>, start: Work, k: nat, d: LotId)
    requires ValidNetwork(n) && ProperStart(n, seeds, start) && !IsSeed(seeds, d) && !IsCut(n, dir, 0.0, start, d)
    requires k <= |Run(n, dir, 0.0, start, k).queue|
    ensures AmountAt(Run(n, dir, 0.0, start, k).amount, d) == Inflow(n, dir, Given(n, Run(n, dir, 0.0, start, k).queue[..k]), d)
  {
    if k == 0 {
      NoSeedStartsEmpty(n, seeds, start, d);
      InflowOfNothing(n, dir, Given(n, start.queue[..0]), d);
    } else {
      var w, v := Run(n, dir, 0.0, start, k - 1), Run(n, dir, 0.0, start, k);
      NextItem(n, dir, 0.0, start, k, w, v);
      UncutRun(n, dir, seeds, start, k - 1, d);
      PositiveDelta(n, dir, 0.0, start, k - 1, w);
      var cur := w.queue[k - 1];
      forall i: nat ensures !CutEdge(n, dir, 0.0, cur, w, i, d) { assert !CutBy(n, dir, 0.0, start, k - 1, i, d); }
      UncutItem(n, dir, w, k - 1, d);
    }
  }

  /** Without a cut-off: a lot that is no seed is cut down if and only if the final amounts pass on more to it than it holds. */
  lemma CutIffOverflow(n: Network, dir: Direction, seeds: seq<Seed>, start: Work, last: nat, d: LotId)
    requires ValidNetwork(n) && ProperStart(n, seeds, start) && Finished(n, dir, 0.0, start, last)
    requires d in n.quantity && !IsSeed(seeds, d)
    ensures IsCut(n, dir, 0.0, start, d) <==> Inflow(n, dir, Found(n, Run(n, dir, 0.0, start, last)), d) > n.quantity[d]
  {
    if IsCut(n, dir, 0.0, start, d) {
      CutNeedsOverflow(n, dir, 0.0, seeds, start, last, d);
    } else {
      var v := Run(n, dir, 0.0, start, last);
      UncutRun(n, dir, seeds, start, last, d);
      NoSeedStartsEmpty(n, seeds, start, d);
      RunWithin(n, dir, 0.0, start, last, d);
      RunConsistent(n, dir, 0.0, start, last);
      AllIsGiven(n, dir, v, last, d);
    }
  }

  // ----- a lot that is safe from every trace

  /** Every lot that passes something on to `d` is traced in full. */
  ghost predicate WholeNeighbours(n: Network, dir: Direction, seeds: seq<Seed>, d: LotId) {
    forall e | e in n.edges && Target(dir, e) == d :: Seeded(seeds, Origin(dir, e)) >= QuantityOf(n, Origin(dir, e))
  }

  lemma WholeInflow(n: Network, dir: Direction, seeds: seq<Seed>, x: LotId -> real, d: LotId)
    requires ValidNetwork(n) && Solves(n, dir, seeds, x) && WholeNeighbours(n, dir, seeds, d)
    requires forall id :: x(id) >= 0.0
    ensures Inflow(n, dir, x, d) == Inflow(n, dir, Whole(n), d)
  {
    forall e | e in n.edges && Target(dir, e) == d ensures x(Origin(dir, e)) == Whole(n)(Origin(dir, e)) {
      assert ValidEdge(n.quantity, e);
      InflowNonNegative(n, dir, x, Origin(dir, e));
    }
    InflowCongruence(n, dir, x, Whole(n), d);
  }

  lemma InflowNonNegative(n: Network, dir: Direction, x: LotId -> real, d: LotId)
    requires ValidNetwork(n) && forall id :: x(id) >= 0.0
    ensures Inflow(n, dir, x, d) >= 0.0
  {
    forall e | e in n.edges ensures ShareOf(n, dir, x, d)(e) >= 0.0 {
      RateNonNegative(n, dir, e);
      ScaleNonNegative(Rate(n, dir, e), x(Origin(dir, e)));
    }
    SumNonNegative(n.edges, ShareOf(n, dir, x, d));
  }

  /** Traced from all its neighbours in full, a lot is cut down if and only if it has no room for all of them. */
  lemma WholeNeighboursCut(n: Network, dir: Direction, seeds: seq<Seed>, start: Work, last: nat, d: LotId)
    requires ValidNetwork(n) && ProperStart(n, seeds, start) && Finished(n, dir, 0.0, start, last)
    requires d in n.quantity && !IsSeed(seeds, d) && WholeNeighbours(n, dir, seeds, d)
    ensures IsCut(n, dir, 0.0, start, d) <==> !HasRoom(n, dir, d)
  {
    var v := Run(n, dir, 0.0, start, last);
    CutIffOverflow(n, dir, seeds, start, last, d);
    TraceSolves(n, dir, seeds, start, last);
    RunConsistent(n, dir, 0.0, start, last);
    FoundPositive(n, v);
    WholeInflow(n, dir, seeds, Found(n, v), d);
  }

  /** One whole-lot seed for every edge into `d`. */
  function NeighbourSeeds(n: Network, dir: Direction, es: seq<Edge>, d: LotId): seq<Seed> {
    if es == [] then []
    else
      var e := es[|es| - 1];
      NeighbourSeeds(n, dir, es[..|es| - 1], d) + if Target(dir, e) == d then [Seed(Origin(dir, e), QuantityOf(n, Origin(dir, e)))] else []
  }

  lemma {:induction false} NeighbourSeedsValid(n: Network, dir: Direction, es: seq<Edge>, d: LotId)
    requires ValidNetwork(n) && forall e | e in es :: e in n.edges
    ensures ValidSeeds(n, NeighbourSeeds(n, dir, es, d))
    ensures forall s | s in NeighbourSeeds(n, dir, es, d) :: exists e :: e in es && Target(dir, e) == d && Origin(dir, e) == s.lot
  {
    if es != [] {
      var init, last := es[..|es| - 1], es[|es| - 1];
      NeighbourSeedsValid(n, dir, init, d);
      assert ValidEdge(n.quantity, last);
      assert last in es && forall e | e in init :: e in es;
    }
  }

  lemma {:induction false} NeighbourSeedsWhole(n: Network, dir: Direction, es: seq<Edge>, d: LotId, e: Edge)
    requires ValidNetwork(n) && (forall e' | e' in es :: e' in n.edges) && e in es && Target(dir, e) == d
    ensures Seeded(NeighbourSeeds(n, dir, es, d), Origin(dir, e)) >= QuantityOf(n, Origin(dir, e))
  {
    var init, last := es[..|es| - 1], es[|es| - 1];
    var seeds := NeighbourSeeds(n, dir, init, d);
    NeighbourSeedsValid(n, dir, init, d);
    ValidSeedsPositive(n, seeds);
    SeededNonNegative(seeds, Origin(dir, e));
    assert last in es && ValidEdge(n.quantity, last);
    if Target(dir, last) == d {
      assert (seeds + [Seed(Origin(dir, last), QuantityOf(n, Origin(dir, last)))])[..|seeds|] == seeds;
    } else {
      assert seeds + [] == seeds;
    }
    if e in init {
      NeighbourSeedsWhole(n, dir, init, d, e);
    } else {
      assert e == last;
    }
  }

  /** The trace of all neighbours of `d` in full, on an acyclic genealogy. */
  lemma NeighbourTrace(n: Network, dir: Direction, d: LotId) returns (seeds: seq<Seed>, start: Work, last: nat)
    requires ValidNetwork(n) && Acyclic(n) && d in n.quantity
    ensures ProperStart(n, seeds, start) && Finished(n, dir, 0.0, start, last)
    ensures !IsSeed(seeds, d) && WholeNeighbours(n, dir, seeds, d)
  {
    seeds := NeighbourSeeds(n, dir, n.edges, d);
    NeighbourSeedsValid(n, dir, n.edges, d);
    AddSeedsProper(n, seeds);
    start := AddSeeds(n, seeds);
    forall e | e in n.edges && Target(dir, e) == d
      ensures Seeded(seeds, Origin(dir, e)) >= QuantityOf(n, Origin(dir, e))
    {
      NeighbourSeedsWhole(n, dir, n.edges, d, e);
    }
    var rank, top := AcyclicRank(dir, n);
    forall s | s in seeds ensures s.lot != d {
      var e :| e in n.edges && Target(dir, e) == d && Origin(dir, e) == s.lot;
      assert rank[Origin(dir, e)] < rank[Target(dir, e)];
    }
    last := RecallTermination.AcyclicTerminates(n, dir, 0.0, start);
  }

  /** Traced from any lots with any cut-off, but not from `d`, nothing that is asked of `d` is cut down. */
  ghost predicate Safe(n: Network, dir: Direction, d: LotId)
    requires ValidNetwork(n)
  {
    forall eps: real, seeds, start | eps >= 0.0 && ProperStart(n, seeds, start) && !IsSeed(seeds, d) :: !IsCut(n, dir, eps, start, d)
  }

  /**
   A lot is safe from the clamp in every trace, from one lot or several, that does not start at it if and
   only if it has room for all that its neighbours could pass on; back, if and only if its allocated
   outputs do not exceed it.
   */
  lemma SafeIffRoom(n: Network, dir: Direction, d: LotId)
    requires ValidNetwork(n) && Acyclic(n) && d in n.quantity
    ensures Safe(n, dir, d) <==> HasRoom(n, dir, d)
    ensures dir == Backward ==> (Safe(n, dir, d) <==> TotalOutput(n, d) <= n.quantity[d])
  {
    BackwardHasRoom(n, d);
    if HasRoom(n, dir, d) {
      forall eps: real, seeds, start | eps >= 0.0 && ProperStart(n, seeds, start) && !IsSeed(seeds, d) ensures !IsCut(n, dir, eps, start, d) {
        RoomIsSafe(n, dir, eps, seeds, start, d);
      }
    } else {
      var seeds, start, last := NeighbourTrace(n, dir, d);
      WholeNeighboursCut(n, dir, seeds, start, last, d);
    }
  }

  lemma WholeBoundsFound(n: Network, dir: Direction, w: Work, d: LotId)
    requires ValidNetwork(n) && Consistent(n, w)
    ensures Inflow(n, dir, Found(n, w), d) <= Inflow(n, dir, Whole(n), d)
  {
    forall e | e in n.edges && Target(dir, e) == d ensures Found(n, w)(Origin(dir, e)) <= Whole(n)(Origin(dir, e)) {}
    InflowMonotone(n, dir, Found(n, w), Whole(n), d);
  }

  lemma StartOnLots(n: Network, w: Work)
    requires Consistent(n, w)
    ensures RecallTermination.OnLots(n, w.queue)
  {
  }

  lemma RoomIsSafe(n: Network, dir: Direction, eps: real, seeds: seq<Seed>, start: Work, d: LotId)
    requires ValidNetwork(n) && Acyclic(n) && eps >= 0.0 && d in n.quantity && HasRoom(n, dir, d)
    requires ProperStart(n, seeds, start) && !IsSeed(seeds, d)
    ensures !IsCut(n, dir, eps, start, d)
  {
    StartOnLots(n, start);
    var last := RecallTermination.AcyclicTerminates(n, dir, eps, start);
    RunConsistent(n, dir, eps, start, last);
    WholeBoundsFound(n, dir, Run(n, dir, eps, start, last), d);
    if IsCut(n, dir, eps, start, d) { CutNeedsOverflow(n, dir, eps, seeds, start, last, d); }
  }

  // ----- a trace from one lot

  /** The part of a seed that its lot can hold. */
  function SeedAmount(n: Network, s: Seed): real {
    Min(s.quantityKg, QuantityOf(n, s.lot))
  }

  lemma SingleSeeded(s: Seed, d: LotId)
    ensures Seeded([s], d) == if d == s.lot then s.quantityKg else 0.0
    ensures IsSeed([s], d) <==> d == s.lot
  {
    assert [s][..0] == [];
    if d == s.lot { assert s in [s]; }
  }

  lemma SeedIsNotAsked(n: Network, dir: Direction, eps: real, s: Seed, start: Work, k: nat, i: nat)
    requires ValidNetwork(n) && Acyclic(n) && eps >= 0.0 && ProperStart(n, [s], start)
    ensures !CutBy(n, dir, eps, start, k, i, s.lot)
  {
    if CutBy(n, dir, eps, start, k, i, s.lot) {
      var w := Run(n, dir, eps, start, k);
      OutMembers(dir, n.edges, w.queue[k].lot);
      var e := Out(dir, n.edges, w.queue[k].lot)[i];
      assert w.queue[k] in w.queue && e in Out(dir, n.edges, w.queue[k].lot);
      NoneFlowsHome(n, dir, eps, s, start, k, e);
      RunConsistent(n, dir, eps, start, k);
    }
  }

  /** Nothing is ever asked of the only seed of an acyclic genealogy. */
  lemma SeedIsNotCut(n: Network, dir: Direction, eps: real, s: Seed, start: Work)
    requires ValidNetwork(n) && Acyclic(n) && eps >= 0.0 && ProperStart(n, [s], start)
    ensures !IsCut(n, dir, eps, start, s.lot)
  {
    forall k: nat, i: nat ensures !CutBy(n, dir, eps, start, k, i, s.lot) { SeedIsNotAsked(n, dir, eps, s, start, k, i); }
  }

  /** If nothing is cut down, the final amounts solve the linear equations. */
  lemma UncutIsLinear(n: Network, dir: Direction, s: Seed, start: Work, last: nat)
    requires ValidNetwork(n) && Acyclic(n) && s.lot in n.quantity && ProperStart(n, [s], start) && Finished(n, dir, 0.0, start, last)
    requires forall d | d in n.quantity && d != s.lot :: !IsCut(n, dir, 0.0, start, d)
    ensures SolvesLinear(n, dir, Single(s.lot, SeedAmount(n, s)), Found(n, Run(n, dir, 0.0, start, last)))
  {
    var x := Found(n, Run(n, dir, 0.0, start, last));
    TraceSolves(n, dir, [s], start, last);
    NothingIntoSeed(n, dir, s, start, last);
    forall d | d in n.quantity ensures x(d) == Single(s.lot, SeedAmount(n, s))(d) + Inflow(n, dir, x, d) {
      if d == s.lot {
        SingleSeeded(s, d);
      } else {
        UncutAt(n, dir, s, start, last, d);
      }
    }
  }

  lemma UncutAt(n: Network, dir: Direction, s: Seed, start: Work, last: nat, d: LotId)
    requires ValidNetwork(n) && ProperStart(n, [s], start) && Finished(n, dir, 0.0, start, last)
    requires d in n.quantity && d != s.lot && !IsCut(n, dir, 0.0, start, d)
    ensures Found(n, Run(n, dir, 0.0, start, last))(d) == Inflow(n, dir, Found(n, Run(n, dir, 0.0, start, last)), d)
  {
    SingleSeeded(s, d);
    TraceSolves(n, dir, [s], start, last);
    CutIffOverflow(n, dir, [s], start, last, d);
  }

  /** From a lot of an acyclic genealogy to itself there is only the empty walk. */
  lemma OnlyEmptyWalkHome(n: Network, dir: Direction, a: LotId)
    requires ValidNetwork(n) && Acyclic(n) && a in n.quantity
    ensures ListsWalks(n, dir, a, a, [[]]) && SumOver([[]], WalkWeights(n, dir)) == 1.0
  {
    var rank, top := AcyclicRank(dir, n);
    var ws: seq<seq<Edge>> := [[]];
    forall p ensures p in ws <==> Walk(dir, n.edges, a, p, a) {
      if Walk(dir, n.edges, a, p, a) && p != [] { WalkRank(dir, n, rank, top, a, p, a); }
    }
    assert ws[..0] == [];
  }

  /** A linear solution that fits every lot is what the trace finds, and nothing is cut down. */
  lemma FittingIsFound(n: Network, dir: Direction, s: Seed, start: Work, last: nat, x: LotId -> real, d: LotId)
    requires ValidNetwork(n) && Acyclic(n) && Distinct(n.edges) && s.lot in n.quantity
    requires ProperStart(n, [s], start) && Finished(n, dir, 0.0, start, last)
    requires SolvesLinear(n, dir, Single(s.lot, SeedAmount(n, s)), x) && forall d | d in n.quantity :: x(d) <= n.quantity[d]
    requires d in n.quantity && d != s.lot
    ensures !IsCut(n, dir, 0.0, start, d)
  {
    var found := Found(n, Run(n, dir, 0.0, start, last));
    FittingSolves(n, dir, s, x);
    TraceSolves(n, dir, [s], start, last);
    SolutionIsUnique(n, dir, [s], found, x);
    forall e | e in n.edges && Target(dir, e) == d ensures found(Origin(dir, e)) == x(Origin(dir, e)) { assert ValidEdge(n.quantity, e); }
    InflowCongruence(n, dir, found, x, d);
    SingleSeeded(s, d);
    CutIffOverflow(n, dir, [s], start, last, d);
  }

  lemma FittingSolves(n: Network, dir: Direction, s: Seed, x: LotId -> real)
    requires ValidNetwork(n) && Acyclic(n) && Distinct(n.edges) && s.lot in n.quantity
    requires SolvesLinear(n, dir, Single(s.lot, SeedAmount(n, s)), x) && forall d | d in n.quantity :: x(d) <= n.quantity[d]
    ensures Solves(n, dir, [s], x)
  {
    var c := SeedAmount(n, s);
    OnlyEmptyWalkHome(n, dir, s.lot);
    LinearIsWalkSum(n, dir, s.lot, c, x, s.lot, [[]]);
    ScaleOne(c);
    forall d | d in n.quantity ensures x(d) == Min(n.quantity[d], Seeded([s], d) + Inflow(n, dir, x, d)) {
      SingleSeeded(s, d);
    }
  }

  lemma ScaleOne(c: real)
    ensures Scale(c, 1.0) == c
  {
  }

  /** Lot by lot, the seed times the weight of the walks to the lot fits the lot. */
  ghost predicate WalksFit(n: Network, dir: Direction, s: Seed) {
    forall d, ws | d in n.quantity && ListsWalks(n, dir, s.lot, d, ws) ::
      Scale(SeedAmount(n, s), SumOver(ws, WalkWeights(n, dir))) <= n.quantity[d]
  }

  /**
   The exact condition for a trace from one lot: nothing is cut down if and only if, for every lot, the
   traced amount times the sum over the walks to it fits the lot. No trace is needed to tell.
   */
  lemma NothingCutIffWalksFit(n: Network, dir: Direction, s: Seed, start: Work)
    requires ValidNetwork(n) && Acyclic(n) && Distinct(n.edges) && s.lot in n.quantity && ProperStart(n, [s], start)
    ensures (forall d | d in n.quantity :: !IsCut(n, dir, 0.0, start, d)) <==> WalksFit(n, dir, s)
  {
    var last := RecallTermination.AcyclicTerminates(n, dir, 0.0, start);
    SeedIsNotCut(n, dir, 0.0, s, start);
    if forall d | d in n.quantity :: !IsCut(n, dir, 0.0, start, d) {
      UncutFits(n, dir, s, start, last);
    }
    if WalksFit(n, dir, s) {
      forall d | d in n.quantity ensures !IsCut(n, dir, 0.0, start, d) {
        if d != s.lot { FitIsUncut(n, dir, s, start, last, d); }
      }
    }
  }

  lemma UncutFits(n: Network, dir: Direction, s: Seed, start: Work, last: nat)
    requires ValidNetwork(n) && Acyclic(n) && Distinct(n.edges) && s.lot in n.quantity
    requires ProperStart(n, [s], start) && Finished(n, dir, 0.0, start, last)
    requires forall d | d in n.quantity && d != s.lot :: !IsCut(n, dir, 0.0, start, d)
    ensures WalksFit(n, dir, s)
  {
    var x := Found(n, Run(n, dir, 0.0, start, last));
    UncutIsLinear(n, dir, s, start, last);
    forall d, ws | d in n.quantity && ListsWalks(n, dir, s.lot, d, ws)
      ensures Scale(SeedAmount(n, s), SumOver(ws, WalkWeights(n, dir))) <= n.quantity[d]
    {
      LinearIsWalkSum(n, dir, s.lot, SeedAmount(n, s), x, d, ws);
    }
  }

  lemma FitIsUncut(n: Network, dir: Direction, s: Seed, start: Work, last: nat, d: LotId)
    requires ValidNetwork(n) && Acyclic(n) && Distinct(n.edges) && s.lot in n.quantity
    requires ProperStart(n, [s], start) && Finished(n, dir, 0.0, start, last)
    requires WalksFit(n, dir, s) && d in n.quantity && d != s.lot
    ensures !IsCut(n, dir, 0.0, start, d)
  {
    var c := SeedAmount(n, s);
    var rank, top := AcyclicRank(dir, n);
    WalkSumsSolve(n, dir, rank, top, s.lot);
    var x := Scaled(c, WalkSums(n, dir, s.lot, top));
    ScaledSolves(n, dir, s.lot, c, WalkSums(n, dir, s.lot, top));
    forall d | d in n.quantity ensures x(d) <= n.quantity[d] {
      var ws := WalksAreListed(n, dir, s.lot, d);
      LinearIsWalkSum(n, dir, s.lot, c, x, d, ws);
    }
    FittingIsFound(n, dir, s, start, last, x, d);
  }

  // ----- the same with a cut-off, and for all lots together

  lemma LessArrives(n: Network, dir: Direction, x: LotId -> real, y: LotId -> real, d: LotId)
    requires ValidNetwork(n) && forall id | id in n.quantity :: x(id) <= y(id)
    ensures Inflow(n, dir, x, d) <= Inflow(n, dir, y, d)
  {
    forall e | e in n.edges && Target(dir, e) == d ensures x(Origin(dir, e)) <= y(Origin(dir, e)) { assert ValidEdge(n.quantity, e); }
    InflowMonotone(n, dir, x, y, d);
  }

  /** A lot that the exact trace does not cut down, no trace with a cut-off does. */
  lemma CutOffCutsNoMore(n: Network, dir: Direction, eps: real, seeds: seq<Seed>, start: Work, d: LotId)
    requires ValidNetwork(n) && Acyclic(n) && eps >= 0.0 && ProperStart(n, seeds, start)
    requires d in n.quantity && !IsSeed(seeds, d) && !IsCut(n, dir, 0.0, start, d)
    ensures !IsCut(n, dir, eps, start, d)
  {
    StartOnLots(n, start);
    var last := RecallTermination.AcyclicTerminates(n, dir, 0.0, start);
    var last' := RecallTermination.AcyclicTerminates(n, dir, eps, start);
    var exact, found := Found(n, Run(n, dir, 0.0, start, last)), Found(n, Run(n, dir, eps, start, last'));
    TraceSolves(n, dir, seeds, start, last);
    CutOffOnlyLoses(n, dir, eps, seeds, start, last', exact);
    CutIffOverflow(n, dir, seeds, start, last, d);
    LessArrives(n, dir, found, exact, d);
    if IsCut(n, dir, eps, start, d) { CutNeedsOverflow(n, dir, eps, seeds, start, last', d); }
  }

  ghost predicate NothingCut(n: Network, dir: Direction, eps: real, start: Work)
    requires ValidNetwork(n)
  {
    forall d | d in n.quantity :: !IsCut(n, dir, eps, start, d)
  }

  /** If the walks fit, nothing is cut down with any cut-off. Only this half survives one: what would not fit may be dropped on its way. */
  lemma WalksFitCutsNothing(n: Network, dir: Direction, eps: real, s: Seed, start: Work)
    requires ValidNetwork(n) && Acyclic(n) && Distinct(n.edges) && eps >= 0.0 && s.lot in n.quantity && ProperStart(n, [s], start)
    requires WalksFit(n, dir, s)
    ensures NothingCut(n, dir, eps, start)
  {
    NothingCutIffWalksFit(n, dir, s, start);
    forall d | d in n.quantity ensures !IsCut(n, dir, eps, start, d) {
      SingleSeeded(s, d);
      if d == s.lot { SeedIsNotCut(n, dir, eps, s, start); } else { CutOffCutsNoMore(n, dir, eps, [s], start, d); }
    }
  }

  /** The whole of every lot, times the walks to any other, fits the other. */
  ghost predicate AllWalksFit(n: Network, dir: Direction) {
    forall a, d, ws | a in n.quantity && d in n.quantity && ListsWalks(n, dir, a, d, ws) ::
      Scale(n.quantity[a], SumOver(ws, WalkWeights(n, dir))) <= n.quantity[d]
  }

  /** No trace from one lot, of any quantity and with any cut-off, is cut down anywhere. */
  ghost predicate NoneCut(n: Network, dir: Direction)
    requires ValidNetwork(n)
  {
    forall eps: real, s, start | eps >= 0.0 && ValidSeed(n, s) && ProperStart(n, [s], start) :: NothingCut(n, dir, eps, start)
  }

  lemma WeightNonNegative(n: Network, dir: Direction, p: seq<Edge>)
    requires ValidNetwork(n) && forall e | e in p :: e in n.edges
    ensures WalkWeight(n, dir, p) >= 0.0
  {
    if p != [] {
      WeightNonNegative(n, dir, p[..|p| - 1]);
      RateNonNegative(n, dir, p[|p| - 1]);
      ScaleNonNegative(Rate(n, dir, p[|p| - 1]), WalkWeight(n, dir, p[..|p| - 1]));
    }
  }

  lemma {:induction false} WalkEdges(dir: Direction, edges: seq<Edge>, a: LotId, p: seq<Edge>, b: LotId)
    requires Walk(dir, edges, a, p, b)
    ensures forall e | e in p :: e in edges
  {
    if p != [] {
      WalkEdges(dir, edges, a, p[..|p| - 1], Origin(dir, p[|p| - 1]));
      assert p == p[..|p| - 1] + [p[|p| - 1]];
    }
  }

  lemma ListWeighs(n: Network, dir: Direction, a: LotId, d: LotId, ws: seq<seq<Edge>>)
    requires ValidNetwork(n) && ListsWalks(n, dir, a, d, ws)
    ensures SumOver(ws, WalkWeights(n, dir)) >= 0.0
  {
    forall p | p in ws ensures WalkWeights(n, dir)(p) >= 0.0 {
      WalkEdges(dir, n.edges, a, p, d);
      WeightNonNegative(n, dir, p);
    }
    SumNonNegative(ws, WalkWeights(n, dir));
  }

  lemma SmallerSeedFits(n: Network, dir: Direction, s: Seed)
    requires ValidNetwork(n) && s.lot in n.quantity && AllWalksFit(n, dir)
    ensures WalksFit(n, dir, s)
  {
    forall d, ws | d in n.quantity && ListsWalks(n, dir, s.lot, d, ws)
      ensures Scale(SeedAmount(n, s), SumOver(ws, WalkWeights(n, dir))) <= n.quantity[d]
    {
      var weight := SumOver(ws, WalkWeights(n, dir));
      ListWeighs(n, dir, s.lot, d, ws);
      ScaleMonotone(weight, SeedAmount(n, s), n.quantity[s.lot]);
      ScaleCommutes(weight, SeedAmount(n, s));
      ScaleCommutes(weight, n.quantity[s.lot]);
    }
  }

  lemma WholeSeedFits(n: Network, dir: Direction, a: LotId)
    requires ValidNetwork(n) && Acyclic(n) && Distinct(n.edges) && a in n.quantity && NoneCut(n, dir)
    ensures WalksFit(n, dir, Seed(a, n.quantity[a]))
  {
    var s := Seed(a, n.quantity[a]);
    var start := BackStart(n, s);
    BackStartProper(n, s);
    assert NothingCut(n, dir, 0.0, start);
    NothingCutIffWalksFit(n, dir, s, start);
  }

  /**
   No trace from one lot is ever cut down, whatever the lot, quantity and cut-off, if and only if the
   whole of every lot times the walks to any other fits the other.
   */
  lemma NoneCutIffAllWalksFit(n: Network, dir: Direction)
    requires ValidNetwork(n) && Acyclic(n) && Distinct(n.edges)
    ensures NoneCut(n, dir) <==> AllWalksFit(n, dir)
  {
    if AllWalksFit(n, dir) {
      forall eps: real, s, start | eps >= 0.0 && ValidSeed(n, s) && ProperStart(n, [s], start) ensures NothingCut(n, dir, eps, start) {
        SmallerSeedFits(n, dir, s);
        WalksFitCutsNothing(n, dir, eps, s, start);
      }
    }
    if NoneCut(n, dir) {
      forall a, d, ws | a in n.quantity && d in n.quantity && ListsWalks(n, dir, a, d, ws)
        ensures Scale(n.quantity[a], SumOver(ws, WalkWeights(n, dir))) <= n.quantity[d]
      {
        WholeSeedFits(n, dir, a);
        assert SeedAmount(n, Seed(a, n.quantity[a])) == n.quantity[a];
      }
    }
  }
}
