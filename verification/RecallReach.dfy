/**
 The scope of a trace: which lots it touches, at what depth and with what confidence, and why the
 work-list always comes to an end.
 */
module RecallReach {
  import opened Sums
  import opened TraceGraphs
  import opened Worklists
  import opened WorklistInvariants
  import opened RecallEquations

  // ----- everything touched is reached by a walk

  /** How quantities that travel along `p` from `a` were attributed. */
  function WalkBases(start: Work, a: LotId, p: seq<Edge>): set<Basis> {
    if p == [] then BasisAt(start.basis, a)
    else WalkBases(start, a, p[..|p| - 1]) + {BasisOf(p[|p| - 1].allocation)}
  }

  ghost predicate WalkFromSeed(n: Network, dir: Direction, start: Work, a: LotId, p: seq<Edge>, b: LotId) {
    a in start.amount && Walk(dir, n.edges, a, p, b)
  }

  /** A queue item sits at the end of a walk as long as its depth. */
  ghost predicate ItemTraced(n: Network, dir: Direction, start: Work, item: Item) {
    exists a, p :: WalkFromSeed(n, dir, start, a, p, item.lot) && |p| == item.depth
  }

  ghost predicate BasisTraced(n: Network, dir: Direction, start: Work, id: LotId, b: Basis) {
    exists a, p :: WalkFromSeed(n, dir, start, a, p, id) && b in WalkBases(start, a, p)
  }

  /** Some item of the lot has the recorded depth. */
  ghost predicate Deepest(w: Work, id: LotId)
    requires id in w.depth
  {
    exists item :: item in w.queue && item.lot == id && item.depth == w.depth[id]
  }

  ghost predicate Traced(n: Network, dir: Direction, start: Work, w: Work) {
    && w.amount.Keys == w.depth.Keys == w.basis.Keys
    && (forall item | item in w.queue :: ItemTraced(n, dir, start, item))
    && (forall item | item in w.queue :: item.lot in w.depth && item.depth <= w.depth[item.lot])
    && (forall id {:trigger Deepest(w, id)} | id in w.depth :: Deepest(w, id))
    && (forall id, b | id in w.basis && b in w.basis[id] :: BasisTraced(n, dir, start, id, b))
  }

  lemma ExtendWalk(n: Network, dir: Direction, start: Work, a: LotId, p: seq<Edge>, e: Edge)
    requires WalkFromSeed(n, dir, start, a, p, Origin(dir, e)) && e in n.edges
    ensures WalkFromSeed(n, dir, start, a, p + [e], Target(dir, e))
    ensures WalkBases(start, a, p + [e]) == WalkBases(start, a, p) + {BasisOf(e.allocation)}
  {
    assert (p + [e])[..|p|] == p;
  }

  lemma OfferItemsTraced(n: Network, dir: Direction, eps: real, start: Work, cur: Item, e: Edge, asked: real, w: Work)
    requires Traced(n, dir, start, w) && cur in w.queue && e in n.edges && Origin(dir, e) == cur.lot
    ensures forall item | item in Offer(n, dir, eps, cur, e, asked, w).queue :: ItemTraced(n, dir, start, item)
  {
    assert ItemTraced(n, dir, start, cur);
    var a, p :| WalkFromSeed(n, dir, start, a, p, cur.lot) && |p| == cur.depth;
    ExtendWalk(n, dir, start, a, p, e);
    var v := Offer(n, dir, eps, cur, e, asked, w);
    forall item | item in v.queue ensures ItemTraced(n, dir, start, item) {
      if item !in w.queue { assert item == v.queue[|w.queue|]; }
    }
  }

  lemma OfferDepths(n: Network, dir: Direction, eps: real, cur: Item, e: Edge, asked: real, w: Work, item: Item)
    requires forall i | i in w.queue :: i.lot in w.depth && i.depth <= w.depth[i.lot]
    requires item in Offer(n, dir, eps, cur, e, asked, w).queue
    ensures var v := Offer(n, dir, eps, cur, e, asked, w); item.lot in v.depth && item.depth <= v.depth[item.lot]
  {
    var v := Offer(n, dir, eps, cur, e, asked, w);
    if item !in w.queue { assert item == v.queue[|w.queue|]; }
  }

  lemma OfferDeepest(n: Network, dir: Direction, eps: real, cur: Item, e: Edge, asked: real, w: Work, id: LotId)
    requires id in w.depth ==> Deepest(w, id)
    requires id in Offer(n, dir, eps, cur, e, asked, w).depth
    ensures Deepest(Offer(n, dir, eps, cur, e, asked, w), id)
  {
    var v := Offer(n, dir, eps, cur, e, asked, w);
    if v != w {
      var item := v.queue[|w.queue|];
      assert item in v.queue;
      if id in w.depth && v.depth[id] == w.depth[id] {
        var i :| i in w.queue && i.lot == id && i.depth == w.depth[id];
        assert i in v.queue;
      }
    }
  }

  lemma OfferBasisTraced(n: Network, dir: Direction, start: Work, cur: Item, e: Edge, w: Work, target: LotId, basis: set<Basis>)
    requires Traced(n, dir, start, w) && cur in w.queue && e in n.edges && Origin(dir, e) == cur.lot && target == Target(dir, e)
    requires basis == BasisAt(w.basis, target) + BasisAt(w.basis, cur.lot) + {BasisOf(e.allocation)}
    ensures forall b | b in basis :: BasisTraced(n, dir, start, target, b)
  {
    assert ItemTraced(n, dir, start, cur);
    var a, p :| WalkFromSeed(n, dir, start, a, p, cur.lot) && |p| == cur.depth;
    forall b | b in basis ensures BasisTraced(n, dir, start, target, b) {
      if b !in BasisAt(w.basis, target) { BasisCarried(n, dir, start, cur, e, w, b, a, p); }
    }
  }

  lemma OfferBasesTraced(n: Network, dir: Direction, eps: real, start: Work, cur: Item, e: Edge, asked: real, w: Work)
    requires Traced(n, dir, start, w) && cur in w.queue && e in n.edges && Origin(dir, e) == cur.lot
    ensures var v := Offer(n, dir, eps, cur, e, asked, w);
            forall id, b | id in v.basis && b in v.basis[id] :: BasisTraced(n, dir, start, id, b)
  {
    var v := Offer(n, dir, eps, cur, e, asked, w);
    if v != w { OfferBasisTraced(n, dir, start, cur, e, w, Target(dir, e), v.basis[Target(dir, e)]); }
  }

  lemma OfferTraced(n: Network, dir: Direction, eps: real, start: Work, cur: Item, e: Edge, asked: real, w: Work)
    requires Traced(n, dir, start, w) && cur in w.queue && e in n.edges && Origin(dir, e) == cur.lot
    ensures Traced(n, dir, start, Offer(n, dir, eps, cur, e, asked, w))
  {
    var v := Offer(n, dir, eps, cur, e, asked, w);
    OfferItemsTraced(n, dir, eps, start, cur, e, asked, w);
    forall item | item in v.queue ensures item.lot in v.depth && item.depth <= v.depth[item.lot] {
      OfferDepths(n, dir, eps, cur, e, asked, w, item);
    }
    forall id | id in v.depth ensures Deepest(v, id) {
      assert id in w.depth ==> Deepest(w, id);
      OfferDeepest(n, dir, eps, cur, e, asked, w, id);
    }
    OfferBasesTraced(n, dir, eps, start, cur, e, asked, w);
  }

  lemma BasisCarried(n: Network, dir: Direction, start: Work, cur: Item, e: Edge, w: Work, b: Basis, a: LotId, p: seq<Edge>)
    requires Traced(n, dir, start, w) && e in n.edges && Origin(dir, e) == cur.lot
    requires WalkFromSeed(n, dir, start, a, p, cur.lot)
    requires b == BasisOf(e.allocation) || b in BasisAt(w.basis, cur.lot)
    ensures BasisTraced(n, dir, start, Target(dir, e), b)
  {
    if b == BasisOf(e.allocation) {
      ExtendWalk(n, dir, start, a, p, e);
      assert b in WalkBases(start, a, p + [e]);
    } else {
      assert BasisTraced(n, dir, start, cur.lot, b);
      var a', p' :| WalkFromSeed(n, dir, start, a', p', cur.lot) && b in WalkBases(start, a', p');
      ExtendWalk(n, dir, start, a', p', e);
      assert b in WalkBases(start, a', p' + [e]);
    }
  }

  lemma {:induction false} PushEdgesTraced(n: Network, dir: Direction, eps: real, start: Work, cur: Item, es: seq<Edge>, w: Work)
    requires ValidNetwork(n) && Traced(n, dir, start, w) && cur in w.queue
    requires forall e | e in es :: e in n.edges && Origin(dir, e) == cur.lot
    ensures Traced(n, dir, start, PushEdges(n, dir, eps, cur, es, w))
  {
    if es != [] {
      var init, e := es[..|es| - 1], es[|es| - 1];
      PushEdgesTraced(n, dir, eps, start, cur, init, w);
      PushEdgesGrows(n, dir, eps, cur, init, w);
      OfferTraced(n, dir, eps, start, cur, e, Requested(n, dir, e, cur.delta), PushEdges(n, dir, eps, cur, init, w));
    }
  }

  lemma StartTraced(n: Network, dir: Direction, seeds: seq<Seed>, start: Work)
    requires ProperStart(n, seeds, start)
    ensures Traced(n, dir, start, start)
  {
    forall item | item in start.queue ensures ItemTraced(n, dir, start, item) {
      assert WalkFromSeed(n, dir, start, item.lot, [], item.lot);
    }
    forall id | id in start.depth ensures Deepest(start, id) {
      AccountOf(n, start, id);
      QueuedHasItem(start.queue, id);
    }
    forall id, b | id in start.basis && b in start.basis[id] ensures BasisTraced(n, dir, start, id, b) {
      assert WalkFromSeed(n, dir, start, id, [], id);
      assert b in WalkBases(start, id, []);
    }
  }

  lemma {:induction false} RunTraced(n: Network, dir: Direction, eps: real, seeds: seq<Seed>, start: Work, k: nat)
    requires ValidNetwork(n) && ProperStart(n, seeds, start)
    ensures Traced(n, dir, start, Run(n, dir, eps, start, k))
  {
    if k == 0 {
      StartTraced(n, dir, seeds, start);
    } else {
      RunTraced(n, dir, eps, seeds, start, k - 1);
      var w := Run(n, dir, eps, start, k - 1);
      if k - 1 < |w.queue| {
        OutMembers(dir, n.edges, w.queue[k - 1].lot);
        PushEdgesTraced(n, dir, eps, start, w.queue[k - 1], Out(dir, n.edges, w.queue[k - 1].lot), w);
      }
    }
  }

  /** Whatever the cut-off: every lot in the result lies at the end of a walk from a seed, as long as its recorded depth. */
  lemma ScopeIsReached(n: Network, dir: Direction, eps: real, seeds: seq<Seed>, start: Work, k: nat, d: LotId)
    requires ValidNetwork(n) && ProperStart(n, seeds, start)
    requires d in Run(n, dir, eps, start, k).amount
    ensures exists a, p :: IsSeed(seeds, a) && Walk(dir, n.edges, a, p, d) && |p| == DepthAt(Run(n, dir, eps, start, k).depth, d)
  {
    var w := Run(n, dir, eps, start, k);
    RunTraced(n, dir, eps, seeds, start, k);
    assert Deepest(w, d);
    var item :| item in w.queue && item.lot == d && item.depth == w.depth[d];
    var a, p :| WalkFromSeed(n, dir, start, a, p, item.lot) && |p| == item.depth;
    assert IsSeed(seeds, a);
  }

  // ----- with no cut-off, everything reached is touched

  ghost predicate PositiveSeeds(seeds: seq<Seed>) {
    forall s | s in seeds :: s.quantityKg > 0.0
  }

  lemma {:induction false} SeededNonNegative(seeds: seq<Seed>, id: LotId)
    requires PositiveSeeds(seeds)
    ensures Seeded(seeds, id) >= 0.0
  {
    if seeds != [] {
      assert seeds[|seeds| - 1] in seeds;
      SeededNonNegative(seeds[..|seeds| - 1], id);
    }
  }

  /** A positive amount at one end of an edge leaves a positive amount at the other. */
  lemma AmountSpreads(n: Network, dir: Direction, seeds: seq<Seed>, x: LotId -> real, e: Edge)
    requires ValidNetwork(n) && PositiveSeeds(seeds) && Solves(n, dir, seeds, x) && e in n.edges
    requires forall id :: x(id) >= 0.0
    requires x(Origin(dir, e)) > 0.0
    ensures x(Target(dir, e)) > 0.0
  {
    var d, f := Target(dir, e), ShareOf(n, dir, x, Target(dir, e));
    assert ValidEdge(n.quantity, e);
    SeededNonNegative(seeds, d);
    forall e' | e' in n.edges ensures f(e') >= 0.0 {
      RateNonNegative(n, dir, e');
      ScaleNonNegative(Rate(n, dir, e'), x(Origin(dir, e')));
    }
    SumMember(n.edges, e, f);
    RateNonNegative(n, dir, e);
    ScalePositive(Rate(n, dir, e), x(Origin(dir, e)));
  }

  lemma {:induction false} WalkSpreads(n: Network, dir: Direction, seeds: seq<Seed>, x: LotId -> real, a: LotId, p: seq<Edge>, b: LotId)
    requires ValidNetwork(n) && PositiveSeeds(seeds) && Solves(n, dir, seeds, x)
    requires forall id :: x(id) >= 0.0
    requires x(a) > 0.0 && Walk(dir, n.edges, a, p, b)
    ensures x(b) > 0.0
  {
    if p != [] {
      var e := p[|p| - 1];
      WalkSpreads(n, dir, seeds, x, a, p[..|p| - 1], Origin(dir, e));
      AmountSpreads(n, dir, seeds, x, e);
    }
  }

  lemma FoundPositive(n: Network, w: Work)
    requires ValidNetwork(n) && Consistent(n, w)
    ensures forall id :: Found(n, w)(id) >= 0.0
    ensures forall id :: Found(n, w)(id) > 0.0 <==> id in w.amount
  {
  }

  /** With no cut-off the trace touches exactly the lots that the seeds reach. */
  lemma ScopeIsReachability(n: Network, dir: Direction, seeds: seq<Seed>, start: Work, k: nat, d: LotId)
    requires ValidNetwork(n) && PositiveSeeds(seeds) && ProperStart(n, seeds, start)
    requires Finished(n, dir, 0.0, start, k)
    ensures d in Run(n, dir, 0.0, start, k).amount <==> exists a :: IsSeed(seeds, a) && Reaches(dir, n.edges, a, d)
  {
    var w := Run(n, dir, 0.0, start, k);
    if d in w.amount {
      ScopeIsReached(n, dir, 0.0, seeds, start, k, d);
      var a, p :| IsSeed(seeds, a) && Walk(dir, n.edges, a, p, d) && |p| == DepthAt(w.depth, d);
      assert Reaches(dir, n.edges, a, d);
    }
    if exists a :: IsSeed(seeds, a) && Reaches(dir, n.edges, a, d) {
      var a :| IsSeed(seeds, a) && Reaches(dir, n.edges, a, d);
      var p :| Walk(dir, n.edges, a, p, d);
      ReachedIsTouched(n, dir, seeds, start, k, a, p, d);
    }
  }

  lemma ReachedIsTouched(n: Network, dir: Direction, seeds: seq<Seed>, start: Work, k: nat, a: LotId, p: seq<Edge>, d: LotId)
    requires ValidNetwork(n) && PositiveSeeds(seeds) && ProperStart(n, seeds, start)
    requires Finished(n, dir, 0.0, start, k)
    requires IsSeed(seeds, a) && Walk(dir, n.edges, a, p, d)
    ensures d in Run(n, dir, 0.0, start, k).amount
  {
    var w := Run(n, dir, 0.0, start, k);
    RunConsistent(n, dir, 0.0, start, k);
    RunGrows(n, dir, 0.0, start, 0, k);
    TraceSolves(n, dir, seeds, start, k);
    FoundPositive(n, w);
    WalkSpreads(n, dir, seeds, Found(n, w), a, p, d);
  }
}
