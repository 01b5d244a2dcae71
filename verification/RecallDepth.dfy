/**
 Depth and confidence of a trace. As long as no increment is dropped, each walk from a seed is replayed
 by the work-list, so the depth of a lot is the length of the longest walk to it and its bases are those
 of the walks to it. Without a cut-off nothing is dropped if no seed lies behind another and every lot
 has room.
 */
module RecallDepth {
  import opened Sums
  import opened TraceGraphs
  import opened Worklists
  import opened WorklistInvariants
  import opened RecallEquations
  import opened RecallReach
  import opened RecallStarts
  import opened RecallLosses

  /** No seed is reached from a seed. */
  ghost predicate SeedsApart(n: Network, dir: Direction, seeds: seq<Seed>) {
    forall a, p, b | IsSeed(seeds, a) && p != [] && Walk(dir, n.edges, a, p, b) :: !IsSeed(seeds, b)
  }

  ghost predicate RoomEverywhere(n: Network, dir: Direction) {
    forall d | d in n.quantity :: HasRoom(n, dir, d)
  }

  lemma {:induction false} PushEdgesSplit(n: Network, dir: Direction, eps: real, cur: Item, es: seq<Edge>, i: nat, w: Work)
    requires ValidNetwork(n) && i <= |es| && forall e | e in es :: e in n.edges
    ensures Grows(PushEdges(n, dir, eps, cur, es[..i], w), PushEdges(n, dir, eps, cur, es, w))
    decreases |es|
  {
    if i == |es| {
      assert es[..i] == es;
    } else {
      PushEdgesSplit(n, dir, eps, cur, es[..|es| - 1], i, w);
      assert es[..|es| - 1][..i] == es[..i];
    }
  }

  /** The state just before item `j` is pushed along its `i`-th edge. */
  function Before(n: Network, dir: Direction, eps: real, w: Work, j: nat, i: nat): Work
    requires ValidNetwork(n) && j < |w.queue| && i <= |Out(dir, n.edges, w.queue[j].lot)|
  {
    OutMembers(dir, n.edges, w.queue[j].lot);
    PushEdges(n, dir, eps, w.queue[j], Out(dir, n.edges, w.queue[j].lot)[..i], w)
  }

  /** So little is taken along the `i`-th edge of item `j` that it is dropped. */
  ghost predicate DropsEdge(n: Network, dir: Direction, eps: real, w: Work, j: nat, i: nat)
    requires ValidNetwork(n) && j < |w.queue|
  {
    var cur, es := w.queue[j], Out(dir, n.edges, w.queue[j].lot);
    OutMembers(dir, n.edges, cur.lot);
    i < |es| && Taken(n, dir, es[i], Requested(n, dir, es[i], cur.delta), Before(n, dir, eps, w, j, i)) <= eps
  }

  ghost predicate Drops(n: Network, dir: Direction, eps: real, start: Work, j: nat, i: nat)
    requires ValidNetwork(n)
  {
    j < |Run(n, dir, eps, start, j).queue| && DropsEdge(n, dir, eps, Run(n, dir, eps, start, j), j, i)
  }

  ghost predicate NothingDropped(n: Network, dir: Direction, eps: real, start: Work)
    requires ValidNetwork(n)
  {
    forall j: nat, i: nat :: !Drops(n, dir, eps, start, j, i)
  }

  /** What is not dropped is queued. */
  lemma EdgeReplayed(n: Network, dir: Direction, eps: real, w: Work, j: nat, i: nat, e: Edge)
    requires ValidNetwork(n) && j < |w.queue| && !DropsEdge(n, dir, eps, w, j, i)
    requires i < |Out(dir, n.edges, w.queue[j].lot)| && e == Out(dir, n.edges, w.queue[j].lot)[i]
    ensures var v, u := Before(n, dir, eps, w, j, i), Before(n, dir, eps, w, j, i + 1);
            && |u.queue| == |v.queue| + 1
            && u.queue[|v.queue|].lot == Target(dir, e) && u.queue[|v.queue|].depth == w.queue[j].depth + 1
            && BasisAt(v.basis, w.queue[j].lot) + {BasisOf(e.allocation)} <= BasisAt(u.basis, Target(dir, e))
  {
    var cur, es := w.queue[j], Out(dir, n.edges, w.queue[j].lot);
    OutMembers(dir, n.edges, cur.lot);
    assert es[i] in es && es[..i + 1][..i] == es[..i];
    assert Before(n, dir, eps, w, j, i + 1) == Offer(n, dir, eps, cur, e, Requested(n, dir, e, cur.delta), Before(n, dir, eps, w, j, i));
  }

  /** Item `next` of `after` continues item `j` of `w` along `e`: one deeper, with the same bases. */
  ghost predicate Continues(dir: Direction, w: Work, j: nat, e: Edge, after: Work, next: nat) {
    && j < |w.queue|
    && next < |after.queue|
    && after.queue[next].lot == Target(dir, e)
    && after.queue[next].depth == w.queue[j].depth + 1
    && BasisAt(w.basis, Origin(dir, e)) + {BasisOf(e.allocation)} <= BasisAt(after.basis, Target(dir, e))
  }

  lemma PrefixKept(n: Network, dir: Direction, eps: real, w: Work, j: nat, i: nat, id: LotId)
    requires ValidNetwork(n) && j < |w.queue| && i <= |Out(dir, n.edges, w.queue[j].lot)|
    ensures w.queue <= Before(n, dir, eps, w, j, i).queue <= RunItem(n, dir, eps, w.queue[j], w).queue
    ensures BasisAt(w.basis, id) <= BasisAt(Before(n, dir, eps, w, j, i).basis, id)
    ensures BasisAt(Before(n, dir, eps, w, j, i).basis, id) <= BasisAt(RunItem(n, dir, eps, w.queue[j], w).basis, id)
  {
    var es := Out(dir, n.edges, w.queue[j].lot);
    OutMembers(dir, n.edges, w.queue[j].lot);
    PushEdgesGrows(n, dir, eps, w.queue[j], es[..i], w);
    PushEdgesSplit(n, dir, eps, w.queue[j], es, i, w);
  }

  lemma StepReplayed(n: Network, dir: Direction, eps: real, w: Work, j: nat, e: Edge) returns (next: nat)
    requires ValidNetwork(n) && j < |w.queue| && forall i: nat :: !DropsEdge(n, dir, eps, w, j, i)
    requires e in n.edges && Origin(dir, e) == w.queue[j].lot
    ensures j < next && Continues(dir, w, j, e, RunItem(n, dir, eps, w.queue[j], w), next)
  {
    OutMembers(dir, n.edges, w.queue[j].lot);
    var i :| 0 <= i < |Out(dir, n.edges, w.queue[j].lot)| && Out(dir, n.edges, w.queue[j].lot)[i] == e;
    EdgeReplayed(n, dir, eps, w, j, i, Out(dir, n.edges, w.queue[j].lot)[i]);
    PrefixKept(n, dir, eps, w, j, i, Origin(dir, e));
    PrefixKept(n, dir, eps, w, j, i + 1, Target(dir, e));
    next := |Before(n, dir, eps, w, j, i).queue|;
  }

  /** Item `j` stands for a walk of `length` edges to `d` with the given bases. */
  ghost predicate Replays(at: Work, final: Work, j: nat, length: nat, bases: set<Basis>, d: LotId) {
    && j < |at.queue| && at.queue <= final.queue
    && at.queue[j].lot == d && length <= at.queue[j].depth
    && bases <= BasisAt(at.basis, d)
  }

  lemma ReplayCompose(dir: Direction, at: Work, after: Work, later: Work, final: Work, i: nat, e: Edge, j: nat, length: nat, bases: set<Basis>)
    requires Replays(at, final, i, length, bases, Origin(dir, e)) && Continues(dir, at, i, e, after, j)
    requires after.queue <= later.queue <= final.queue
    requires BasisAt(after.basis, Target(dir, e)) <= BasisAt(later.basis, Target(dir, e))
    ensures Replays(later, final, j, length + 1, bases + {BasisOf(e.allocation)}, Target(dir, e))
  {
  }

  lemma RunQueueGrows(n: Network, dir: Direction, eps: real, start: Work, i: nat, j: nat)
    requires ValidNetwork(n) && i <= j
    ensures Run(n, dir, eps, start, i).queue <= Run(n, dir, eps, start, j).queue
  {
    RunGrows(n, dir, eps, start, i, j);
  }

  lemma RunBasisGrows(n: Network, dir: Direction, eps: real, start: Work, i: nat, j: nat, id: LotId)
    requires ValidNetwork(n) && i <= j
    ensures BasisAt(Run(n, dir, eps, start, i).basis, id) <= BasisAt(Run(n, dir, eps, start, j).basis, id)
  {
    RunGrows(n, dir, eps, start, i, j);
  }

  lemma RunStepReplayed(n: Network, dir: Direction, eps: real, start: Work, i: nat, e: Edge) returns (j: nat)
    requires ValidNetwork(n) && NothingDropped(n, dir, eps, start) && i < |Run(n, dir, eps, start, i).queue|
    requires e in n.edges && Origin(dir, e) == Run(n, dir, eps, start, i).queue[i].lot
    ensures i < j && Continues(dir, Run(n, dir, eps, start, i), i, e, Run(n, dir, eps, start, i + 1), j)
  {
    var w := Run(n, dir, eps, start, i);
    forall m: nat ensures !DropsEdge(n, dir, eps, w, i, m) { assert !Drops(n, dir, eps, start, i, m); }
    j := StepReplayed(n, dir, eps, w, i, e);
  }

  lemma ContinuationIsQueued(n: Network, dir: Direction, eps: real, start: Work, k: nat, i: nat, e: Edge, j: nat)
    requires ValidNetwork(n) && Finished(n, dir, eps, start, k) && i < k
    requires Continues(dir, Run(n, dir, eps, start, i), i, e, Run(n, dir, eps, start, i + 1), j)
    ensures j < k
  {
    RunQueueGrows(n, dir, eps, start, i + 1, k);
  }

  lemma ContinuationReplays(n: Network, dir: Direction, eps: real, start: Work, k: nat, i: nat, e: Edge, j: nat, length: nat, bases: set<Basis>)
    requires ValidNetwork(n) && i < j < k
    requires Continues(dir, Run(n, dir, eps, start, i), i, e, Run(n, dir, eps, start, i + 1), j)
    requires Replays(Run(n, dir, eps, start, i), Run(n, dir, eps, start, k), i, length, bases, Origin(dir, e))
    ensures Replays(Run(n, dir, eps, start, j), Run(n, dir, eps, start, k), j, length + 1, bases + {BasisOf(e.allocation)}, Target(dir, e))
  {
    RunQueueGrows(n, dir, eps, start, i + 1, j);
    RunQueueGrows(n, dir, eps, start, j, k);
    RunBasisGrows(n, dir, eps, start, i + 1, j, Target(dir, e));
    ReplayCompose(dir, Run(n, dir, eps, start, i), Run(n, dir, eps, start, i + 1), Run(n, dir, eps, start, j),
      Run(n, dir, eps, start, k), i, e, j, length, bases);
  }

  lemma ReplayStep(n: Network, dir: Direction, eps: real, start: Work, k: nat, i: nat, e: Edge, length: nat, bases: set<Basis>) returns (j: nat)
    requires ValidNetwork(n) && Finished(n, dir, eps, start, k) && i < k
    requires e in n.edges && NothingDropped(n, dir, eps, start)
    requires Replays(Run(n, dir, eps, start, i), Run(n, dir, eps, start, k), i, length, bases, Origin(dir, e))
    ensures j < k
    ensures Replays(Run(n, dir, eps, start, j), Run(n, dir, eps, start, k), j, length + 1, bases + {BasisOf(e.allocation)}, Target(dir, e))
  {
    j := RunStepReplayed(n, dir, eps, start, i, e);
    ContinuationIsQueued(n, dir, eps, start, k, i, e, j);
    ContinuationReplays(n, dir, eps, start, k, i, e, j, length, bases);
  }

  lemma SeedReplayed(n: Network, dir: Direction, eps: real, seeds: seq<Seed>, start: Work, k: nat, a: LotId) returns (j: nat)
    requires ValidNetwork(n) && ProperStart(n, seeds, start) && Finished(n, dir, eps, start, k) && IsSeed(seeds, a)
    ensures j < k
    ensures Replays(Run(n, dir, eps, start, j), Run(n, dir, eps, start, k), j, 0, BasisAt(start.basis, a), a)
  {
    assert a in start.amount;
    AccountOf(n, start, a);
    QueuedHasItem(start.queue, a);
    var item :| item in start.queue && item.lot == a;
    j :| 0 <= j < |start.queue| && start.queue[j] == item;
    RunGrows(n, dir, eps, start, 0, k);
    RunGrows(n, dir, eps, start, 0, j);
    RunGrows(n, dir, eps, start, j, k);
  }

  lemma {:induction false} WalkReplayed(n: Network, dir: Direction, eps: real, seeds: seq<Seed>, start: Work, k: nat, a: LotId, p: seq<Edge>, d: LotId) returns (j: nat)
    requires ValidNetwork(n) && ProperStart(n, seeds, start) && Finished(n, dir, eps, start, k)
    requires NothingDropped(n, dir, eps, start)
    requires IsSeed(seeds, a) && Walk(dir, n.edges, a, p, d)
    ensures j < k
    ensures Replays(Run(n, dir, eps, start, j), Run(n, dir, eps, start, k), j, |p|, WalkBases(start, a, p), d)
    decreases |p|
  {
    if p == [] {
      j := SeedReplayed(n, dir, eps, seeds, start, k, a);
    } else {
      var init, e := p[..|p| - 1], p[|p| - 1];
      assert ValidEdge(n.quantity, e);
      var i := WalkReplayed(n, dir, eps, seeds, start, k, a, init, Origin(dir, e));
      j := ReplayStep(n, dir, eps, start, k, i, e, |init|, WalkBases(start, a, init));
    }
  }

  /** The longest walk from a seed to `d` has `depth` edges. */
  ghost predicate Longest(n: Network, dir: Direction, seeds: seq<Seed>, d: LotId, depth: nat) {
    && (exists a, p :: IsSeed(seeds, a) && Walk(dir, n.edges, a, p, d) && |p| == depth)
    && forall a, p | IsSeed(seeds, a) && Walk(dir, n.edges, a, p, d) :: |p| <= depth
  }

  /** With any cut-off: if nothing is dropped, the depth of a lot is the length of the longest walk to it from a seed. */
  lemma DepthIsLongestWalk(n: Network, dir: Direction, eps: real, seeds: seq<Seed>, start: Work, k: nat, d: LotId)
    requires ValidNetwork(n) && ProperStart(n, seeds, start) && Finished(n, dir, eps, start, k)
    requires NothingDropped(n, dir, eps, start)
    requires d in Run(n, dir, eps, start, k).amount
    ensures Longest(n, dir, seeds, d, DepthAt(Run(n, dir, eps, start, k).depth, d))
  {
    ScopeIsReached(n, dir, eps, seeds, start, k, d);
    RunTraced(n, dir, eps, seeds, start, k);
    forall a, p | IsSeed(seeds, a) && Walk(dir, n.edges, a, p, d)
      ensures |p| <= DepthAt(Run(n, dir, eps, start, k).depth, d)
    {
      var j := WalkReplayed(n, dir, eps, seeds, start, k, a, p, d);
      assert Run(n, dir, eps, start, k).queue[j] in Run(n, dir, eps, start, k).queue;
    }
  }

  ghost predicate OnSomeWalk(n: Network, dir: Direction, seeds: seq<Seed>, start: Work, d: LotId, b: Basis) {
    exists a, p :: IsSeed(seeds, a) && Walk(dir, n.edges, a, p, d) && b in WalkBases(start, a, p)
  }

  lemma WalkBasisIsKept(n: Network, dir: Direction, eps: real, seeds: seq<Seed>, start: Work, k: nat, d: LotId, b: Basis)
    requires ValidNetwork(n) && ProperStart(n, seeds, start) && Finished(n, dir, eps, start, k)
    requires NothingDropped(n, dir, eps, start)
    requires OnSomeWalk(n, dir, seeds, start, d, b)
    ensures b in BasisAt(Run(n, dir, eps, start, k).basis, d)
  {
    var a, p :| IsSeed(seeds, a) && Walk(dir, n.edges, a, p, d) && b in WalkBases(start, a, p);
    var j := WalkReplayed(n, dir, eps, seeds, start, k, a, p, d);
    RunGrows(n, dir, eps, start, j, k);
  }

  lemma KeptBasisIsOnWalk(n: Network, dir: Direction, eps: real, seeds: seq<Seed>, start: Work, k: nat, d: LotId, b: Basis)
    requires ValidNetwork(n) && ProperStart(n, seeds, start)
    requires b in BasisAt(Run(n, dir, eps, start, k).basis, d)
    ensures OnSomeWalk(n, dir, seeds, start, d, b)
  {
    RunTraced(n, dir, eps, seeds, start, k);
    assert BasisTraced(n, dir, start, d, b);
    var a, p :| WalkFromSeed(n, dir, start, a, p, d) && b in WalkBases(start, a, p);
    assert IsSeed(seeds, a);
  }

  /** If nothing is dropped, a lot is reported as estimated exactly when some walk to it starts from part of a lot or uses an estimated edge. */
  lemma ConfidenceIsExact(n: Network, dir: Direction, eps: real, seeds: seq<Seed>, start: Work, k: nat, d: LotId)
    requires ValidNetwork(n) && ProperStart(n, seeds, start) && Finished(n, dir, eps, start, k)
    requires NothingDropped(n, dir, eps, start)
    ensures Proportional in BasisAt(Run(n, dir, eps, start, k).basis, d) <==> OnSomeWalk(n, dir, seeds, start, d, Proportional)
  {
    if Proportional in BasisAt(Run(n, dir, eps, start, k).basis, d) {
      KeptBasisIsOnWalk(n, dir, eps, seeds, start, k, d, Proportional);
    }
    if OnSomeWalk(n, dir, seeds, start, d, Proportional) {
      WalkBasisIsKept(n, dir, eps, seeds, start, k, d, Proportional);
    }
  }

  // ----- when nothing is dropped

  /** Where there is room, and no cut-off, an increment that arrives is taken in full. */
  lemma RoomTakesAll(n: Network, dir: Direction, seeds: seq<Seed>, w: Work, j: nat, i: nat)
    requires ValidNetwork(n) && j < |w.queue| && Invariant(n, dir, 0.0, seeds, w, j) && i < |Out(dir, n.edges, w.queue[j].lot)|
    requires var d := Target(dir, Out(dir, n.edges, w.queue[j].lot)[i]); HasRoom(n, dir, d) && !IsSeed(seeds, d)
    ensures !DropsEdge(n, dir, 0.0, w, j, i)
  {
    var cur, es := w.queue[j], Out(dir, n.edges, w.queue[j].lot);
    OutMembers(dir, n.edges, cur.lot);
    assert cur in w.queue && es[i] in es;
    RoomForNext(n, dir, 0.0, seeds, w, j, es, i);
    RequestedIsRated(n, dir, es[i], cur);
    assert ValidEdge(n.quantity, es[i]);
  }

  /** The target of an edge of a queued item is reached from a seed, so it is none if seeds lie apart. */
  lemma TargetIsNoSeed(n: Network, dir: Direction, eps: real, seeds: seq<Seed>, start: Work, j: nat, e: Edge)
    requires ValidNetwork(n) && ProperStart(n, seeds, start) && SeedsApart(n, dir, seeds)
    requires j < |Run(n, dir, eps, start, j).queue| && e in n.edges && Origin(dir, e) == Run(n, dir, eps, start, j).queue[j].lot
    ensures !IsSeed(seeds, Target(dir, e))
  {
    var w := Run(n, dir, eps, start, j);
    RunTraced(n, dir, eps, seeds, start, j);
    assert w.queue[j] in w.queue && ItemTraced(n, dir, start, w.queue[j]);
    var a, p :| WalkFromSeed(n, dir, start, a, p, w.queue[j].lot) && |p| == w.queue[j].depth;
    ExtendWalk(n, dir, start, a, p, e);
    assert IsSeed(seeds, a) && p + [e] != [];
  }

  lemma ApartDropsNot(n: Network, dir: Direction, seeds: seq<Seed>, start: Work, j: nat, i: nat)
    requires ValidNetwork(n) && ProperStart(n, seeds, start) && SeedsApart(n, dir, seeds) && RoomEverywhere(n, dir)
    ensures !Drops(n, dir, 0.0, start, j, i)
  {
    var w := Run(n, dir, 0.0, start, j);
    if j < |w.queue| && i < |Out(dir, n.edges, w.queue[j].lot)| {
      var e := Out(dir, n.edges, w.queue[j].lot)[i];
      OutMembers(dir, n.edges, w.queue[j].lot);
      assert e in Out(dir, n.edges, w.queue[j].lot) && ValidEdge(n.quantity, e);
      TargetIsNoSeed(n, dir, 0.0, seeds, start, j, e);
      RunInvariant(n, dir, 0.0, seeds, start, j);
      RoomTakesAll(n, dir, seeds, w, j, i);
    }
  }

  /** Without a cut-off, nothing is dropped if no seed lies behind another and every lot has room. */
  lemma ApartDropsNothing(n: Network, dir: Direction, seeds: seq<Seed>, start: Work)
    requires ValidNetwork(n) && ProperStart(n, seeds, start) && SeedsApart(n, dir, seeds) && RoomEverywhere(n, dir)
    ensures NothingDropped(n, dir, 0.0, start)
  {
    forall j: nat, i: nat ensures !Drops(n, dir, 0.0, start, j, i) { ApartDropsNot(n, dir, seeds, start, j, i); }
  }

  // ----- exactly when, for whole lots

  lemma {:induction false} FullLotUntouched(n: Network, dir: Direction, eps: real, cur: Item, es: seq<Edge>, w: Work, b: LotId)
    requires ValidNetwork(n) && eps >= 0.0 && b in w.amount && w.amount[b] >= QuantityOf(n, b) && forall e | e in es :: e in n.edges
    ensures var v := PushEdges(n, dir, eps, cur, es, w); b in v.amount && v.amount[b] == w.amount[b] && DepthAt(v.depth, b) == DepthAt(w.depth, b)
  {
    if es != [] { FullLotUntouched(n, dir, eps, cur, es[..|es| - 1], w, b); }
  }

  /**
   A lot that is a seed as a whole keeps depth zero, with any cut-off. So where another seed lies behind
   it, its recorded depth is not the length of the longest walk to it.
   */
  lemma {:induction false} WholeSeedKeepsDepthZero(n: Network, dir: Direction, eps: real, seeds: seq<Seed>, start: Work, k: nat, b: LotId)
    requires ValidNetwork(n) && eps >= 0.0 && ProperStart(n, seeds, start)
    requires IsSeed(seeds, b) && b in n.quantity && Seeded(seeds, b) >= n.quantity[b]
    ensures var w := Run(n, dir, eps, start, k);
            b in w.amount && w.amount[b] >= n.quantity[b] && DepthAt(w.depth, b) == 0
  {
    if k == 0 {
      StartOf(n, seeds, start, b);
    } else {
      WholeSeedKeepsDepthZero(n, dir, eps, seeds, start, k - 1, b);
      var w := Run(n, dir, eps, start, k - 1);
      if k - 1 < |w.queue| {
        OutMembers(dir, n.edges, w.queue[k - 1].lot);
        FullLotUntouched(n, dir, eps, w.queue[k - 1], Out(dir, n.edges, w.queue[k - 1].lot), w, b);
      }
    }
  }

  /** Every seed is a whole lot. */
  ghost predicate WholeSeeds(n: Network, seeds: seq<Seed>) {
    forall b | IsSeed(seeds, b) :: b in n.quantity && Seeded(seeds, b) >= n.quantity[b]
  }

  ghost predicate DepthsAreLongest(n: Network, dir: Direction, seeds: seq<Seed>, w: Work) {
    forall d | d in w.amount :: Longest(n, dir, seeds, d, DepthAt(w.depth, d))
  }

  lemma BehindIsShort(n: Network, dir: Direction, seeds: seq<Seed>, start: Work, k: nat, a: LotId, p: seq<Edge>, b: LotId)
    requires ValidNetwork(n) && ProperStart(n, seeds, start) && WholeSeeds(n, seeds)
    requires IsSeed(seeds, a) && p != [] && Walk(dir, n.edges, a, p, b) && IsSeed(seeds, b)
    ensures !DepthsAreLongest(n, dir, seeds, Run(n, dir, 0.0, start, k))
  {
    WholeSeedKeepsDepthZero(n, dir, 0.0, seeds, start, k, b);
    assert !Longest(n, dir, seeds, b, 0);
  }

  /**
   Where every lot has room, and whole lots are traced without a cut-off: every recorded depth is the
   length of the longest walk from a seed if and only if no seed lies behind another.
   */
  lemma DepthsAreLongestIffApart(n: Network, dir: Direction, seeds: seq<Seed>, start: Work, k: nat)
    requires ValidNetwork(n) && ProperStart(n, seeds, start) && Finished(n, dir, 0.0, start, k)
    requires RoomEverywhere(n, dir) && WholeSeeds(n, seeds)
    ensures DepthsAreLongest(n, dir, seeds, Run(n, dir, 0.0, start, k)) <==> SeedsApart(n, dir, seeds)
  {
    if SeedsApart(n, dir, seeds) {
      ApartDropsNothing(n, dir, seeds, start);
      forall d | d in Run(n, dir, 0.0, start, k).amount ensures Longest(n, dir, seeds, d, DepthAt(Run(n, dir, 0.0, start, k).depth, d)) {
        DepthIsLongestWalk(n, dir, 0.0, seeds, start, k, d);
      }
    } else {
      var a, p, b :| IsSeed(seeds, a) && p != [] && Walk(dir, n.edges, a, p, b) && IsSeed(seeds, b);
      BehindIsShort(n, dir, seeds, start, k, a, p, b);
    }
  }

  // ----- one lot

  lemma OneSeedIsApart(n: Network, dir: Direction, s: Seed)
    requires ValidNetwork(n) && Acyclic(n)
    ensures SeedsApart(n, dir, [s])
  {
    var rank, top := AcyclicRank(dir, n);
    forall a, p, b | IsSeed([s], a) && p != [] && Walk(dir, n.edges, a, p, b) ensures !IsSeed([s], b) {
      WalkRank(dir, n, rank, top, a, p, b);
      assert a == s.lot;
    }
  }

  /** A trace from one lot of an acyclic genealogy in which every lot has room. */
  lemma FromOneLot(n: Network, dir: Direction, s: Seed, start: Work, k: nat, d: LotId)
    requires ValidNetwork(n) && Acyclic(n) && RoomEverywhere(n, dir)
    requires ProperStart(n, [s], start) && Finished(n, dir, 0.0, start, k)
    ensures d in Run(n, dir, 0.0, start, k).amount ==> Longest(n, dir, [s], d, DepthAt(Run(n, dir, 0.0, start, k).depth, d))
    ensures Proportional in BasisAt(Run(n, dir, 0.0, start, k).basis, d) <==> OnSomeWalk(n, dir, [s], start, d, Proportional)
  {
    OneSeedIsApart(n, dir, s);
    ApartDropsNothing(n, dir, [s], start);
    if d in Run(n, dir, 0.0, start, k).amount { DepthIsLongestWalk(n, dir, 0.0, [s], start, k, d); }
    ConfidenceIsExact(n, dir, 0.0, [s], start, k, d);
  }

  /** Forward from one lot of an acyclic genealogy, depth and confidence need no condition. */
  lemma ForwardFromOneLot(n: Network, s: Seed, start: Work, k: nat, d: LotId)
    requires ValidNetwork(n) && Acyclic(n) && ProperStart(n, [s], start) && Finished(n, Forward, 0.0, start, k)
    ensures d in Run(n, Forward, 0.0, start, k).amount ==>
              Longest(n, Forward, [s], d, DepthAt(Run(n, Forward, 0.0, start, k).depth, d))
    ensures Proportional in BasisAt(Run(n, Forward, 0.0, start, k).basis, d) <==> OnSomeWalk(n, Forward, [s], start, d, Proportional)
  {
    forall id | id in n.quantity ensures HasRoom(n, Forward, id) { ForwardHasRoom(n, id); }
    FromOneLot(n, Forward, s, start, k, d);
  }

  /** Back from one lot they need only that no lot is allocated beyond what it holds. */
  lemma BackFromOneLot(n: Network, s: Seed, start: Work, k: nat, d: LotId)
    requires ValidNetwork(n) && Acyclic(n) && ProperStart(n, [s], start) && Finished(n, Backward, 0.0, start, k)
    requires forall id | id in n.quantity :: TotalOutput(n, id) <= n.quantity[id]
    ensures d in Run(n, Backward, 0.0, start, k).amount ==>
              Longest(n, Backward, [s], d, DepthAt(Run(n, Backward, 0.0, start, k).depth, d))
    ensures Proportional in BasisAt(Run(n, Backward, 0.0, start, k).basis, d) <==> OnSomeWalk(n, Backward, [s], start, d, Proportional)
  {
    forall id | id in n.quantity ensures HasRoom(n, Backward, id) { BackwardHasRoom(n, id); }
    FromOneLot(n, Backward, s, start, k, d);
  }

  // ----- a request on which the depth falls short

  lemma TwoSeeds(a: Seed, b: Seed, id: LotId)
    requires a.lot != b.lot
    ensures Seeded([a, b], id) == if id == a.lot then a.quantityKg else if id == b.lot then b.quantityKg else 0.0
    ensures IsSeed([a, b], id) <==> id == a.lot || id == b.lot
  {
    var seeds := [a, b];
    assert seeds[..1] == [a] && [a][..0] == [];
    assert Seeded(seeds[..1], id) == if id == a.lot then a.quantityKg else 0.0;
    assert a in seeds && b in seeds;
  }

  /** Two lots of a kilogram, the first wholly made into the second, both suspect: the second stays at depth zero, one edge behind the first. */
  lemma SuspectBehindSuspect() returns (n: Network, seeds: seq<Seed>, e: Edge)
    ensures ValidNetwork(n) && Acyclic(n) && ValidSeeds(n, seeds) && e in n.edges
    ensures IsSeed(seeds, 0) && Walk(Forward, n.edges, 0, [e], 1)
    ensures forall eps: real, k: nat | eps >= 0.0 :: DepthAt(Run(n, Forward, eps, AddSeeds(n, seeds), k).depth, 1) == 0
  {
    e := Edge(0, 0, 1, 1.0, Declared);
    n, seeds := Network(map[0 := 1.0, 1 := 1.0], [e]), [Seed(0, 1.0), Seed(1, 1.0)];
    assert Ranked(Forward, n, map[0 := 0, 1 := 1], 2);
    assert [e][..0] == [] && Walk(Forward, n.edges, 0, [e], 1);
    TwoSeeds(seeds[0], seeds[1], 0);
    TwoSeeds(seeds[0], seeds[1], 1);
    AddSeedsProper(n, seeds);
    forall eps: real, k: nat | eps >= 0.0 ensures DepthAt(Run(n, Forward, eps, AddSeeds(n, seeds), k).depth, 1) == 0 {
      WholeSeedKeepsDepthZero(n, Forward, eps, seeds, AddSeeds(n, seeds), k, 1);
    }
  }
}
