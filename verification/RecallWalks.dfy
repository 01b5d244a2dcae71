/**
 Amounts as sums over walks: what a trace from one lot finds at another is, without cut-off and clamp,
 the sum over all walks between them of the products of the rates along the walk.
 */
module RecallWalks {
  import opened Sums
  import opened TraceGraphs
  import opened Worklists
  import opened WorklistInvariants
  import opened RecallEquations
  import opened RecallDuality

  /** The product of the rates along a walk. */
  function WalkWeight(n: Network, dir: Direction, p: seq<Edge>): real {
    if p == [] then 1.0 else Scale(Rate(n, dir, p[|p| - 1]), WalkWeight(n, dir, p[..|p| - 1]))
  }

  function WalkWeights(n: Network, dir: Direction): seq<Edge> -> real {
    (p: seq<Edge>) => WalkWeight(n, dir, p)
  }

  /** `ws` names every walk from `a` to `d` once. */
  ghost predicate ListsWalks(n: Network, dir: Direction, a: LotId, d: LotId, ws: seq<seq<Edge>>) {
    Distinct(ws) && forall p :: p in ws <==> Walk(dir, n.edges, a, p, d)
  }

  // ----- listing the walks

  function Extended(ws: seq<seq<Edge>>, e: Edge): seq<seq<Edge>> {
    if ws == [] then [] else Extended(ws[..|ws| - 1], e) + [ws[|ws| - 1] + [e]]
  }

  /** The walks of at most `k` edges from `a` to `d`. */
  function WalksInto(dir: Direction, edges: seq<Edge>, a: LotId, d: LotId, k: nat): seq<seq<Edge>>
    decreases k, 1, |edges| + 1
  {
    (if a == d then [[]] else []) + if k == 0 then [] else WalksThrough(dir, edges, a, d, k, edges)
  }

  /** Those of them that end with one of `es`. */
  function WalksThrough(dir: Direction, edges: seq<Edge>, a: LotId, d: LotId, k: nat, es: seq<Edge>): seq<seq<Edge>>
    requires k > 0
    decreases k, 1, |es|
  {
    if es == [] then []
    else
      var last := es[|es| - 1];
      WalksThrough(dir, edges, a, d, k, es[..|es| - 1]) + WalksBy(dir, edges, a, d, k, last)
  }

  /** Those of them that end with `e`. */
  function WalksBy(dir: Direction, edges: seq<Edge>, a: LotId, d: LotId, k: nat, e: Edge): seq<seq<Edge>>
    requires k > 0
    decreases k, 0, 0
  {
    if Target(dir, e) == d then Extended(WalksInto(dir, edges, a, Origin(dir, e), k - 1), e) else []
  }

  lemma {:induction false} ExtendedMembers(ws: seq<seq<Edge>>, e: Edge, p: seq<Edge>)
    ensures p in Extended(ws, e) <==> p != [] && p[|p| - 1] == e && p[..|p| - 1] in ws
  {
    if ws != [] {
      var init, last := ws[..|ws| - 1], ws[|ws| - 1];
      ExtendedMembers(init, e, p);
      assert ws == init + [last];
      assert (last + [e])[..|last|] == last;
      if p != [] && p[|p| - 1] == e && p[..|p| - 1] == last {
        assert p == last + [e];
      }
    }
  }

  /** A walk of at most `k` edges that ends with an edge of `es`. */
  ghost predicate WalkThrough(dir: Direction, edges: seq<Edge>, a: LotId, d: LotId, k: nat, es: seq<Edge>, p: seq<Edge>) {
    p != [] && p[|p| - 1] in es && WalkBy(dir, edges, a, d, k, p[|p| - 1], p[..|p| - 1])
  }

  ghost predicate WalkBy(dir: Direction, edges: seq<Edge>, a: LotId, d: LotId, k: nat, e: Edge, init: seq<Edge>) {
    Target(dir, e) == d && Walk(dir, edges, a, init, Origin(dir, e)) && |init| < k
  }

  lemma {:induction false} ThroughMembers(dir: Direction, edges: seq<Edge>, a: LotId, d: LotId, k: nat, es: seq<Edge>, p: seq<Edge>)
    requires k > 0
    ensures p in WalksThrough(dir, edges, a, d, k, es) <==> WalkThrough(dir, edges, a, d, k, es, p)
    decreases k, 1, |es|
  {
    if es != [] {
      var init, last := es[..|es| - 1], es[|es| - 1];
      ThroughMembers(dir, edges, a, d, k, init, p);
      ByMembers(dir, edges, a, d, k, last, p);
      assert es == init + [last];
    }
  }

  lemma {:induction false} ByMembers(dir: Direction, edges: seq<Edge>, a: LotId, d: LotId, k: nat, e: Edge, p: seq<Edge>)
    requires k > 0
    ensures p in WalksBy(dir, edges, a, d, k, e) <==> p != [] && p[|p| - 1] == e && WalkBy(dir, edges, a, d, k, e, p[..|p| - 1])
    decreases k, 0, 0
  {
    ExtendedMembers(WalksInto(dir, edges, a, Origin(dir, e), k - 1), e, p);
    if p != [] { IntoMembers(dir, edges, a, Origin(dir, e), k - 1, p[..|p| - 1]); }
  }

  lemma {:induction false} IntoMembers(dir: Direction, edges: seq<Edge>, a: LotId, d: LotId, k: nat, p: seq<Edge>)
    ensures p in WalksInto(dir, edges, a, d, k) <==> Walk(dir, edges, a, p, d) && |p| <= k
    decreases k, 1, |edges| + 1
  {
    if k > 0 { ThroughMembers(dir, edges, a, d, k, edges, p); }
  }

  lemma DistinctAppend<T>(s: seq<T>, t: seq<T>)
    requires Distinct(s) && Distinct(t) && forall x | x in t :: x !in s
    ensures Distinct(s + t)
  {
    var r := s + t;
    forall i, j | 0 <= i < j < |r| ensures r[i] != r[j] {
      if i < |s| <= j { assert r[j] in t && r[i] in s; }
    }
  }

  lemma {:induction false} ExtendedDistinct(ws: seq<seq<Edge>>, e: Edge)
    requires Distinct(ws)
    ensures Distinct(Extended(ws, e))
  {
    if ws != [] {
      var init, last := ws[..|ws| - 1], ws[|ws| - 1];
      ExtendedDistinct(init, e);
      ExtendedMembers(init, e, last + [e]);
      assert (last + [e])[..|last|] == last;
      DistinctAppend(Extended(init, e), [last + [e]]);
    }
  }

  lemma {:induction false} ThroughDistinct(dir: Direction, edges: seq<Edge>, a: LotId, d: LotId, k: nat, es: seq<Edge>)
    requires k > 0 && Distinct(edges) && Distinct(es)
    ensures Distinct(WalksThrough(dir, edges, a, d, k, es))
    decreases k, 1, |es|
  {
    if es != [] {
      var init, last := es[..|es| - 1], es[|es| - 1];
      ThroughDistinct(dir, edges, a, d, k, init);
      ByDistinct(dir, edges, a, d, k, last);
      forall p | p in WalksBy(dir, edges, a, d, k, last) ensures p !in WalksThrough(dir, edges, a, d, k, init) {
        ByMembers(dir, edges, a, d, k, last, p);
        ThroughMembers(dir, edges, a, d, k, init, p);
      }
      DistinctAppend(WalksThrough(dir, edges, a, d, k, init), WalksBy(dir, edges, a, d, k, last));
    }
  }

  lemma {:induction false} ByDistinct(dir: Direction, edges: seq<Edge>, a: LotId, d: LotId, k: nat, e: Edge)
    requires k > 0 && Distinct(edges)
    ensures Distinct(WalksBy(dir, edges, a, d, k, e))
    decreases k, 0, 0
  {
    IntoDistinct(dir, edges, a, Origin(dir, e), k - 1);
    ExtendedDistinct(WalksInto(dir, edges, a, Origin(dir, e), k - 1), e);
  }

  lemma {:induction false} IntoDistinct(dir: Direction, edges: seq<Edge>, a: LotId, d: LotId, k: nat)
    requires Distinct(edges)
    ensures Distinct(WalksInto(dir, edges, a, d, k))
    decreases k, 1, |edges| + 1
  {
    if k > 0 {
      ThroughDistinct(dir, edges, a, d, k, edges);
      ThroughMembers(dir, edges, a, d, k, edges, []);
      DistinctAppend(if a == d then [[]] else [], WalksThrough(dir, edges, a, d, k, edges));
    }
  }

  /** An acyclic genealogy has only so many walks: they can be listed. */
  lemma RankedWalks(n: Network, dir: Direction, rank: map<LotId, nat>, top: nat, a: LotId, d: LotId)
    requires Ranked(dir, n, rank, top) && Distinct(n.edges) && d in n.quantity
    ensures ListsWalks(n, dir, a, d, WalksInto(dir, n.edges, a, d, top))
  {
    IntoDistinct(dir, n.edges, a, d, top);
    forall p ensures p in WalksInto(dir, n.edges, a, d, top) <==> Walk(dir, n.edges, a, p, d) {
      IntoMembers(dir, n.edges, a, d, top, p);
      if Walk(dir, n.edges, a, p, d) && p != [] { WalkRank(dir, n, rank, top, a, p, d); }
    }
  }

  // ----- their weights

  /** The weight of the walks of at most `k` edges from `a`. */
  function WalkSums(n: Network, dir: Direction, a: LotId, k: nat): LotId -> real {
    (d: LotId) => SumOver(WalksInto(dir, n.edges, a, d, k), WalkWeights(n, dir))
  }

  lemma ExtendedWeight(n: Network, dir: Direction, p: seq<Edge>, e: Edge)
    ensures WalkWeights(n, dir)(p + [e]) == Scale(Rate(n, dir, e), WalkWeight(n, dir, p))
  {
    assert (p + [e])[..|p|] == p;
  }

  lemma {:induction false} ExtendedSum(n: Network, dir: Direction, ws: seq<seq<Edge>>, e: Edge)
    ensures SumOver(Extended(ws, e), WalkWeights(n, dir)) == Scale(Rate(n, dir, e), SumOver(ws, WalkWeights(n, dir)))
  {
    if ws == [] {
      ScaleZero(Rate(n, dir, e));
    } else {
      var init, last := ws[..|ws| - 1], ws[|ws| - 1];
      ExtendedSum(n, dir, init, e);
      ExtendedWeight(n, dir, last, e);
      SumSnoc(Extended(init, e), last + [e], WalkWeights(n, dir));
      ScaleSum(Rate(n, dir, e), SumOver(init, WalkWeights(n, dir)), WalkWeight(n, dir, last));
    }
  }

  lemma {:induction false} ThroughSum(n: Network, dir: Direction, a: LotId, d: LotId, k: nat, es: seq<Edge>)
    requires k > 0
    ensures SumOver(WalksThrough(dir, n.edges, a, d, k, es), WalkWeights(n, dir)) == SumOver(es, ShareOf(n, dir, WalkSums(n, dir, a, k - 1), d))
  {
    if es != [] {
      var init, last := es[..|es| - 1], es[|es| - 1];
      ThroughSum(n, dir, a, d, k, init);
      var before := WalksThrough(dir, n.edges, a, d, k, init);
      if Target(dir, last) == d {
        var ws := WalksInto(dir, n.edges, a, Origin(dir, last), k - 1);
        ExtendedSum(n, dir, ws, last);
        SumAppend(before, Extended(ws, last), WalkWeights(n, dir));
      } else {
        assert before + [] == before;
      }
    }
  }

  /** Walks of at most `k` edges are the empty one, or one of at most `k - 1` edges and an edge more. */
  lemma WalkSumsStep(n: Network, dir: Direction, a: LotId, d: LotId, k: nat)
    ensures WalkSums(n, dir, a, k)(d) == Single(a, 1.0)(d) + if k == 0 then 0.0 else Inflow(n, dir, WalkSums(n, dir, a, k - 1), d)
  {
    var f := WalkWeights(n, dir);
    var none: seq<seq<Edge>> := [];
    var start := if a == d then [[]] else none;
    assert SumOver(start, f) == Single(a, 1.0)(d) by {
      assert start != [] ==> start[..0] == none;
    }
    if k == 0 {
      assert start + [] == start;
    } else {
      ThroughSum(n, dir, a, d, k, n.edges);
      SumAppend(start, WalksThrough(dir, n.edges, a, d, k, n.edges), f);
    }
  }

  /** Beyond the level of a lot there are no longer walks to it. */
  lemma {:induction false} WalkSumsSettle(n: Network, dir: Direction, rank: map<LotId, nat>, top: nat, a: LotId, d: LotId, j: nat, k: nat)
    requires ValidNetwork(n) && Ranked(dir, n, rank, top) && d in n.quantity && rank[d] <= j && rank[d] <= k
    ensures WalkSums(n, dir, a, j)(d) == WalkSums(n, dir, a, k)(d)
    decreases rank[d]
  {
    if rank[d] == 0 {
      OnlyEmptyWalk(n, dir, rank, top, a, d, j);
      OnlyEmptyWalk(n, dir, rank, top, a, d, k);
    } else {
      forall e | e in n.edges && Target(dir, e) == d
        ensures WalkSums(n, dir, a, j - 1)(Origin(dir, e)) == WalkSums(n, dir, a, k - 1)(Origin(dir, e))
      {
        assert ValidEdge(n.quantity, e);
        WalkSumsSettle(n, dir, rank, top, a, Origin(dir, e), j - 1, k - 1);
      }
      SettleStep(n, dir, a, d, j, k);
    }
  }

  lemma SettleStep(n: Network, dir: Direction, a: LotId, d: LotId, j: nat, k: nat)
    requires j > 0 && k > 0
    requires forall e | e in n.edges && Target(dir, e) == d ::
               WalkSums(n, dir, a, j - 1)(Origin(dir, e)) == WalkSums(n, dir, a, k - 1)(Origin(dir, e))
    ensures WalkSums(n, dir, a, j)(d) == WalkSums(n, dir, a, k)(d)
  {
    WalkSumsStep(n, dir, a, d, j);
    WalkSumsStep(n, dir, a, d, k);
    InflowCongruence(n, dir, WalkSums(n, dir, a, j - 1), WalkSums(n, dir, a, k - 1), d);
  }

  lemma OnlyEmptyWalk(n: Network, dir: Direction, rank: map<LotId, nat>, top: nat, a: LotId, d: LotId, k: nat)
    requires Ranked(dir, n, rank, top) && d in n.quantity && rank[d] == 0
    ensures WalkSums(n, dir, a, k)(d) == Single(a, 1.0)(d)
  {
    WalkSumsStep(n, dir, a, d, k);
    if k > 0 { NothingInto(n, dir, rank, top, WalkSums(n, dir, a, k - 1), d); }
  }

  lemma NothingInto(n: Network, dir: Direction, rank: map<LotId, nat>, top: nat, x: LotId -> real, d: LotId)
    requires Ranked(dir, n, rank, top) && d in n.quantity && rank[d] == 0
    ensures Inflow(n, dir, x, d) == 0.0
  {
    forall e | e in n.edges ensures ShareOf(n, dir, x, d)(e) == 0.0 {
      assert rank[Origin(dir, e)] < rank[Target(dir, e)];
    }
    SumZero(n.edges, ShareOf(n, dir, x, d));
  }

  /** On an acyclic genealogy the walk sums solve the linear equations. */
  lemma WalkSumsSolve(n: Network, dir: Direction, rank: map<LotId, nat>, top: nat, a: LotId)
    requires ValidNetwork(n) && Ranked(dir, n, rank, top)
    ensures SolvesLinear(n, dir, Single(a, 1.0), WalkSums(n, dir, a, top))
  {
    var x := WalkSums(n, dir, a, top);
    forall d | d in n.quantity ensures x(d) == Single(a, 1.0)(d) + Inflow(n, dir, x, d) {
      WalkSumsSettle(n, dir, rank, top, a, d, top, top + 1);
      WalkSumsStep(n, dir, a, d, top + 1);
    }
  }

  lemma {:induction false} LinearAgreesAt(n: Network, dir: Direction, rank: map<LotId, nat>, top: nat, source: LotId -> real,
                                          x: LotId -> real, y: LotId -> real, d: LotId)
    requires ValidNetwork(n) && Ranked(dir, n, rank, top) && d in n.quantity
    requires SolvesLinear(n, dir, source, x) && SolvesLinear(n, dir, source, y)
    ensures x(d) == y(d)
    decreases rank[d]
  {
    forall e | e in n.edges && Target(dir, e) == d ensures x(Origin(dir, e)) == y(Origin(dir, e)) {
      assert ValidEdge(n.quantity, e);
      LinearAgreesAt(n, dir, rank, top, source, x, y, Origin(dir, e));
    }
    InflowCongruence(n, dir, x, y, d);
  }

  function Scaled(c: real, x: LotId -> real): LotId -> real {
    (d: LotId) => Scale(c, x(d))
  }

  lemma RatesScale(c: real, rate: real, x: real)
    ensures Scale(rate, Scale(c, x)) == Scale(c, Scale(rate, x))
  {
  }

  lemma InflowScaled(n: Network, dir: Direction, c: real, x: LotId -> real, d: LotId)
    ensures Inflow(n, dir, Scaled(c, x), d) == Scale(c, Inflow(n, dir, x, d))
  {
    var f, g := ShareOf(n, dir, x, d), ShareOf(n, dir, Scaled(c, x), d);
    forall e | e in n.edges ensures g(e) == Scale(c, f(e)) {
      ScaleZero(c);
      RatesScale(c, Rate(n, dir, e), x(Origin(dir, e)));
    }
    SumScale(n.edges, c, f, g);
  }

  lemma ScaledSolves(n: Network, dir: Direction, a: LotId, c: real, x: LotId -> real)
    requires SolvesLinear(n, dir, Single(a, 1.0), x)
    ensures SolvesLinear(n, dir, Single(a, c), Scaled(c, x))
  {
    forall d | d in n.quantity ensures Scaled(c, x)(d) == Single(a, c)(d) + Inflow(n, dir, Scaled(c, x), d) {
      InflowScaled(n, dir, c, x, d);
      ScaleSum(c, Single(a, 1.0)(d), Inflow(n, dir, x, d));
      ScaleZero(c);
    }
  }

  // ----- any list of the walks will do

  lemma {:induction false} DistinctCount<T>(s: seq<T>, x: T)
    requires Distinct(s)
    ensures multiset(s)[x] == if x in s then 1 else 0
  {
    if s != [] {
      var init, last := s[..|s| - 1], s[|s| - 1];
      DistinctCount(init, x);
      assert s == init + [last];
      assert multiset(s) == multiset(init) + multiset{last};
    }
  }

  lemma ListsAgree(n: Network, dir: Direction, a: LotId, d: LotId, ws: seq<seq<Edge>>, ws': seq<seq<Edge>>)
    requires ListsWalks(n, dir, a, d, ws) && ListsWalks(n, dir, a, d, ws')
    ensures SumOver(ws, WalkWeights(n, dir)) == SumOver(ws', WalkWeights(n, dir))
  {
    forall p ensures multiset(ws)[p] == multiset(ws')[p] {
      DistinctCount(ws, p);
      DistinctCount(ws', p);
      assert p in ws <==> p in ws';
    }
    assert multiset(ws) == multiset(ws');
    SumPermutation(ws, ws', WalkWeights(n, dir));
  }

  /** Every lot has a list of the walks to it. */
  lemma WalksAreListed(n: Network, dir: Direction, a: LotId, d: LotId) returns (ws: seq<seq<Edge>>)
    requires ValidNetwork(n) && Acyclic(n) && Distinct(n.edges) && d in n.quantity
    ensures ListsWalks(n, dir, a, d, ws)
  {
    var rank, top := AcyclicRank(dir, n);
    RankedWalks(n, dir, rank, top, a, d);
    ws := WalksInto(dir, n.edges, a, d, top);
  }

  /** The solution of the linear equations from one lot is its amount times the weight of the walks. */
  lemma LinearIsWalkSum(n: Network, dir: Direction, a: LotId, c: real, x: LotId -> real, d: LotId, ws: seq<seq<Edge>>)
    requires ValidNetwork(n) && Acyclic(n) && Distinct(n.edges) && d in n.quantity
    requires SolvesLinear(n, dir, Single(a, c), x) && ListsWalks(n, dir, a, d, ws)
    ensures x(d) == Scale(c, SumOver(ws, WalkWeights(n, dir)))
  {
    var rank, top := AcyclicRank(dir, n);
    WalkSumsSolve(n, dir, rank, top, a);
    ScaledSolves(n, dir, a, c, WalkSums(n, dir, a, top));
    LinearAgreesAt(n, dir, rank, top, Single(a, c), x, Scaled(c, WalkSums(n, dir, a, top)), d);
    RankedWalks(n, dir, rank, top, a, d);
    ListsAgree(n, dir, a, d, ws, WalksInto(dir, n.edges, a, d, top));
  }

  /**
   Started from the whole of `s`, a trace without cut-off finds at `t` the quantity of `s` times the sum,
   over all walks from `s` to `t`, of the products of their rates, if every lot has room.
   */
  lemma AmountIsWalkSum(n: Network, dir: Direction, s: LotId, start: Work, k: nat, t: LotId, ws: seq<seq<Edge>>)
    requires ValidNetwork(n) && Acyclic(n) && Distinct(n.edges) && s in n.quantity && t in n.quantity
    requires forall d | d in n.quantity :: HasRoom(n, dir, d)
    requires ProperStart(n, [Seed(s, n.quantity[s])], start) && Finished(n, dir, 0.0, start, k)
    requires ListsWalks(n, dir, s, t, ws)
    ensures Capped(n, Run(n, dir, 0.0, start, k), t) == Scale(n.quantity[s], SumOver(ws, WalkWeights(n, dir)))
  {
    var x := Found(n, Run(n, dir, 0.0, start, k));
    WholeLotIsLinear(n, dir, s, start, k);
    LinearIsWalkSum(n, dir, s, n.quantity[s], x, t, ws);
    assert x(t) == Capped(n, Run(n, dir, 0.0, start, k), t);
  }

  /** Forward every lot has room, so the forward equivalent at `t` of the whole of `s` is that sum on every acyclic genealogy. */
  lemma ForwardIsWalkSum(n: Network, s: LotId, start: Work, k: nat, t: LotId, ws: seq<seq<Edge>>)
    requires ValidNetwork(n) && Acyclic(n) && Distinct(n.edges) && s in n.quantity && t in n.quantity
    requires ProperStart(n, [Seed(s, n.quantity[s])], start) && Finished(n, Forward, 0.0, start, k)
    requires ListsWalks(n, Forward, s, t, ws)
    ensures Capped(n, Run(n, Forward, 0.0, start, k), t) == Scale(n.quantity[s], SumOver(ws, WalkWeights(n, Forward)))
  {
    forall d | d in n.quantity ensures HasRoom(n, Forward, d) { ForwardHasRoom(n, d); }
    AmountIsWalkSum(n, Forward, s, start, k, t, ws);
  }

  /** On a mass-balanced genealogy forward and back are the same sum over the walks from `s` to `t`. */
  lemma BothAreOneWalkSum(n: Network, s: LotId, t: LotId, startF: Work, kF: nat, startB: Work, kB: nat, ws: seq<seq<Edge>>)
    requires ValidNetwork(n) && Acyclic(n) && Distinct(n.edges) && MassBalanced(n) && s in n.quantity && t in n.quantity
    requires ProperStart(n, [Seed(s, n.quantity[s])], startF) && Finished(n, Forward, 0.0, startF, kF)
    requires ProperStart(n, [Seed(t, n.quantity[t])], startB) && Finished(n, Backward, 0.0, startB, kB)
    requires ListsWalks(n, Forward, s, t, ws)
    ensures Capped(n, Run(n, Forward, 0.0, startF, kF), t) == Scale(n.quantity[s], SumOver(ws, WalkWeights(n, Forward)))
    ensures Capped(n, Run(n, Backward, 0.0, startB, kB), s) == Scale(n.quantity[s], SumOver(ws, WalkWeights(n, Forward)))
  {
    ForwardIsWalkSum(n, s, startF, kF, t, ws);
    ForwardIsBackward(n, s, t, startF, kF, startB, kB);
  }
}
