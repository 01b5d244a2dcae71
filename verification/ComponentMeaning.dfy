/**
 A trace on the connected part is the trace on the whole: the same work-list, step by step, so the
 same lots, amounts, depths, bases, leaves and recipients.
 */
module ComponentMeaning {
  import opened Sums
  import opened TraceGraphs
  import opened Worklists
  import opened RecallChecks
  import opened RecallStarts
  import opened RecallScope
  import opened ComponentLoader

  // ----- the restricted graph

  lemma {:induction false} LotsInMembers(lots: seq<Lot>, ids: set<LotId>)
    ensures forall lot :: lot in LotsIn(lots, ids) <==> lot in lots && lot.id in ids
  {
    if lots != [] {
      LotsInMembers(lots[..|lots| - 1], ids);
      assert lots == lots[..|lots| - 1] + [lots[|lots| - 1]];
    }
  }

  lemma {:induction false} LotsInDistinct(lots: seq<Lot>, ids: set<LotId>)
    requires DistinctLots(lots)
    ensures DistinctLots(LotsIn(lots, ids))
  {
    if lots != [] {
      var init, last := lots[..|lots| - 1], lots[|lots| - 1];
      LotsInDistinct(init, ids);
      LotsInMembers(init, ids);
      forall i | 0 <= i < |LotsIn(init, ids)| ensures LotsIn(init, ids)[i].id != last.id {
        assert LotsIn(init, ids)[i] in init;
      }
    }
  }

  lemma {:induction false} LotInQuantity(lots: seq<Lot>, ids: set<LotId>, id: LotId)
    ensures id in QuantityMap(LotsIn(lots, ids)) <==> id in QuantityMap(lots) && id in ids
    ensures id in QuantityMap(LotsIn(lots, ids)) ==> QuantityMap(LotsIn(lots, ids))[id] == QuantityMap(lots)[id]
  {
    if lots != [] {
      var init, last := lots[..|lots| - 1], lots[|lots| - 1];
      LotInQuantity(init, ids, id);
      var kept := LotsIn(init, ids);
      assert (kept + [last])[..|kept|] == kept && kept + [] == kept;
    }
  }

  lemma LotsInQuantities(lots: seq<Lot>, ids: set<LotId>)
    ensures QuantityMap(LotsIn(lots, ids)) == map id | id in QuantityMap(lots) && id in ids :: QuantityMap(lots)[id]
  {
    forall id { LotInQuantity(lots, ids, id); }
  }

  lemma LotsInKeepsOrder(lots: seq<Lot>, ids: set<LotId>)
    requires DistinctLots(lots)
    ensures DistinctLots(LotsIn(lots, ids))
    ensures forall lot :: lot in LotsIn(lots, ids) <==> lot in lots && lot.id in ids
    ensures QuantityMap(LotsIn(lots, ids)) == map id | id in QuantityMap(lots) && id in ids :: QuantityMap(lots)[id]
  {
    LotsInMembers(lots, ids);
    LotsInDistinct(lots, ids);
    LotsInQuantities(lots, ids);
  }

  lemma {:induction false} TouchingKeepsDistinct(edges: seq<Edge>, ids: set<LotId>)
    requires DistinctEdges(edges)
    ensures DistinctEdges(Touching(edges, ids))
  {
    if edges != [] {
      var init, last := edges[..|edges| - 1], edges[|edges| - 1];
      TouchingKeepsDistinct(init, ids);
      TouchingMembers(init, ids);
      assert edges == init + [last];
      forall i | 0 <= i < |Touching(init, ids)| ensures Touching(init, ids)[i].id != last.id {
        assert Touching(init, ids)[i] in init;
      }
    }
  }

  lemma QuantityRestricted(g: Graph, ids: set<LotId>, id: LotId)
    requires DistinctLots(g.lots) && id in ids
    ensures id in QuantityMap(g.lots) <==> id in QuantityMap(Restricted(g, ids).lots)
    ensures QuantityOf(NetworkOf(g), id) == QuantityOf(NetworkOf(Restricted(g, ids)), id)
  {
    LotsInKeepsOrder(g.lots, ids);
  }

  /** The connected part of a valid graph is a valid graph, with both ends of every edge inside. */
  lemma RestrictedIsValid(g: Graph, ids: set<LotId>)
    requires ValidGraph(g) && Closed(g.edges, ids)
    ensures ValidGraph(Restricted(g, ids))
    ensures forall e | e in Restricted(g, ids).edges :: e.source in ids && e.destination in ids
  {
    LotsInKeepsOrder(g.lots, ids);
    TouchingKeepsDistinct(g.edges, ids);
    TouchingMembers(g.edges, ids);
    forall e | e in Restricted(g, ids).edges ensures ValidEdge(QuantityMap(Restricted(g, ids).lots), e) {
      assert ValidEdge(QuantityMap(g.lots), e);
    }
  }

  lemma RestrictedIsAcyclic(g: Graph, ids: set<LotId>)
    requires ValidGraph(g) && Closed(g.edges, ids) && Acyclic(NetworkOf(g))
    ensures Acyclic(NetworkOf(Restricted(g, ids)))
  {
    var rank, top :| Ranked(Forward, NetworkOf(g), rank, top);
    LotsInKeepsOrder(g.lots, ids);
    TouchingMembers(g.edges, ids);
    assert Ranked(Forward, NetworkOf(Restricted(g, ids)), rank, top);
  }

  // ----- the same edges at every lot of the part

  /** `m` looks like `n` from the lots of `ids`. */
  ghost predicate Agree(n: Network, m: Network, ids: set<LotId>) {
    && (forall id | id in ids :: QuantityOf(n, id) == QuantityOf(m, id) && (id in n.quantity <==> id in m.quantity))
    && (forall dir, id | id in ids :: Out(dir, n.edges, id) == Out(dir, m.edges, id))
    && Closed(n.edges, ids)
  }

  lemma {:induction false} OutOfTouching(dir: Direction, edges: seq<Edge>, ids: set<LotId>, id: LotId)
    requires id in ids
    ensures Out(dir, Touching(edges, ids), id) == Out(dir, edges, id)
  {
    if edges != [] {
      var init, last := edges[..|edges| - 1], edges[|edges| - 1];
      OutOfTouching(dir, init, ids, id);
      var kept := Touching(init, ids);
      if last.source in ids || last.destination in ids {
        assert (kept + [last])[..|kept|] == kept;
      } else {
        assert kept + [] == kept;
        assert Out(dir, init, id) + [] == Out(dir, init, id);
      }
    }
  }

  lemma RestrictedAgrees(g: Graph, ids: set<LotId>)
    requires ValidGraph(g) && Closed(g.edges, ids)
    ensures Agree(NetworkOf(g), NetworkOf(Restricted(g, ids)), ids)
  {
    var n, m := NetworkOf(g), NetworkOf(Restricted(g, ids));
    forall id | id in ids ensures QuantityOf(n, id) == QuantityOf(m, id) && (id in n.quantity <==> id in m.quantity) {
      QuantityRestricted(g, ids, id);
    }
    forall dir, id | id in ids ensures Out(dir, n.edges, id) == Out(dir, m.edges, id) {
      OutOfTouching(dir, g.edges, ids, id);
    }
  }

  // ----- the same run

  ghost predicate QueueWithin(w: Work, ids: set<LotId>) {
    && (forall item | item in w.queue :: item.lot in ids)
    && (forall id | id in w.amount :: id in ids)
  }

  lemma SameRequest(n: Network, m: Network, dir: Direction, ids: set<LotId>, e: Edge, delta: real)
    requires ValidNetwork(n) && ValidNetwork(m) && Agree(n, m, ids) && e in n.edges && e in m.edges
    requires e.source in ids && e.destination in ids
    ensures Requested(n, dir, e, delta) == Requested(m, dir, e, delta)
  {
    assert ValidEdge(n.quantity, e) && ValidEdge(m.quantity, e);
    assert n.quantity[e.source] == QuantityOf(n, e.source) == QuantityOf(m, e.source) == m.quantity[e.source];
    assert n.quantity[e.destination] == QuantityOf(n, e.destination) == QuantityOf(m, e.destination) == m.quantity[e.destination];
    assert Out(Backward, n.edges, e.destination) == Out(Backward, m.edges, e.destination);
    assert TotalInput(n, e.destination) == TotalInput(m, e.destination);
  }

  lemma SameOffer(n: Network, m: Network, dir: Direction, eps: real, cur: Item, e: Edge, asked: real, w: Work, ids: set<LotId>)
    requires QuantityOf(n, Target(dir, e)) == QuantityOf(m, Target(dir, e)) && Target(dir, e) in ids && QueueWithin(w, ids)
    ensures Offer(n, dir, eps, cur, e, asked, w) == Offer(m, dir, eps, cur, e, asked, w)
    ensures QueueWithin(Offer(n, dir, eps, cur, e, asked, w), ids)
  {
  }

  lemma {:induction false} SamePushes(n: Network, m: Network, dir: Direction, eps: real, cur: Item, es: seq<Edge>, w: Work, ids: set<LotId>)
    requires ValidNetwork(n) && ValidNetwork(m) && Agree(n, m, ids) && QueueWithin(w, ids)
    requires forall e | e in es :: e in n.edges && e in m.edges && e.source in ids && e.destination in ids
    ensures PushEdges(n, dir, eps, cur, es, w) == PushEdges(m, dir, eps, cur, es, w)
    ensures QueueWithin(PushEdges(n, dir, eps, cur, es, w), ids)
  {
    if es != [] {
      var init, e := es[..|es| - 1], es[|es| - 1];
      SamePushes(n, m, dir, eps, cur, init, w, ids);
      SameRequest(n, m, dir, ids, e, cur.delta);
      SameOffer(n, m, dir, eps, cur, e, Requested(n, dir, e, cur.delta), PushEdges(n, dir, eps, cur, init, w), ids);
    }
  }

  lemma SameItem(n: Network, m: Network, dir: Direction, eps: real, cur: Item, w: Work, ids: set<LotId>)
    requires ValidNetwork(n) && ValidNetwork(m) && Agree(n, m, ids) && QueueWithin(w, ids) && cur.lot in ids
    ensures RunItem(n, dir, eps, cur, w) == RunItem(m, dir, eps, cur, w)
    ensures QueueWithin(RunItem(n, dir, eps, cur, w), ids)
  {
    OutMembers(dir, n.edges, cur.lot);
    OutMembers(dir, m.edges, cur.lot);
    SamePushes(n, m, dir, eps, cur, Out(dir, n.edges, cur.lot), w, ids);
  }

  /** Step by step the same state, for any cut-off and in both directions. */
  lemma {:induction false} SameRun(n: Network, m: Network, dir: Direction, eps: real, start: Work, k: nat, ids: set<LotId>)
    requires ValidNetwork(n) && ValidNetwork(m) && Agree(n, m, ids) && QueueWithin(start, ids)
    ensures Run(n, dir, eps, start, k) == Run(m, dir, eps, start, k)
    ensures QueueWithin(Run(n, dir, eps, start, k), ids)
  {
    if k > 0 {
      SameRun(n, m, dir, eps, start, k - 1, ids);
      var w := Run(n, dir, eps, start, k - 1);
      if k - 1 < |w.queue| {
        assert w.queue[k - 1] in w.queue;
        SameItem(n, m, dir, eps, w.queue[k - 1], w, ids);
      }
    }
  }

  lemma {:induction false} SameSeeds(n: Network, m: Network, seeds: seq<Seed>, ids: set<LotId>)
    requires forall s | s in seeds :: s.lot in ids
    requires forall id | id in ids :: QuantityOf(n, id) == QuantityOf(m, id)
    ensures AddSeeds(n, seeds) == AddSeeds(m, seeds) && QueueWithin(AddSeeds(n, seeds), ids)
  {
    if seeds != [] { SameSeeds(n, m, seeds[..|seeds| - 1], ids); }
  }

  // ----- what is reported

  lemma {:induction false} SameDistributions(items: seq<Distribution>, impacted: set<LotId>, ids: set<LotId>)
    requires impacted <= ids
    ensures ImpactedDistributions(ImpactedDistributions(items, ids), impacted) == ImpactedDistributions(items, impacted)
  {
    if items != [] {
      var init, last := items[..|items| - 1], items[|items| - 1];
      SameDistributions(init, impacted, ids);
      var kept := ImpactedDistributions(init, ids);
      if last.lot in ids {
        assert (kept + [last])[..|kept|] == kept;
      } else {
        assert kept + [] == kept;
        assert ImpactedDistributions(init, impacted) + [] == ImpactedDistributions(init, impacted);
      }
    }
  }

  lemma SameLeaves(g: Graph, ids: set<LotId>, whole: map<LotId, seq<Edge>>, part: map<LotId, seq<Edge>>, impacted: set<LotId>)
    requires Closed(g.edges, ids) && impacted <= ids
    requires Indexed(Forward, g.edges, whole) && Indexed(Forward, Restricted(g, ids).edges, part)
    ensures LeafLots(impacted, whole) == LeafLots(impacted, part)
  {
    TouchingMembers(g.edges, ids);
    forall id ensures id in LeafLots(impacted, whole) <==> id in LeafLots(impacted, part) {
      LeafMeaning(g.edges, whole, impacted, id);
      LeafMeaning(Restricted(g, ids).edges, part, impacted, id);
    }
  }

  /**
   Tracing forward from seeds on the component of their lots gives, for any cut-off, the state that
   tracing on the whole graph gives, and with it the same leaves and the same deliveries.
   */
  lemma ForwardTraceOnComponent(g: Graph, ids: set<LotId>, seeds: seq<Seed>, eps: real, k: nat,
                                whole: map<LotId, seq<Edge>>, part: map<LotId, seq<Edge>>)
    requires ValidGraph(g) && IsComponent(g.edges, (set s | s in seeds :: s.lot), ids)
    requires Indexed(Forward, g.edges, whole) && Indexed(Forward, Restricted(g, ids).edges, part)
    ensures ValidGraph(Restricted(g, ids))
    ensures ValidNetwork(NetworkOf(g)) && ValidNetwork(NetworkOf(Restricted(g, ids)))
    ensures var n, m := NetworkOf(g), NetworkOf(Restricted(g, ids));
            && (ValidSeeds(n, seeds) <==> ValidSeeds(m, seeds))
            && AddSeeds(n, seeds) == AddSeeds(m, seeds)
            && Run(n, Forward, eps, AddSeeds(n, seeds), k) == Run(m, Forward, eps, AddSeeds(m, seeds), k)
            && var impacted := Run(n, Forward, eps, AddSeeds(n, seeds), k).amount.Keys;
               && LeafLots(impacted, whole) == LeafLots(impacted, part)
               && ImpactedDistributions(g.distributions, impacted) == ImpactedDistributions(Restricted(g, ids).distributions, impacted)
  {
    var n, m := NetworkOf(g), NetworkOf(Restricted(g, ids));
    RestrictedIsValid(g, ids);
    ValidGraphNetwork(g);
    ValidGraphNetwork(Restricted(g, ids));
    RestrictedAgrees(g, ids);
    SameValidSeeds(n, m, seeds, ids);
    SameSeeds(n, m, seeds, ids);
    SameRun(n, m, Forward, eps, AddSeeds(n, seeds), k, ids);
    var impacted := Run(n, Forward, eps, AddSeeds(n, seeds), k).amount.Keys;
    SameLeaves(g, ids, whole, part, impacted);
    SameDistributions(g.distributions, impacted, ids);
  }

  lemma SameValidSeeds(n: Network, m: Network, seeds: seq<Seed>, ids: set<LotId>)
    requires Agree(n, m, ids) && forall s | s in seeds :: s.lot in ids
    ensures ValidSeeds(n, seeds) <==> ValidSeeds(m, seeds)
  {
    forall s | s in seeds ensures ValidSeed(n, s) <==> ValidSeed(m, s) {
      assert QuantityOf(n, s.lot) == QuantityOf(m, s.lot);
    }
  }

  /** The same for a trace back from one lot. */
  lemma BackTraceOnComponent(g: Graph, ids: set<LotId>, seed: Seed, eps: real, k: nat)
    requires ValidGraph(g) && IsComponent(g.edges, {seed.lot}, ids)
    ensures ValidGraph(Restricted(g, ids))
    ensures ValidNetwork(NetworkOf(g)) && ValidNetwork(NetworkOf(Restricted(g, ids)))
    ensures var n, m := NetworkOf(g), NetworkOf(Restricted(g, ids));
            && (ValidSeed(n, seed) <==> ValidSeed(m, seed))
            && BackStart(n, seed) == BackStart(m, seed)
            && Run(n, Backward, eps, BackStart(n, seed), k) == Run(m, Backward, eps, BackStart(m, seed), k)
  {
    var n, m := NetworkOf(g), NetworkOf(Restricted(g, ids));
    RestrictedIsValid(g, ids);
    ValidGraphNetwork(g);
    ValidGraphNetwork(Restricted(g, ids));
    RestrictedAgrees(g, ids);
    assert QuantityOf(n, seed.lot) == QuantityOf(m, seed.lot);
    SameRun(n, m, Backward, eps, BackStart(n, seed), k, ids);
  }
}
