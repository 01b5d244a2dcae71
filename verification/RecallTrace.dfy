/**
 The two traces as the service runs them: check the graph, seed the work-list, and push until the
 queue is used up or a limit stops the run. Both end in the state that `Run` describes.
 */
module RecallTrace {
  import opened Outcomes
  import opened Sums
  import opened TraceGraphs
  import opened TraceBudgets
  import opened Acyclicity
  import opened RecallChecks
  import opened Worklists
  import opened WorklistInvariants
  import opened RecallEquations
  import opened RecallReach
  import opened RecallStarts
  import opened RecallScope
  import opened RecallClamps

  /** A seed as asked for: without a quantity it means the whole lot. */
  datatype SeedRequest = SeedRequest(lot: LotId, quantityKg: Option<real>)

  datatype Refusal =
    | Incomplete(reason: Reason)
    | NoSuspectLot | LotNotFound | QuantityNotPositive | QuantityExceedsLot

  function ValidateSeed(lots: map<LotId, real>, s: SeedRequest): (r: Result<Seed, Refusal>)
    ensures r.Ok? <==> s.lot in lots && r == Ok(Seed(s.lot, s.quantityKg.GetOr(lots[s.lot]))) && 0.0 < r.value.quantityKg <= lots[s.lot] + TOLERANCE
    ensures r.Err? ==> r.error in {LotNotFound, QuantityNotPositive, QuantityExceedsLot}
  {
    if s.lot !in lots then Err(LotNotFound)
    else
      var quantity := s.quantityKg.GetOr(lots[s.lot]);
      if quantity <= 0.0 then Err(QuantityNotPositive)
      else if quantity > lots[s.lot] + TOLERANCE then Err(QuantityExceedsLot)
      else Ok(Seed(s.lot, quantity))
  }

  // ----- the depth limit

  function Opposite(dir: Direction): Direction {
    if dir.Forward? then Backward else Forward
  }

  /** Read backwards, a walk is a walk of the other direction. */
  lemma {:induction false} WalkReversed(dir: Direction, edges: seq<Edge>, a: LotId, p: seq<Edge>, b: LotId) returns (q: seq<Edge>)
    requires Walk(dir, edges, a, p, b)
    ensures Walk(Opposite(dir), edges, b, q, a) && |q| == |p|
  {
    if p == [] {
      q := [];
    } else {
      var last := p[|p| - 1];
      q := WalkReversed(dir, edges, a, p[..|p| - 1], Origin(dir, last));
      ConsWalk(Opposite(dir), edges, b, last, q, a);
      q := [last] + q;
    }
  }

  ghost predicate AllShallow(n: Network) {
    forall d | d in n.quantity :: Shallow(n.edges, d)
  }

  /** On a graph that passed the cycle check no queue item is deeper than the limit. */
  lemma ItemIsShallow(n: Network, dir: Direction, start: Work, item: Item)
    requires AllShallow(n) && item.lot in n.quantity && start.amount.Keys <= n.quantity.Keys
    requires ItemTraced(n, dir, start, item)
    ensures item.depth <= MAX_DEPTH
  {
    var a, p :| WalkFromSeed(n, dir, start, a, p, item.lot) && |p| == item.depth;
    if dir.Forward? {
      assert Shallow(n.edges, item.lot);
    } else {
      var q := WalkReversed(dir, n.edges, a, p, item.lot);
      assert Shallow(n.edges, a);
    }
  }

  // ----- pushing

  /** What the loop keeps: it follows `Run`, item by item. */
  ghost predicate Following(n: Network, dir: Direction, eps: real, start: Work, w: Work, cursor: nat)
    requires ValidNetwork(n)
  {
    cursor <= |w.queue| && w == Run(n, dir, eps, start, cursor)
  }

  lemma FollowingNext(n: Network, dir: Direction, eps: real, seeds: seq<Seed>, start: Work, w: Work, cursor: nat)
    requires ValidNetwork(n) && eps >= 0.0 && ProperStart(n, seeds, start) && AllShallow(n)
    requires Following(n, dir, eps, start, w, cursor) && cursor < |w.queue|
    ensures Following(n, dir, eps, start, RunItem(n, dir, eps, w.queue[cursor], w), cursor + 1)
    ensures w.queue[cursor].lot in n.quantity && w.queue[cursor].depth <= MAX_DEPTH
  {
    var item := w.queue[cursor];
    RunConsistent(n, dir, eps, start, cursor);
    RunTraced(n, dir, eps, seeds, start, cursor);
    assert item in w.queue;
    ItemIsShallow(n, dir, start, item);
    QueueGrows(n, dir, eps, item, w);
  }

  lemma QueueGrows(n: Network, dir: Direction, eps: real, cur: Item, w: Work)
    requires ValidNetwork(n)
    ensures w.queue <= RunItem(n, dir, eps, cur, w).queue
  {
    RunItemGrows(n, dir, eps, cur, w);
  }

  /** Records what a lot takes on and queues it for its own neighbours. */
  method Record(n: Network, dir: Direction, eps: real, cur: Item, edge: Edge, requested: real, w: Work) returns (v: Work)
    requires Target(dir, edge) in n.quantity
    ensures v == Offer(n, dir, eps, cur, edge, requested, w)
  {
    var id := Target(dir, edge);
    var existing := AmountAt(w.amount, id);
    var added := Max(0.0, Min(requested, n.quantity[id] - existing));
    v := w;
    if added <= eps { return; }
    var amount := w.amount[id := existing + added];
    var depth := w.depth[id := MaxNat(DepthAt(w.depth, id), cur.depth + 1)];
    var bases := BasisAt(w.basis, id) + BasisAt(w.basis, cur.lot);
    bases := bases + {BasisOf(edge.allocation)};
    v := Work(amount, depth, w.basis[id := bases], w.queue + [Item(id, added, cur.depth + 1)]);
  }

  lemma PushNext(n: Network, dir: Direction, eps: real, cur: Item, es: seq<Edge>, i: nat, w: Work, v: Work)
    requires ValidNetwork(n) && i < |es| && (forall e | e in es :: e in n.edges) && v == PushEdges(n, dir, eps, cur, es[..i], w)
    ensures PushEdges(n, dir, eps, cur, es[..i + 1], w) == PushEdge(n, dir, eps, cur, es[i], v)
  {
    assert es[..i + 1][..i] == es[..i];
  }

  lemma EdgesOfLot(n: Network, dir: Direction, table: map<LotId, seq<Edge>>, id: LotId)
    requires ValidNetwork(n) && Indexed(dir, n.edges, table)
    ensures EdgesAt(table, id) == Out(dir, n.edges, id)
    ensures forall e | e in EdgesAt(table, id) :: e in n.edges && Origin(dir, e) == id && ValidEdge(n.quantity, e)
  {
    OutMembers(dir, n.edges, id);
    assert EdgesAt(table, id) == Out(dir, n.edges, id);
  }

  method PushBackEdge(n: Network, eps: real, cur: Item, edge: Edge, w: Work) returns (v: Work)
    requires ValidNetwork(n) && edge in n.edges && edge.destination == cur.lot
    ensures v == PushEdge(n, Backward, eps, cur, edge, w)
  {
    assert ValidEdge(n.quantity, edge);
    var destinationFraction := Min(1.0, Ratio(cur.delta, n.quantity[cur.lot]));
    var requested := Scale(edge.allocatedKg, destinationFraction);
    assert requested == Requested(n, Backward, edge, cur.delta);
    v := Record(n, Backward, eps, cur, edge, requested, w);
  }

  method PushBack(n: Network, incoming: map<LotId, seq<Edge>>, eps: real, cur: Item, w: Work, budget: TraceBudget)
    returns (v: Work, stop: Option<Reason>)
    requires ValidNetwork(n) && Indexed(Backward, n.edges, incoming) && cur.lot in n.quantity
    modifies budget
    ensures stop == None ==> v == RunItem(n, Backward, eps, cur, w)
    ensures budget.work >= old(budget.work)
    ensures stop.Some? ==> stop.value in {WorkLimit, TimeLimit}
    ensures stop == Some(WorkLimit) ==> budget.work > MAX_WORK
    ensures stop == Some(TimeLimit) ==> budget.Expired()
  {
    v, stop := w, None;
    var es := EdgesAt(incoming, cur.lot);
    EdgesOfLot(n, Backward, incoming, cur.lot);
    assert es[..0] == [];
    for i := 0 to |es|
      invariant stop == None && budget.work >= old(budget.work)
      invariant v == PushEdges(n, Backward, eps, cur, es[..i], w)
    {
      var edge := es[i];
      stop := budget.Step(1, 0);
      if stop.Some? { return; }
      assert ValidEdge(n.quantity, edge) && Origin(Backward, edge) == cur.lot;
      PushNext(n, Backward, eps, cur, es, i, w, v);
      v := PushBackEdge(n, eps, cur, edge, v);
    }
    assert es[..|es|] == es;
  }

  method TotalInputs(edges: seq<Edge>, incoming: map<LotId, seq<Edge>>) returns (totals: map<LotId, real>)
    requires Indexed(Backward, edges, incoming)
    ensures forall id | id in incoming :: id in totals && totals[id] == SumOver(Out(Backward, edges, id), Allocated)
  {
    totals := map id | id in incoming :: SumOver(incoming[id], Allocated);
    forall id | id in incoming ensures totals[id] == SumOver(Out(Backward, edges, id), Allocated) {
      assert EdgesAt(incoming, id) == Out(Backward, edges, id);
    }
  }

  ghost predicate HasTotal(n: Network, totals: map<LotId, real>, e: Edge) {
    e.destination in totals && totals[e.destination] == TotalInput(n, e.destination) > 0.0
  }

  lemma TotalKnown(n: Network, incoming: map<LotId, seq<Edge>>, totals: map<LotId, real>, e: Edge)
    requires ValidNetwork(n) && Indexed(Backward, n.edges, incoming) && e in n.edges
    requires forall id | id in incoming :: id in totals && totals[id] == TotalInput(n, id)
    ensures HasTotal(n, totals, e)
  {
    OutMembers(Backward, n.edges, e.destination);
    TotalInputPositive(n, e);
    assert e in Out(Backward, n.edges, e.destination);
    assert EdgesAt(incoming, e.destination) == Out(Backward, n.edges, e.destination);
  }

  method PushForwardEdge(n: Network, totals: map<LotId, real>, eps: real, cur: Item, edge: Edge, w: Work) returns (v: Work)
    requires ValidNetwork(n) && edge in n.edges && edge.source == cur.lot && HasTotal(n, totals, edge)
    ensures v == PushEdge(n, Forward, eps, cur, edge, w)
  {
    assert ValidEdge(n.quantity, edge);
    v := w;
    var totalDestinationInput := AmountAt(totals, edge.destination);
    if totalDestinationInput > 0.0 {
      var affectedAllocation := Scale(edge.allocatedKg, Min(1.0, Ratio(cur.delta, n.quantity[cur.lot])));
      var destinationDelta := Scale(n.quantity[edge.destination], Ratio(affectedAllocation, totalDestinationInput));
      assert destinationDelta == Requested(n, Forward, edge, cur.delta);
      v := Record(n, Forward, eps, cur, edge, destinationDelta, w);
    }
  }

  method PushForward(n: Network, outgoing: map<LotId, seq<Edge>>, totals: map<LotId, real>, eps: real, cur: Item, w: Work,
                     budget: TraceBudget)
    returns (v: Work, stop: Option<Reason>)
    requires ValidNetwork(n) && Indexed(Forward, n.edges, outgoing) && cur.lot in n.quantity
    requires forall e | e in n.edges :: HasTotal(n, totals, e)
    modifies budget
    ensures stop == None ==> v == RunItem(n, Forward, eps, cur, w)
    ensures budget.work >= old(budget.work)
    ensures stop.Some? ==> stop.value in {WorkLimit, TimeLimit}
    ensures stop == Some(WorkLimit) ==> budget.work > MAX_WORK
    ensures stop == Some(TimeLimit) ==> budget.Expired()
  {
    v, stop := w, None;
    var es := EdgesAt(outgoing, cur.lot);
    EdgesOfLot(n, Forward, outgoing, cur.lot);
    assert es[..0] == [];
    for i := 0 to |es|
      invariant stop == None && budget.work >= old(budget.work)
      invariant v == PushEdges(n, Forward, eps, cur, es[..i], w)
    {
      var edge := es[i];
      stop := budget.Step(1, 0);
      if stop.Some? { return; }
      assert ValidEdge(n.quantity, edge) && Origin(Forward, edge) == cur.lot;
      PushNext(n, Forward, eps, cur, es, i, w, v);
      v := PushForwardEdge(n, totals, eps, cur, edge, v);
    }
    assert es[..|es|] == es;
  }

  // ----- the calculations

  /** `w` is what the work-list holds when it has run from `start` to its end. */
  ghost predicate Complete(g: Graph, dir: Direction, eps: real, start: Work, w: Work) {
    && ValidGraph(g) && ValidNetwork(NetworkOf(g)) && Acyclic(NetworkOf(g))
    && Finished(NetworkOf(g), dir, eps, start, |w.queue|)
    && w == Run(NetworkOf(g), dir, eps, start, |w.queue|)
  }

  /** Why the graph makes a calculation end without a result; what work and time refusals rest on is `TraceBudget.Broke`. */
  ghost predicate Justified(g: Graph, reason: Reason) {
    match reason
    case LotsLimit | EdgesLimit | DistributionsLimit => !WithinSizes(g)
    case InvalidGraph => !ValidGraph(g) || !ValidDistributions(g)
    case Cycle => HasCycle(g.edges)
    case DepthLimit => exists d, depth :: depth > MAX_DEPTH && IsDepth(g.edges, d, depth)
    case SeedsLimit | WorkLimit | TimeLimit => true
  }

  method CheckGraph(g: Graph, budget: TraceBudget) returns (r: Result<Index, Reason>)
    modifies budget
    ensures r.Ok? ==> ValidGraph(g) && IsIndex(g, r.value) && Acyclic(NetworkOf(g)) && AllShallow(NetworkOf(g))
    ensures r.Err? ==> Justified(g, r.error) && budget.Broke(r.error) && r.error != SeedsLimit
  {
    r := Indexes(g, budget);
    if r.Err? { return; }
    var stop, depths := AssertAcyclic(g, r.value.outgoing, budget);
    if stop.Some? { return Err(stop.value); }
    forall d | d in QuantityMap(g.lots) ensures Shallow(g.edges, d) { ShallowDepth(g.edges, d, depths[d]); }
  }

  // ----- warnings

  ghost predicate ValidDistributions(g: Graph) {
    && (forall i, j :: 0 <= i < j < |g.distributions| ==> g.distributions[i].id != g.distributions[j].id)
    && forall d | d in g.distributions :: d.lot in QuantityMap(g.lots) && d.quantityKg > 0.0
  }

  /** All that was distributed from a lot. */
  function Distributed(items: seq<Distribution>, id: LotId): real {
    if items == [] then 0.0
    else
      var last := items[|items| - 1];
      Distributed(items[..|items| - 1], id) + if last.lot == id then last.quantityKg else 0.0
  }

  datatype Warnings = Warnings(overAllocated: set<LotId>, estimated: bool, overDistributed: set<LotId>)

  lemma OneMoreDistributed(items: seq<Distribution>, i: nat, byLot: map<LotId, real>)
    requires i < |items| && forall id :: AmountAt(byLot, id) == Distributed(items[..i], id)
    ensures var more := byLot[items[i].lot := AmountAt(byLot, items[i].lot) + items[i].quantityKg];
            forall id :: AmountAt(more, id) == Distributed(items[..i + 1], id)
  {
    assert items[..i + 1][..i] == items[..i];
  }

  function Numbers(items: seq<Distribution>): set<nat> {
    if items == [] then {} else Numbers(items[..|items| - 1]) + {items[|items| - 1].id}
  }

  /** Rows that are accepted: no number twice, lots that exist, quantities above zero. */
  ghost predicate Accepted(items: seq<Distribution>, lots: map<LotId, real>) {
    items == [] ||
    var init, last := items[..|items| - 1], items[|items| - 1];
    Accepted(init, lots) && last.id !in Numbers(init) && last.lot in lots && last.quantityKg > 0.0
  }

  lemma {:induction false} NumbersAre(items: seq<Distribution>, x: nat)
    ensures x in Numbers(items) <==> exists j :: 0 <= j < |items| && items[j].id == x
  {
    if items != [] {
      var init := items[..|items| - 1];
      NumbersAre(init, x);
      if j :| 0 <= j < |init| && init[j].id == x { assert items[j].id == x; }
    }
  }

  lemma {:induction false} AcceptedRows(items: seq<Distribution>, lots: map<LotId, real>)
    requires Accepted(items, lots)
    ensures forall i, j :: 0 <= i < j < |items| ==> items[i].id != items[j].id
    ensures forall d | d in items :: d.lot in lots && d.quantityKg > 0.0
  {
    if items != [] {
      var init, last := items[..|items| - 1], items[|items| - 1];
      AcceptedRows(init, lots);
      NumbersAre(init, last.id);
      assert items == init + [last];
    }
  }

  lemma RowRefused(g: Graph, i: nat)
    requires i < |g.distributions|
    requires var d := g.distributions[i]; d.id in Numbers(g.distributions[..i]) || d.lot !in QuantityMap(g.lots) || d.quantityKg <= 0.0
    ensures !ValidDistributions(g)
  {
    NumbersAre(g.distributions[..i], g.distributions[i].id);
    assert g.distributions[i] in g.distributions;
  }

  method DistributedByLot(g: Graph, budget: TraceBudget) returns (r: Result<map<LotId, real>, Reason>)
    requires ValidGraph(g)
    modifies budget
    ensures r.Ok? ==> ValidDistributions(g) && forall id :: AmountAt(r.value, id) == Distributed(g.distributions, id)
    ensures r == Err(InvalidGraph) ==> !ValidDistributions(g)
    ensures r.Err? ==> r.error in {InvalidGraph, WorkLimit, TimeLimit} && budget.Broke(r.error)
  {
    var lots := QuantityMap(g.lots);
    var byLot: map<LotId, real>, ids: set<nat> := map[], {};
    for i := 0 to |g.distributions|
      invariant forall id :: AmountAt(byLot, id) == Distributed(g.distributions[..i], id)
      invariant Accepted(g.distributions[..i], lots) && ids == Numbers(g.distributions[..i])
    {
      var item := g.distributions[i];
      var stop := budget.Step(1, 0);
      if stop.Some? { return Err(stop.value); }
      if item.id in ids || item.lot !in lots || item.quantityKg <= 0.0 { RowRefused(g, i); }
      if item.id in ids { return Err(InvalidGraph); }
      ids := ids + {item.id};
      if item.lot !in lots || item.quantityKg <= 0.0 { return Err(InvalidGraph); }
      OneMoreDistributed(g.distributions, i, byLot);
      assert g.distributions[..i + 1][..i] == g.distributions[..i];
      byLot := byLot[item.lot := AmountAt(byLot, item.lot) + item.quantityKg];
    }
    assert g.distributions[..|g.distributions|] == g.distributions;
    AcceptedRows(g.distributions, lots);
    r := Ok(byLot);
  }

  method LotsOverDistributed(g: Graph, byLot: map<LotId, real>, budget: TraceBudget) returns (r: Result<set<LotId>, Reason>)
    requires forall id :: AmountAt(byLot, id) == Distributed(g.distributions, id)
    modifies budget
    ensures r.Ok? ==> r.value == OverDistributed(g)
    ensures r.Err? ==> r.error in {WorkLimit, TimeLimit} && budget.Broke(r.error)
  {
    var lots := QuantityMap(g.lots);
    var over: set<LotId> := {};
    QuantityMapKeys(g.lots);
    for i := 0 to |g.lots|
      invariant over == set id | id in OverDistributed(g) && id in LotIds(g.lots[..i])
    {
      var stop := budget.Step(1, 0);
      if stop.Some? { return Err(stop.value); }
      var id := g.lots[i].id;
      assert g.lots[i] in g.lots;
      LotIdsSnoc(g.lots, i);
      if AmountAt(byLot, id) > lots[id] + TOLERANCE { over := over + {id}; }
    }
    assert g.lots[..|g.lots|] == g.lots;
    r := Ok(over);
  }

  lemma LotIdsSnoc(lots: seq<Lot>, i: nat)
    requires i < |lots|
    ensures LotIds(lots[..i + 1]) == LotIds(lots[..i]) + {lots[i].id}
  {
    assert lots[..i + 1] == lots[..i] + [lots[i]];
  }

  method GraphWarnings(g: Graph, outgoing: map<LotId, seq<Edge>>, budget: TraceBudget) returns (r: Result<Warnings, Reason>)
    requires ValidGraph(g) && Indexed(Forward, g.edges, outgoing)
    modifies budget
    ensures r.Ok? ==> ValidDistributions(g)
    ensures r.Ok? ==> r.value == WarningsOf(g)
    ensures r == Err(InvalidGraph) ==> !ValidDistributions(g)
    ensures r.Err? ==> r.error in {InvalidGraph, WorkLimit, TimeLimit} && budget.Broke(r.error)
  {
    var lots := QuantityMap(g.lots);
    OverAllocatedIndexed(g, outgoing);
    var overAllocated := set id | id in outgoing && id in lots && SumOver(outgoing[id], Allocated) > lots[id] + TOLERANCE;
    var estimated := exists e :: e in g.edges && e.allocation == Estimated;
    var byLot := DistributedByLot(g, budget);
    if byLot.Err? { return Err(byLot.error); }
    var overDistributed := LotsOverDistributed(g, byLot.value, budget);
    if overDistributed.Err? { return Err(overDistributed.error); }
    r := Ok(Warnings(overAllocated, estimated, overDistributed.value));
  }

  /** The lots allocated or distributed beyond the tolerance, and whether any allocation is an estimate. */
  function WarningsOf(g: Graph): Warnings {
    Warnings(OverAllocated(NetworkOf(g)), exists e :: e in g.edges && e.allocation == Estimated, OverDistributed(g))
  }

  function OverAllocated(n: Network): set<LotId> {
    set id | id in n.quantity && TotalOutput(n, id) > n.quantity[id] + TOLERANCE
  }

  function OverDistributed(g: Graph): set<LotId> {
    set id | id in QuantityMap(g.lots) && Distributed(g.distributions, id) > QuantityMap(g.lots)[id] + TOLERANCE
  }

  lemma OverAllocatedIndexed(g: Graph, outgoing: map<LotId, seq<Edge>>)
    requires ValidGraph(g) && Indexed(Forward, g.edges, outgoing)
    ensures OverAllocated(NetworkOf(g))
         == set id | id in outgoing && id in QuantityMap(g.lots) && SumOver(outgoing[id], Allocated) > QuantityMap(g.lots)[id] + TOLERANCE
  {
    ValidGraphNetwork(g);
    forall id | id in QuantityMap(g.lots)
      ensures TotalOutput(NetworkOf(g), id) == SumOver(EdgesAt(outgoing, id), Allocated)
    {
      assert EdgesAt(outgoing, id) == Out(Forward, g.edges, id);
    }
  }

  lemma OneEdge(dir: Direction, e: Edge, id: LotId)
    ensures Out(dir, [e], id) == if Origin(dir, e) == id then [e] else []
  {
    assert [e][..0] == [];
  }

  /** A trace back over the only input edge of its lot, when the whole is more than the source holds. */
  lemma FirstEdgeCut(n: Network, eps: real, s: Seed, e: Edge)
    requires ValidNetwork(n) && e in n.edges && Out(Backward, n.edges, s.lot) == [e] && e.source != s.lot && eps < n.quantity[e.source]
    requires Requested(n, Backward, e, s.quantityKg) > n.quantity[e.source]
    ensures CutBy(n, Backward, eps, BackStart(n, s), 0, 0, e.source)
    ensures AmountAt(Run(n, Backward, eps, BackStart(n, s), 1).amount, e.source) == n.quantity[e.source]
  {
    var start := BackStart(n, s);
    var cur := Item(s.lot, s.quantityKg, 0);
    assert Run(n, Backward, eps, start, 0) == start && start.queue[0] == cur && [e][..0] == [];
    assert PushEdges(n, Backward, eps, cur, [], start) == start;
    assert Run(n, Backward, eps, start, 1) == PushEdges(n, Backward, eps, cur, [e], start);
  }

  lemma ToleratedNetwork(n: Network, e: Edge)
    requires e == Edge(0, 0, 1, 1.0005, Declared) && n == Network(map[0 := 1.0, 1 := 1.0], [e])
    ensures ValidNetwork(n) && Acyclic(n)
  {
    assert Ranked(Forward, n, map[0 := 0, 1 := 1], 2);
  }

  lemma ToleratedOutputs(n: Network, e: Edge)
    requires e == Edge(0, 0, 1, 1.0005, Declared) && n == Network(map[0 := 1.0, 1 := 1.0], [e])
    ensures TotalOutput(n, 0) == 1.0005 && TotalOutput(n, 1) == 0.0 && OverAllocated(n) == {}
  {
    OneEdge(Forward, e, 0);
    OneEdge(Forward, e, 1);
    SumOne(e);
  }

  lemma SumOne(e: Edge)
    ensures SumOver([e], Allocated) == e.allocatedKg
  {
    assert [e][..0] == [];
  }

  lemma ToleratedRequest(n: Network, e: Edge)
    requires e == Edge(0, 0, 1, 1.0005, Declared) && n == Network(map[0 := 1.0, 1 := 1.0], [e]) && ValidNetwork(n)
    ensures Requested(n, Backward, e, 1.0) == 1.0005
  {
  }

  /**
   The warning has a tolerance that the clamp does not: outputs may exceed a lot by a gram without a
   warning, and a trace back that asks for all of them is cut down to the lot.
   */
  lemma ToleranceHidesClamp() returns (n: Network, s: Seed)
    ensures ValidNetwork(n) && Acyclic(n) && OverAllocated(n) == {} && ValidSeed(n, s)
    ensures IsCut(n, Backward, CUT_OFF, BackStart(n, s), 0)
    ensures TotalOutput(n, 0) == 1.0005 && AmountAt(Run(n, Backward, CUT_OFF, BackStart(n, s), 1).amount, 0) == 1.0
  {
    var e := Edge(0, 0, 1, 1.0005, Declared);
    n, s := Network(map[0 := 1.0, 1 := 1.0], [e]), Seed(1, 1.0);
    ToleratedNetwork(n, e);
    ToleratedOutputs(n, e);
    ToleratedRequest(n, e);
    OneEdge(Backward, e, 1);
    FirstEdgeCut(n, CUT_OFF, s, e);
  }

  // ----- the two traces

  /** A trace back: amounts by lot, the traced lots that have no inputs, and the warnings. */
  datatype BackTrace = BackTrace(found: Work, sourceLots: set<LotId>, estimated: bool, warnings: Warnings)

  datatype Recall = Recall(found: Work, leafLots: set<LotId>, distributions: seq<Distribution>, recipients: seq<Recipient>,
                           estimated: bool, warnings: Warnings)

  /** Some amount rests on a proportional estimate. */
  predicate HasEstimate(w: Work) {
    exists id :: id in w.basis && Proportional in w.basis[id]
  }

  method RunBack(g: Graph, ix: Index, seed: Seed, eps: real, budget: TraceBudget) returns (r: Result<Work, Reason>)
    requires eps >= 0.0 && ValidGraph(g) && IsIndex(g, ix)
    requires ValidSeed(NetworkOf(g), seed) && Acyclic(NetworkOf(g)) && AllShallow(NetworkOf(g))
    modifies budget
    ensures r.Ok? ==> Complete(g, Backward, eps, BackStart(NetworkOf(g), seed), r.value)
    ensures r.Err? ==> r.error in {WorkLimit, TimeLimit} && budget.Broke(r.error)
  {
    var n := NetworkOf(g);
    ValidGraphNetwork(g);
    var w := BackStart(n, seed);
    ghost var start := w;
    BackStartProper(n, seed);
    var cursor := 0;
    while cursor < |w.queue|
      invariant Following(n, Backward, eps, start, w, cursor)
      decreases MAX_WORK - budget.work
    {
      var current := w.queue[cursor];
      FollowingNext(n, Backward, eps, [seed], start, w, cursor);
      var stop := budget.Step(1, current.depth);
      if stop.Some? { return Err(stop.value); }
      w, stop := PushBack(n, ix.incoming, eps, current, w, budget);
      if stop.Some? { return Err(stop.value); }
      cursor := cursor + 1;
    }
    r := Ok(w);
  }

  method RunForward(g: Graph, ix: Index, seeds: seq<Seed>, eps: real, budget: TraceBudget) returns (r: Result<Work, Reason>)
    requires eps >= 0.0 && ValidGraph(g) && IsIndex(g, ix)
    requires ValidSeeds(NetworkOf(g), seeds) && Acyclic(NetworkOf(g)) && AllShallow(NetworkOf(g))
    modifies budget
    ensures r.Ok? ==> Complete(g, Forward, eps, AddSeeds(NetworkOf(g), seeds), r.value)
    ensures r.Err? ==> r.error in {WorkLimit, TimeLimit} && budget.Broke(r.error)
  {
    var n := NetworkOf(g);
    ValidGraphNetwork(g);
    var totals := TotalInputs(g.edges, ix.incoming);
    forall e | e in n.edges ensures HasTotal(n, totals, e) { TotalKnown(n, ix.incoming, totals, e); }
    var w := AddSeeds(n, seeds);
    ghost var start := w;
    AddSeedsProper(n, seeds);
    var cursor := 0;
    while cursor < |w.queue|
      invariant Following(n, Forward, eps, start, w, cursor)
      decreases MAX_WORK - budget.work
    {
      var current := w.queue[cursor];
      FollowingNext(n, Forward, eps, seeds, start, w, cursor);
      var stop := budget.Step(1, current.depth);
      if stop.Some? { return Err(stop.value); }
      w, stop := PushForward(n, ix.outgoing, totals, eps, current, w, budget);
      if stop.Some? { return Err(stop.value); }
      cursor := cursor + 1;
    }
    r := Ok(w);
  }

  function SourceLots(incoming: map<LotId, seq<Edge>>, found: Work): set<LotId> {
    set id | id in found.amount && EdgesAt(incoming, id) == []
  }

  lemma SourcesHaveNoInputs(g: Graph, incoming: map<LotId, seq<Edge>>, found: Work)
    requires Indexed(Backward, g.edges, incoming)
    ensures forall id :: id in SourceLots(incoming, found) <==> id in found.amount && forall e | e in g.edges :: e.destination != id
  {
    forall id ensures EdgesAt(incoming, id) == [] <==> forall e | e in g.edges :: e.destination != id { NoInputs(g, incoming, id); }
  }

  method CalculateTraceBack(g: Graph, request: SeedRequest, eps: real, budget: TraceBudget) returns (r: Result<BackTrace, Refusal>)
    requires eps >= 0.0
    modifies budget
    ensures r.Ok? ==> var seed := ValidateSeed(QuantityMap(g.lots), request);
                      && seed.Ok? && Complete(g, Backward, eps, BackStart(NetworkOf(g), seed.value), r.value.found)
                      && ValidDistributions(g) && r.value.warnings == WarningsOf(g)
    ensures r.Ok? ==> forall id :: id in r.value.sourceLots <==> id in r.value.found.amount && forall e | e in g.edges :: e.destination != id
    ensures r.Ok? ==> r.value.estimated == HasEstimate(r.value.found)
    ensures r.Err? && r.error.Incomplete? ==> budget.Broke(r.error.reason)
    ensures r.Err? && r.error.Incomplete? ==> Justified(g, r.error.reason) && r.error.reason != SeedsLimit
    ensures r.Err? && !r.error.Incomplete? ==> ValidGraph(g) && !HasCycle(g.edges) && ValidateSeed(QuantityMap(g.lots), request) == Err(r.error)
  {
    var checked := CheckGraph(g, budget);
    if checked.Err? { return Err(Incomplete(checked.error)); }
    var ix := checked.value;
    AcyclicHasNoCycle(NetworkOf(g));
    var seed := ValidateSeed(ix.lots, request);
    if seed.Err? { return Err(seed.error); }
    var run := RunBack(g, ix, seed.value, eps, budget);
    if run.Err? { return Err(Incomplete(run.error)); }
    var found := run.value;
    var sourceLots := SourceLots(ix.incoming, found);
    SourcesHaveNoInputs(g, ix.incoming, found);
    var stop := budget.Step(0, 0);
    if stop.Some? { return Err(Incomplete(stop.value)); }
    var warnings := GraphWarnings(g, ix.outgoing, budget);
    if warnings.Err? { return Err(Incomplete(warnings.error)); }
    r := Ok(BackTrace(found, sourceLots, HasEstimate(found), warnings.value));
  }

  lemma NoInputs(g: Graph, incoming: map<LotId, seq<Edge>>, id: LotId)
    requires Indexed(Backward, g.edges, incoming)
    ensures EdgesAt(incoming, id) == [] <==> forall e | e in g.edges :: e.destination != id
  {
    OutMembers(Backward, g.edges, id);
    assert EdgesAt(incoming, id) == Out(Backward, g.edges, id);
    if EdgesAt(incoming, id) != [] { assert Out(Backward, g.edges, id)[0] in Out(Backward, g.edges, id); }
  }

  /** The seeds in turn, up to the first that is refused. */
  function ValidateSeeds(lots: map<LotId, real>, requests: seq<SeedRequest>): (r: Result<seq<Seed>, Refusal>)
    ensures r.Ok? ==> |r.value| == |requests|
    ensures r.Err? ==> r.error in {LotNotFound, QuantityNotPositive, QuantityExceedsLot}
  {
    if requests == [] then Ok([])
    else
      var init := ValidateSeeds(lots, requests[..|requests| - 1]);
      if init.Err? then init
      else
        var last := ValidateSeed(lots, requests[|requests| - 1]);
        if last.Err? then Err(last.error) else Ok(init.value + [last.value])
  }

  lemma {:induction false} ValidatedSeeds(n: Network, requests: seq<SeedRequest>)
    requires ValidateSeeds(n.quantity, requests).Ok?
    ensures ValidSeeds(n, ValidateSeeds(n.quantity, requests).value)
  {
    if requests != [] { ValidatedSeeds(n, requests[..|requests| - 1]); }
  }

  method CalculateTraceForward(g: Graph, requests: seq<SeedRequest>, eps: real, budget: TraceBudget) returns (r: Result<Recall, Refusal>)
    requires eps >= 0.0
    modifies budget
    ensures r.Ok? ==> var seeds := ValidateSeeds(QuantityMap(g.lots), requests);
                      && 0 < |requests| <= MAX_SEEDS && seeds.Ok?
                      && Complete(g, Forward, eps, AddSeeds(NetworkOf(g), seeds.value), r.value.found)
                      && ValidDistributions(g) && r.value.warnings == WarningsOf(g)
    ensures r.Ok? ==> exists outgoing :: Indexed(Forward, g.edges, outgoing) && r.value.leafLots == LeafLots(r.value.found.amount.Keys, outgoing)
    ensures r.Ok? ==> r.value.distributions == ImpactedDistributions(g.distributions, r.value.found.amount.Keys)
                      && Tallies(r.value.distributions, r.value.recipients)
    ensures r.Ok? ==> r.value.estimated == HasEstimate(r.value.found)
    ensures r.Err? && r.error.Incomplete? ==> budget.Broke(r.error.reason)
    ensures r.Err? && r.error.Incomplete? ==> Justified(g, r.error.reason) && (r.error.reason == SeedsLimit ==> |requests| > MAX_SEEDS)
    ensures r == Err(NoSuspectLot) ==> requests == [] && ValidGraph(g) && !HasCycle(g.edges)
    ensures r.Err? && !r.error.Incomplete? && requests != [] ==> ValidGraph(g) && !HasCycle(g.edges) && ValidateSeeds(QuantityMap(g.lots), requests) == Err(r.error)
  {
    var checked := CheckGraph(g, budget);
    if checked.Err? { return Err(Incomplete(checked.error)); }
    var ix := checked.value;
    AcyclicHasNoCycle(NetworkOf(g));
    if |requests| > MAX_SEEDS { return Err(Incomplete(SeedsLimit)); }
    if requests == [] { return Err(NoSuspectLot); }
    var seeds := ValidateSeeds(ix.lots, requests);
    if seeds.Err? { return Err(seeds.error); }
    ValidatedSeeds(NetworkOf(g), requests);
    var run := RunForward(g, ix, seeds.value, eps, budget);
    if run.Err? { return Err(Incomplete(run.error)); }
    var found := run.value;
    var impacted := found.amount.Keys;
    var leafLots := LeafLots(impacted, ix.outgoing);
    var distributions := ImpactedDistributions(g.distributions, impacted);
    var recipients, stop := Recipients(distributions, budget);
    if stop.Some? { return Err(Incomplete(stop.value)); }
    stop := budget.Step(0, 0);
    if stop.Some? { return Err(Incomplete(stop.value)); }
    var warnings := GraphWarnings(g, ix.outgoing, budget);
    if warnings.Err? { return Err(Incomplete(warnings.error)); }
    r := Ok(Recall(found, leafLots, distributions, recipients, HasEstimate(found), warnings.value));
  }

  // ----- what the results mean

  /** Without a cut-off the forward amounts are the only solution of the balance equations, on exactly the lots that a seed reaches. */
  lemma ForwardResult(g: Graph, seeds: seq<Seed>, w: Work, exact: LotId -> real, d: LotId)
    requires ValidGraph(g) && ValidSeeds(NetworkOf(g), seeds) && Complete(g, Forward, 0.0, AddSeeds(NetworkOf(g), seeds), w)
    requires Solves(NetworkOf(g), Forward, seeds, exact) && d in QuantityMap(g.lots)
    ensures AmountAt(w.amount, d) == exact(d)
    ensures d in w.amount <==> exists a :: IsSeed(seeds, a) && Reaches(Forward, g.edges, a, d)
  {
    var n, dir := NetworkOf(g), Forward;
    var start := AddSeeds(n, seeds);
    AddSeedsProper(n, seeds);
    ValidSeedsPositive(n, seeds);
    RunWithinLots(n, dir, 0.0, start, |w.queue|);
    TraceSolves(n, dir, seeds, start, |w.queue|);
    SolutionIsUnique(n, dir, seeds, Found(n, w), exact);
    RunConsistent(n, dir, 0.0, start, |w.queue|);
    assert Found(n, w)(d) == Capped(n, w, d);
    ScopeIsReachability(n, dir, seeds, start, |w.queue|, d);
  }

  /** With a cut-off they are never larger, and every lot reported is reached. */
  lemma ForwardResultWithCutOff(g: Graph, seeds: seq<Seed>, eps: real, w: Work, exact: LotId -> real, d: LotId)
    requires eps >= 0.0 && ValidGraph(g) && ValidSeeds(NetworkOf(g), seeds) && Complete(g, Forward, eps, AddSeeds(NetworkOf(g), seeds), w)
    requires Solves(NetworkOf(g), Forward, seeds, exact) && d in QuantityMap(g.lots)
    ensures AmountAt(w.amount, d) <= exact(d)
    ensures d in w.amount ==> exists a :: IsSeed(seeds, a) && Reaches(Forward, g.edges, a, d)
  {
    var n, dir := NetworkOf(g), Forward;
    var start := AddSeeds(n, seeds);
    AddSeedsProper(n, seeds);
    RunWithinLots(n, dir, eps, start, |w.queue|);
    RunConsistent(n, dir, eps, start, |w.queue|);
    CutOffOnlyLoses(n, dir, eps, seeds, start, |w.queue|, exact);
    assert Found(n, w)(d) == Capped(n, w, d);
    if d in w.amount {
      ScopeIsReached(n, dir, eps, seeds, start, |w.queue|, d);
      var a, p :| IsSeed(seeds, a) && Walk(dir, n.edges, a, p, d) && |p| == DepthAt(w.depth, d);
      assert Reaches(dir, g.edges, a, d);
    }
  }

  /** The same back from one lot, whose own amount may exceed it by the tolerance. */
  lemma BackResult(g: Graph, seed: Seed, w: Work, exact: LotId -> real, d: LotId)
    requires ValidGraph(g) && ValidSeed(NetworkOf(g), seed) && Complete(g, Backward, 0.0, BackStart(NetworkOf(g), seed), w)
    requires Solves(NetworkOf(g), Backward, [seed], exact) && d in QuantityMap(g.lots)
    ensures Min(AmountAt(w.amount, d), QuantityMap(g.lots)[d]) == exact(d)
    ensures d in w.amount <==> Reaches(Backward, g.edges, seed.lot, d)
  {
    var n, dir := NetworkOf(g), Backward;
    var start := BackStart(n, seed);
    BackStartProper(n, seed);
    TraceSolves(n, dir, [seed], start, |w.queue|);
    SolutionIsUnique(n, dir, [seed], Found(n, w), exact);
    assert Found(n, w)(d) == Capped(n, w, d);
    assert seed in [seed];
    ScopeIsReachability(n, dir, [seed], start, |w.queue|, d);
  }
}
