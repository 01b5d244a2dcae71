/**
 What a trace checks before it calculates: sizes, identities, positive masses, known ends of every
 edge, and the absence of cycles.
 */
module RecallChecks {
  import opened Outcomes
  import opened Sums
  import opened TraceGraphs
  import opened TraceBudgets
  import opened Acyclicity

  /** The look-up tables of one trace. */
  datatype Index = Index(lots: map<LotId, real>, incoming: map<LotId, seq<Edge>>, outgoing: map<LotId, seq<Edge>>)

  /** The table holds exactly the lots with edges, and for each its edges in recorded order. */
  ghost predicate Indexed(dir: Direction, edges: seq<Edge>, table: map<LotId, seq<Edge>>) {
    forall id {:trigger Out(dir, edges, id)} :: EdgesAt(table, id) == Out(dir, edges, id) && (id in table <==> Out(dir, edges, id) != [])
  }

  function EdgesAt(table: map<LotId, seq<Edge>>, id: LotId): seq<Edge> {
    if id in table then table[id] else []
  }

  ghost predicate IsIndex(g: Graph, ix: Index) {
    && ix.lots == QuantityMap(g.lots)
    && Indexed(Backward, g.edges, ix.incoming)
    && Indexed(Forward, g.edges, ix.outgoing)
  }

  ghost predicate WithinSizes(g: Graph) {
    |g.lots| <= MAX_LOTS && |g.edges| <= MAX_EDGES && |g.distributions| <= MAX_DISTRIBUTIONS
  }

  lemma IndexedSnoc(dir: Direction, edges: seq<Edge>, e: Edge, table: map<LotId, seq<Edge>>)
    requires Indexed(dir, edges, table)
    ensures Indexed(dir, edges + [e], table[Origin(dir, e) := EdgesAt(table, Origin(dir, e)) + [e]])
  {
    var table' := table[Origin(dir, e) := EdgesAt(table, Origin(dir, e)) + [e]];
    forall id ensures EdgesAt(table', id) == Out(dir, edges + [e], id) && (id in table' <==> Out(dir, edges + [e], id) != []) {
      assert (edges + [e])[..|edges|] == edges;
      assert EdgesAt(table, id) == Out(dir, edges, id);
    }
  }

  function LotIds(lots: seq<Lot>): set<LotId> {
    set lot | lot in lots :: lot.id
  }

  /** As many identifiers as lots means no two lots share one. */
  lemma {:induction false} DistinctLotsBySize(lots: seq<Lot>)
    ensures |LotIds(lots)| <= |lots|
    ensures |LotIds(lots)| == |lots| <==> DistinctLots(lots)
  {
    if lots != [] {
      var init, last := lots[..|lots| - 1], lots[|lots| - 1];
      DistinctLotsBySize(init);
      assert lots == init + [last];
      assert LotIds(lots) == LotIds(init) + {last.id};
      if last.id in LotIds(init) {
        assert LotIds(lots) == LotIds(init);
        var lot :| lot in init && lot.id == last.id;
      } else {
        assert forall lot | lot in init :: lot.id != last.id;
      }
    }
  }

  predicate HasWeightlessLot(lots: seq<Lot>) {
    exists lot :: lot in lots && lot.quantityKg <= 0.0
  }

  /** The edges read so far have distinct identities, known ends and positive masses. */
  ghost predicate GoodEdges(lots: map<LotId, real>, edges: seq<Edge>, ids: set<nat>) {
    && DistinctEdges(edges)
    && (forall e | e in edges :: ValidEdge(lots, e))
    && forall id :: id in ids <==> exists e :: e in edges && e.id == id
  }

  lemma GoodEdgesSnoc(lots: map<LotId, real>, edges: seq<Edge>, ids: set<nat>, e: Edge)
    requires GoodEdges(lots, edges, ids)
    ensures GoodEdges(lots, edges + [e], ids + {e.id}) <==> e.id !in ids && ValidEdge(lots, e)
    ensures e.id in ids ==> !DistinctEdges(edges + [e])
  {
    var longer := edges + [e];
    assert longer[|edges|] == e;
    if e.id in ids {
      var f :| f in edges && f.id == e.id;
      var j :| 0 <= j < |edges| && edges[j] == f;
      assert longer[j].id == longer[|edges|].id;
    } else {
      forall id ensures id in ids + {e.id} <==> exists f :: f in longer && f.id == id {
        if id in ids {
          var f :| f in edges && f.id == id;
          assert f in longer;
        }
      }
      forall j | 0 <= j < |edges| ensures edges[j].id != e.id { assert edges[j] in edges; }
    }
    assert e in longer;
  }

  lemma PrefixDistinct(edges: seq<Edge>, i: nat)
    requires i <= |edges|
    ensures DistinctEdges(edges) ==> DistinctEdges(edges[..i])
  {
  }

  /** One more edge makes the list invalid, or belongs into both tables. */
  lemma NextEdge(edges: seq<Edge>, lots: map<LotId, real>, ids: set<nat>, i: nat)
    requires i < |edges| && GoodEdges(lots, edges[..i], ids)
    ensures edges[i].id in ids || !ValidEdge(lots, edges[i]) ==> !(DistinctEdges(edges) && forall e | e in edges :: ValidEdge(lots, e))
    ensures edges[i].id !in ids && ValidEdge(lots, edges[i]) ==> GoodEdges(lots, edges[..i + 1], ids + {edges[i].id})
  {
    var edge := edges[i];
    assert edges[..i + 1] == edges[..i] + [edge] && edge in edges;
    GoodEdgesSnoc(lots, edges[..i], ids, edge);
    PrefixDistinct(edges, i + 1);
  }

  lemma NextIndexed(dir: Direction, edges: seq<Edge>, i: nat, table: map<LotId, seq<Edge>>)
    requires i < |edges| && Indexed(dir, edges[..i], table)
    ensures Indexed(dir, edges[..i + 1], table[Origin(dir, edges[i]) := EdgesAt(table, Origin(dir, edges[i])) + [edges[i]]])
  {
    assert edges[..i + 1] == edges[..i] + [edges[i]];
    IndexedSnoc(dir, edges[..i], edges[i], table);
  }

  /** Reads the edges into the two tables, unless one of them is not valid. */
  method IndexEdges(edges: seq<Edge>, lots: map<LotId, real>) returns (r: Result<Index, Reason>)
    ensures r.Ok? <==> DistinctEdges(edges) && forall e | e in edges :: ValidEdge(lots, e)
    ensures r.Ok? ==> r.value.lots == lots && Indexed(Backward, edges, r.value.incoming) && Indexed(Forward, edges, r.value.outgoing)
    ensures r.Err? ==> r.error == InvalidGraph
  {
    var incoming: map<LotId, seq<Edge>>, outgoing: map<LotId, seq<Edge>>, edgeIds: set<nat> := map[], map[], {};
    for i := 0 to |edges|
      invariant Indexed(Backward, edges[..i], incoming) && Indexed(Forward, edges[..i], outgoing)
      invariant GoodEdges(lots, edges[..i], edgeIds)
    {
      var edge := edges[i];
      NextEdge(edges, lots, edgeIds, i);
      if edge.id in edgeIds { return Err(InvalidGraph); }
      edgeIds := edgeIds + {edge.id};
      if edge.source !in lots || edge.destination !in lots { return Err(InvalidGraph); }
      if edge.allocatedKg <= 0.0 { return Err(InvalidGraph); }
      NextIndexed(Backward, edges, i, incoming);
      NextIndexed(Forward, edges, i, outgoing);
      incoming := incoming[edge.destination := EdgesAt(incoming, edge.destination) + [edge]];
      outgoing := outgoing[edge.source := EdgesAt(outgoing, edge.source) + [edge]];
    }
    assert edges[..|edges|] == edges;
    r := Ok(Index(lots, incoming, outgoing));
  }

  /** Refuses exactly the graphs that are too large or not valid, or builds their look-up tables. */
  method Indexes(g: Graph, budget: TraceBudget) returns (r: Result<Index, Reason>)
    modifies budget
    ensures r.Ok? ==> WithinSizes(g) && ValidGraph(g) && IsIndex(g, r.value)
    ensures r.Ok? ==> budget.work == old(budget.work) + |g.lots| + |g.edges| + |g.distributions|
    ensures !WithinSizes(g) ==> r.Err? && r.error in {LotsLimit, EdgesLimit, DistributionsLimit}
    ensures WithinSizes(g) && r.Err? ==> r.error in {WorkLimit, TimeLimit, InvalidGraph}
    ensures r == Err(InvalidGraph) ==> !ValidGraph(g)
    ensures r == Err(WorkLimit) ==> budget.work > MAX_WORK
    ensures r == Err(TimeLimit) ==> budget.Expired()
  {
    if |g.lots| > MAX_LOTS { return Err(LotsLimit); }
    if |g.edges| > MAX_EDGES { return Err(EdgesLimit); }
    if |g.distributions| > MAX_DISTRIBUTIONS { return Err(DistributionsLimit); }
    var stop := budget.Step(|g.lots| + |g.edges| + |g.distributions|, 0);
    if stop.Some? { return Err(stop.value); }
    DistinctLotsBySize(g.lots);
    if |LotIds(g.lots)| != |g.lots| || HasWeightlessLot(g.lots) { return Err(InvalidGraph); }
    r := IndexEdges(g.edges, QuantityMap(g.lots));
  }

  // ----- cycles

  lemma InDegreeSnoc(edges: seq<Edge>, e: Edge, d: LotId)
    ensures InDegree(edges + [e], d) == InDegree(edges, d) + if e.destination == d then 1 else 0
  {
    assert (edges + [e])[..|edges|] == edges;
  }

  method CountInputs(g: Graph) returns (indegree: map<LotId, int>)
    requires ValidGraph(g)
    ensures indegree.Keys == QuantityMap(g.lots).Keys
    ensures forall d | d in indegree :: indegree[d] == InDegree(g.edges, d)
  {
    var lots := QuantityMap(g.lots);
    indegree := map d | d in lots :: 0;
    for i := 0 to |g.edges|
      invariant indegree.Keys == lots.Keys
      invariant forall d | d in indegree :: indegree[d] == InDegree(g.edges[..i], d)
    {
      var edge := g.edges[i];
      assert ValidEdge(lots, edge);
      forall d { InDegreeSnoc(g.edges[..i], edge, d); }
      assert g.edges[..i + 1] == g.edges[..i] + [edge];
      indegree := indegree[edge.destination := indegree[edge.destination] + 1];
    }
    assert g.edges[..|g.edges|] == g.edges;
  }

  method LotsWithoutInputs(g: Graph, indegree: map<LotId, int>) returns (queue: seq<LotId>)
    requires ValidGraph(g) && indegree.Keys == QuantityMap(g.lots).Keys
    ensures Distinct(queue) && forall d :: d in queue <==> d in indegree && indegree[d] == 0
  {
    queue := [];
    QuantityMapKeys(g.lots);
    for i := 0 to |g.lots|
      invariant Distinct(queue)
      invariant forall d :: d in queue <==> d in indegree && indegree[d] == 0 && exists j :: 0 <= j < i && g.lots[j].id == d
    {
      var id := g.lots[i].id;
      assert g.lots[i] in g.lots;
      if indegree[id] == 0 { queue := queue + [id]; }
    }
  }

  method ScanOne(edge: Edge, id: LotId, s: Scan) returns (t: Scan)
    requires edge.source == id && edge.destination in s.indegree
    ensures t == ScanEdge(s, edge)
    ensures s.queue <= t.queue
  {
    var depths := s.depths[edge.destination := MaxNat(DepthAt(s.depths, edge.destination), DepthAt(s.depths, id) + 1)];
    var indegree := s.indegree[edge.destination := s.indegree[edge.destination] - 1];
    var queue := if indegree[edge.destination] == 0 then s.queue + [edge.destination] else s.queue;
    t := Scan(indegree, depths, queue);
  }

  lemma ScanNext(n: Network, s: Scan, placed: set<LotId>, edges: seq<Edge>, i: nat)
    requires ValidNetwork(n) && i < |edges| && edges[i] in n.edges && edges[i].source in placed && Good(n, s, placed, edges[i..])
    ensures edges[i].destination in s.indegree
    ensures Good(n, ScanEdge(s, edges[i]), placed, edges[i + 1..])
  {
    assert ValidEdge(n.quantity, edges[i]);
    assert edges[i..] == [edges[i]] + edges[i + 1..];
    ScanEdgeGood(n, s, placed, edges[i], edges[i + 1..]);
  }

  /** Scans the edges of one placed lot. */
  method ScanLot(ghost n: Network, edges: seq<Edge>, id: LotId, ghost placed: set<LotId>, s: Scan, budget: TraceBudget)
    returns (t: Scan, stop: Option<Reason>)
    requires ValidNetwork(n) && id in placed && Good(n, s, placed, edges)
    requires forall e | e in edges :: e in n.edges && e.source == id
    modifies budget
    ensures stop == None ==> Good(n, t, placed, []) && s.queue <= t.queue && budget.work == old(budget.work) + |edges|
    ensures stop.Some? ==> stop.value in {WorkLimit, TimeLimit}
    ensures stop == Some(WorkLimit) ==> budget.work > MAX_WORK
    ensures stop == Some(TimeLimit) ==> budget.Expired()
  {
    t, stop := s, None;
    assert edges[0..] == edges;
    for i := 0 to |edges|
      invariant Good(n, t, placed, edges[i..]) && s.queue <= t.queue && budget.work == old(budget.work) + i
      invariant stop == None
    {
      var edge := edges[i];
      stop := budget.Step(1, 0);
      if stop.Some? { return; }
      ScanNext(n, t, placed, edges, i);
      t := ScanOne(edge, id, t);
    }
    assert edges[|edges|..] == [];
  }

  lemma OutputsOf(g: Graph, outgoing: map<LotId, seq<Edge>>, id: LotId)
    requires Indexed(Forward, g.edges, outgoing)
    ensures EdgesAt(outgoing, id) == Out(Forward, g.edges, id)
    ensures forall e | e in EdgesAt(outgoing, id) :: e in g.edges && e.source == id
  {
    OutMembers(Forward, g.edges, id);
    assert EdgesAt(outgoing, id) == Out(Forward, g.edges, id);
  }

  lemma EveryLotPlaced(g: Graph, queue: seq<LotId>)
    requires ValidGraph(g) && Distinct(queue) && |queue| == |g.lots| && forall d | d in queue :: d in QuantityMap(g.lots)
    ensures forall d | d in QuantityMap(g.lots) :: d in queue
  {
    QuantityMapKeys(g.lots);
    DistinctLotsBySize(g.lots);
    var ids := QuantityMap(g.lots).Keys;
    assert ids == LotIds(g.lots);
    forall d | d in ids ensures d in queue {
      if d !in queue { DistinctBound(queue, ids - {d}); }
    }
  }

  lemma QueueFits(g: Graph, queue: seq<LotId>)
    requires ValidGraph(g) && Distinct(queue) && forall d | d in queue :: d in QuantityMap(g.lots)
    ensures |queue| <= |g.lots|
    ensures |queue| < |g.lots| ==> exists d :: d in QuantityMap(g.lots) && d !in queue
  {
    QuantityMapKeys(g.lots);
    DistinctLotsBySize(g.lots);
    var ids := QuantityMap(g.lots).Keys;
    assert ids == LotIds(g.lots);
    DistinctBound(queue, ids);
    if forall d | d in ids :: d in queue {
      assert ids == Elements(queue);
      ElementsSize(queue);
    }
  }

  lemma {:induction false} ElementsSize(queue: seq<LotId>)
    ensures |Elements(queue)| <= |queue|
  {
    if queue != [] {
      var init, last := queue[..|queue| - 1], queue[|queue| - 1];
      ElementsSize(init);
      assert Elements(queue) == Elements(init) + {last};
    }
  }

  /** No ancestry of `d` is longer than a trace may be deep. */
  ghost predicate Shallow(edges: seq<Edge>, d: LotId) {
    forall a, p | Walk(Forward, edges, a, p, d) :: |p| <= MAX_DEPTH
  }

  lemma ShallowDepth(edges: seq<Edge>, d: LotId, depth: nat)
    requires IsDepth(edges, d, depth)
    ensures Shallow(edges, d) <==> depth <= MAX_DEPTH
  {
    var a, p :| IsRoot(edges, a) && Walk(Forward, edges, a, p, d) && |p| == depth;
  }

  lemma QueuedIsDeep(n: Network, s: Scan, placed: set<LotId>, rest: seq<Edge>, d: LotId)
    requires Good(n, s, placed, rest) && d in s.queue
    ensures d in s.depths && IsDepth(n.edges, d, s.depths[d])
    ensures Shallow(n.edges, d) <==> s.depths[d] <= MAX_DEPTH
  {
    ShallowDepth(n.edges, d, s.depths[d]);
  }

  /** Queues the lots without inputs, at depth zero. */
  method StartScan(g: Graph) returns (s: Scan)
    requires ValidGraph(g)
    ensures Good(NetworkOf(g), s, {}, []) && |s.queue| <= |g.lots|
  {
    ValidGraphNetwork(g);
    var indegree := CountInputs(g);
    var queue := LotsWithoutInputs(g, indegree);
    QueueFits(g, queue);
    s := Scan(indegree, map id | id in queue :: 0, queue);
    StartGood(NetworkOf(g), indegree, queue, s.depths);
    assert Elements(queue[..0]) == {};
  }

  /** Placing fewer lots than there are means a cycle; placing all of them means there is none. */
  lemma Verdict(g: Graph, s: Scan)
    requires ValidGraph(g) && Good(NetworkOf(g), s, Elements(s.queue), [])
    ensures |s.queue| <= |g.lots|
    ensures |s.queue| != |g.lots| ==> HasCycle(g.edges)
    ensures |s.queue| == |g.lots| ==> !HasCycle(g.edges) && Acyclic(NetworkOf(g)) && forall d | d in QuantityMap(g.lots) :: d in s.queue
  {
    var n := NetworkOf(g);
    ValidGraphNetwork(g);
    QueueFits(g, s.queue);
    if |s.queue| != |g.lots| {
      IncompleteHasCycle(n, s);
    } else {
      EveryLotPlaced(g, s.queue);
      CompleteIsAcyclic(n, s.queue);
      AcyclicHasNoCycle(n);
    }
  }

  lemma SamePlaced(before: seq<LotId>, after: seq<LotId>, c: nat)
    requires before <= after && c <= |before|
    ensures before[..c] == after[..c]
  {
  }

  /**
   Places every lot after its inputs, or finds that some cannot be placed. When no limit stops it, it
   answers CYCLE exactly when the genealogy has a directed cycle, and otherwise has for every lot the
   length of its longest ancestry. A depth stop means that a lot with a longer ancestry exists.
   */
  method AssertAcyclic(g: Graph, outgoing: map<LotId, seq<Edge>>, budget: TraceBudget)
    returns (stop: Option<Reason>, depths: map<LotId, nat>)
    requires ValidGraph(g) && Indexed(Forward, g.edges, outgoing)
    modifies budget
    ensures stop == None ==> !HasCycle(g.edges) && Acyclic(NetworkOf(g))
    ensures stop == None ==> forall d | d in QuantityMap(g.lots) :: d in depths && IsDepth(g.edges, d, depths[d]) && depths[d] <= MAX_DEPTH
    ensures stop == Some(Cycle) ==> HasCycle(g.edges)
    ensures stop == Some(DepthLimit) ==> exists d, depth :: depth > MAX_DEPTH && IsDepth(g.edges, d, depth)
    ensures stop.Some? ==> stop.value in {Cycle, DepthLimit, WorkLimit, TimeLimit}
    ensures stop == Some(WorkLimit) ==> budget.work > MAX_WORK
    ensures stop == Some(TimeLimit) ==> budget.Expired()
  {
    ghost var n := NetworkOf(g);
    ValidGraphNetwork(g);
    var s := StartScan(g);
    var cursor := 0;
    assert Elements(s.queue[..0]) == {};
    while cursor < |s.queue|
      invariant cursor <= |s.queue| <= |g.lots|
      invariant Good(n, s, Elements(s.queue[..cursor]), [])
      invariant forall id | id in s.queue[..cursor] :: Shallow(g.edges, id)
      decreases |g.lots| - cursor
    {
      var id := s.queue[cursor];
      depths := s.depths;
      QueuedIsDeep(n, s, Elements(s.queue[..cursor]), [], id);
      stop := budget.Step(1, s.depths[id]);
      if stop.Some? { return; }
      PlaceGood(n, s, cursor);
      OutputsOf(g, outgoing, id);
      ghost var before := s.queue;
      s, stop := ScanLot(n, EdgesAt(outgoing, id), id, Elements(s.queue[..cursor + 1]), s, budget);
      if stop.Some? { return; }
      SamePlaced(before, s.queue, cursor + 1);
      assert forall d | d in s.queue[..cursor + 1] :: d == id || d in before[..cursor];
      QueueFits(g, s.queue);
      cursor := cursor + 1;
    }
    depths := s.depths;
    assert s.queue[..cursor] == s.queue;
    forall d | d in s.queue ensures d in s.depths && IsDepth(g.edges, d, s.depths[d]) && s.depths[d] <= MAX_DEPTH {
      QueuedIsDeep(n, s, Elements(s.queue), [], d);
    }
    Verdict(g, s);
    stop := if cursor != |g.lots| then Some(Cycle) else None;
  }
}
