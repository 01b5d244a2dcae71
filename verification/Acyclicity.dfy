/**
 The cycle check: lots are queued when the last of their inputs has been seen. It reports CYCLE
 exactly when the genealogy has a directed cycle, and knows each lot's longest ancestry.
 */
module Acyclicity {
  import opened Outcomes
  import opened TraceGraphs
  import opened TraceBudgets

  // ----- counting inputs

  /** Edges into `d` whose source is not placed yet. */
  function Unplaced(edges: seq<Edge>, d: LotId, placed: set<LotId>): nat {
    if edges == [] then 0
    else
      var e := edges[|edges| - 1];
      Unplaced(edges[..|edges| - 1], d, placed) + if e.destination == d && e.source !in placed then 1 else 0
  }

  /** Edges into `d`. */
  function InDegree(edges: seq<Edge>, d: LotId): nat {
    Unplaced(edges, d, {})
  }

  lemma {:induction false} UnplacedZero(edges: seq<Edge>, d: LotId, placed: set<LotId>)
    ensures Unplaced(edges, d, placed) == 0 <==> forall e | e in edges && e.destination == d :: e.source in placed
  {
    if edges != [] {
      UnplacedZero(edges[..|edges| - 1], d, placed);
      assert edges == edges[..|edges| - 1] + [edges[|edges| - 1]];
    }
  }

  /** Placing one more lot moves its edges from the unplaced to those about to be scanned. */
  lemma {:induction false} UnplacedPlace(edges: seq<Edge>, d: LotId, placed: set<LotId>, cur: LotId)
    requires cur !in placed
    ensures Unplaced(edges, d, placed) == Unplaced(edges, d, placed + {cur}) + InDegree(Out(Forward, edges, cur), d)
  {
    if edges != [] {
      var init, e := edges[..|edges| - 1], edges[|edges| - 1];
      UnplacedPlace(init, d, placed, cur);
      var before := Out(Forward, init, cur);
      if e.source == cur {
        assert (before + [e])[..|before|] == before;
      } else {
        assert before + [] == before;
      }
    }
  }

  lemma {:induction false} InDegreeCons(e: Edge, rest: seq<Edge>, d: LotId)
    ensures InDegree([e] + rest, d) == InDegree(rest, d) + if e.destination == d then 1 else 0
  {
    if rest == [] {
      assert [e] + rest == [e] && [e][..0] == [];
    } else {
      InDegreeCons(e, rest[..|rest| - 1], d);
      assert ([e] + rest)[..|[e] + rest| - 1] == [e] + rest[..|rest| - 1];
    }
  }

  lemma {:induction false} InDegreePositive(edges: seq<Edge>, d: LotId)
    requires InDegree(edges, d) > 0
    ensures exists e :: e in edges && e.destination == d
  {
    var last := edges[|edges| - 1];
    if last.destination == d {
      assert last in edges;
    } else {
      InDegreePositive(edges[..|edges| - 1], d);
    }
  }

  // ----- depth

  /** `depth` is the length of the longest walk that ends at `d`, and one of that length starts at a lot without inputs. */
  ghost predicate IsDepth(edges: seq<Edge>, d: LotId, depth: nat) {
    && (exists a, p :: IsRoot(edges, a) && Walk(Forward, edges, a, p, d) && |p| == depth)
    && forall a, p | Walk(Forward, edges, a, p, d) :: |p| <= depth
  }

  ghost predicate IsRoot(edges: seq<Edge>, a: LotId) {
    forall e | e in edges :: e.destination != a
  }

  lemma RootHasDepthZero(edges: seq<Edge>, d: LotId)
    requires IsRoot(edges, d)
    ensures IsDepth(edges, d, 0)
  {
    assert Walk(Forward, edges, d, [], d);
    forall a, p | Walk(Forward, edges, a, p, d) ensures |p| <= 0 {
      if p != [] { assert false; }
    }
  }

  /** Once all inputs have their depth, one more than the deepest is the depth of the lot. */
  lemma DepthFromInputs(edges: seq<Edge>, d: LotId, depths: map<LotId, nat>, depth: nat)
    requires forall e | e in edges && e.destination == d :: e.source in depths && IsDepth(edges, e.source, depths[e.source]) && depths[e.source] + 1 <= depth
    requires depth > 0 ==> exists e :: e in edges && e.destination == d && e.source in depths && depths[e.source] + 1 == depth
    ensures IsDepth(edges, d, depth)
  {
    if depth == 0 {
      RootHasDepthZero(edges, d);
    } else {
      var e :| e in edges && e.destination == d && e.source in depths && depths[e.source] + 1 == depth;
      var a, p :| IsRoot(edges, a) && Walk(Forward, edges, a, p, e.source) && |p| == depths[e.source];
      assert (p + [e])[..|p|] == p;
      assert Walk(Forward, edges, a, p + [e], d);
      forall a', p' | Walk(Forward, edges, a', p', d) ensures |p'| <= depth {
        if p' != [] {
          var e' := p'[|p'| - 1];
          assert e' in edges && Walk(Forward, edges, a', p'[..|p'| - 1], e'.source);
        }
      }
    }
  }

  // ----- the state of the check

  datatype Scan = Scan(indegree: map<LotId, int>, depths: map<LotId, nat>, queue: seq<LotId>)

  /** Every queued lot comes after all of its inputs. */
  ghost predicate InputsFirst(edges: seq<Edge>, queue: seq<LotId>) {
    forall j {:trigger InputsBefore(edges, queue, j)} | 0 <= j < |queue| :: InputsBefore(edges, queue, j)
  }

  ghost predicate InputsBefore(edges: seq<Edge>, queue: seq<LotId>, j: nat)
    requires j < |queue|
  {
    forall e | e in edges && e.destination == queue[j] :: e.source in queue[..j]
  }

  ghost predicate Counted(n: Network, s: Scan, placed: set<LotId>, rest: seq<Edge>) {
    && s.indegree.Keys == n.quantity.Keys
    && (forall d | d in n.quantity :: s.indegree[d] == Unplaced(n.edges, d, placed) + InDegree(rest, d))
    && (forall d | d in n.quantity :: d in s.queue <==> s.indegree[d] == 0)
    && Distinct(s.queue)
    && (forall d | d in s.queue :: d in n.quantity)
    && (forall d | d in placed :: d in s.queue)
  }

  /** Recorded depths are the largest that the scanned edges give. */
  ghost predicate Layered(n: Network, depths: map<LotId, nat>, placed: set<LotId>, rest: seq<Edge>) {
    && (forall e | e in n.edges && e.source in placed && e !in rest :: DepthAt(depths, e.source) + 1 <= DepthAt(depths, e.destination))
    && (forall d {:trigger Attained(n, depths, placed, d)} | DepthAt(depths, d) > 0 :: Attained(n, depths, placed, d))
  }

  ghost predicate Deep(n: Network, s: Scan, placed: set<LotId>, rest: seq<Edge>) {
    && (forall d | d in s.queue :: d in s.depths && IsDepth(n.edges, d, s.depths[d]))
    && Layered(n, s.depths, placed, rest)
  }

  /** `placed` have been dequeued; of the last of them the edges `rest` are still to be scanned. */
  ghost predicate Good(n: Network, s: Scan, placed: set<LotId>, rest: seq<Edge>) {
    Counted(n, s, placed, rest) && Deep(n, s, placed, rest) && InputsFirst(n.edges, s.queue)
  }

  function Elements(queue: seq<LotId>): set<LotId> {
    set id | id in queue
  }

  function ScanEdge(s: Scan, e: Edge): Scan
    requires e.destination in s.indegree
  {
    var d := e.destination;
    var left := s.indegree[d] - 1;
    Scan(s.indegree[d := left], s.depths[d := MaxNat(DepthAt(s.depths, d), DepthAt(s.depths, e.source) + 1)],
         if left == 0 then s.queue + [d] else s.queue)
  }

  lemma ScanEdgeCounted(n: Network, s: Scan, placed: set<LotId>, e: Edge, rest: seq<Edge>)
    requires ValidNetwork(n) && e in n.edges && Counted(n, s, placed, [e] + rest)
    ensures Counted(n, ScanEdge(s, e), placed, rest)
    ensures e.destination !in s.queue
  {
    forall d { InDegreeCons(e, rest, d); }
    assert ValidEdge(n.quantity, e);
    assert e.destination !in s.queue;
  }

  lemma AppendInputsFirst(edges: seq<Edge>, queue: seq<LotId>, d: LotId)
    requires InputsFirst(edges, queue) && forall e | e in edges && e.destination == d :: e.source in queue
    ensures InputsFirst(edges, queue + [d])
  {
    var longer := queue + [d];
    forall j | 0 <= j < |longer| ensures InputsBefore(edges, longer, j) {
      if j < |queue| {
        assert InputsBefore(edges, queue, j);
        assert longer[..j] == queue[..j];
      } else {
        assert longer[..j] == queue;
      }
    }
  }

  lemma InputsPlaced(n: Network, s: Scan, placed: set<LotId>, rest: seq<Edge>, d: LotId)
    requires Counted(n, s, placed, rest) && d in n.quantity && s.indegree[d] == 0
    ensures forall e | e in n.edges && e.destination == d :: e.source in placed && e.source in s.queue
  {
    UnplacedZero(n.edges, d, placed);
  }

  lemma ScanEdgeInputsFirst(n: Network, s: Scan, placed: set<LotId>, e: Edge, rest: seq<Edge>)
    requires ValidNetwork(n) && e in n.edges && Counted(n, s, placed, [e] + rest) && InputsFirst(n.edges, s.queue)
    ensures InputsFirst(n.edges, ScanEdge(s, e).queue)
  {
    var t, d := ScanEdge(s, e), e.destination;
    assert ValidEdge(n.quantity, e);
    if t.queue != s.queue {
      ScanEdgeCounted(n, s, placed, e, rest);
      InputsPlaced(n, t, placed, rest, d);
      assert forall f | f in n.edges && f.destination == d :: f.source in s.queue;
      AppendInputsFirst(n.edges, s.queue, d);
    }
  }

  /** Scanning an edge only changes the depth of its destination, which is not queued yet. */
  lemma ScanEdgeDepth(n: Network, s: Scan, placed: set<LotId>, e: Edge, rest: seq<Edge>, id: LotId)
    requires ValidNetwork(n) && e in n.edges && e.source in placed && Counted(n, s, placed, [e] + rest)
    ensures id in placed || id in s.queue ==> DepthAt(ScanEdge(s, e).depths, id) == DepthAt(s.depths, id)
    ensures DepthAt(ScanEdge(s, e).depths, id)
         == if id == e.destination then MaxNat(DepthAt(s.depths, id), DepthAt(s.depths, e.source) + 1) else DepthAt(s.depths, id)
  {
    ScanEdgeCounted(n, s, placed, e, rest);
  }

  ghost predicate Attained(n: Network, depths: map<LotId, nat>, placed: set<LotId>, d: LotId) {
    exists e :: e in n.edges && e.destination == d && e.source in placed && DepthAt(depths, e.source) + 1 == DepthAt(depths, d)
  }

  lemma ScanEdgeAttained(n: Network, s: Scan, placed: set<LotId>, e: Edge, rest: seq<Edge>, d: LotId)
    requires ValidNetwork(n) && e in n.edges && e.source in placed && Counted(n, s, placed, [e] + rest)
    requires DepthAt(s.depths, d) > 0 ==> Attained(n, s.depths, placed, d)
    requires DepthAt(ScanEdge(s, e).depths, d) > 0
    ensures Attained(n, ScanEdge(s, e).depths, placed, d)
  {
    var depths := ScanEdge(s, e).depths;
    ScanEdgeDepth(n, s, placed, e, rest, d);
    if DepthAt(depths, d) == DepthAt(s.depths, d) {
      var e' :| e' in n.edges && e'.destination == d && e'.source in placed && DepthAt(s.depths, e'.source) + 1 == DepthAt(s.depths, d);
      ScanEdgeDepth(n, s, placed, e, rest, e'.source);
    } else {
      ScanEdgeDepth(n, s, placed, e, rest, e.source);
    }
  }

  lemma ScanEdgeBelow(n: Network, s: Scan, placed: set<LotId>, e: Edge, rest: seq<Edge>, e': Edge)
    requires ValidNetwork(n) && e in n.edges && e.source in placed && Counted(n, s, placed, [e] + rest)
    requires e'.source in placed
    requires e' != e ==> DepthAt(s.depths, e'.source) + 1 <= DepthAt(s.depths, e'.destination)
    ensures DepthAt(ScanEdge(s, e).depths, e'.source) + 1 <= DepthAt(ScanEdge(s, e).depths, e'.destination)
  {
    ScanEdgeDepth(n, s, placed, e, rest, e'.source);
    ScanEdgeDepth(n, s, placed, e, rest, e'.destination);
  }

  lemma ScanEdgeDepths(n: Network, s: Scan, placed: set<LotId>, e: Edge, rest: seq<Edge>)
    requires ValidNetwork(n) && e in n.edges && e.source in placed
    requires Counted(n, s, placed, [e] + rest) && Deep(n, s, placed, [e] + rest)
    ensures Layered(n, ScanEdge(s, e).depths, placed, rest)
  {
    var depths := ScanEdge(s, e).depths;
    forall e' | e' in n.edges && e'.source in placed && e' !in rest
      ensures DepthAt(depths, e'.source) + 1 <= DepthAt(depths, e'.destination)
    {
      if e' != e { assert e' !in [e] + rest; }
      ScanEdgeBelow(n, s, placed, e, rest, e');
    }
    forall d | DepthAt(depths, d) > 0 ensures Attained(n, depths, placed, d) {
      ScanEdgeAttained(n, s, placed, e, rest, d);
    }
  }

  lemma QueuedDepth(n: Network, depths: map<LotId, nat>, placed: set<LotId>, rest: seq<Edge>, d: LotId)
    requires ValidNetwork(n) && Layered(n, depths, placed, rest) && d in depths
    requires forall e | e in n.edges && e.destination == d :: e.source in placed && e !in rest
    requires forall id | id in placed :: id in depths && IsDepth(n.edges, id, depths[id])
    ensures IsDepth(n.edges, d, depths[d])
  {
    if depths[d] > 0 {
      assert DepthAt(depths, d) > 0;
      assert Attained(n, depths, placed, d);
    }
    DepthFromInputs(n.edges, d, depths, depths[d]);
  }

  /** A lot whose last input was counted has its depth. */
  lemma LastInputGivesDepth(n: Network, t: Scan, placed: set<LotId>, rest: seq<Edge>, d: LotId)
    requires ValidNetwork(n) && Counted(n, t, placed, rest) && Layered(n, t.depths, placed, rest)
    requires d in n.quantity && d in t.depths && t.indegree[d] == 0
    requires forall id | id in placed :: id in t.depths && IsDepth(n.edges, id, t.depths[id])
    ensures IsDepth(n.edges, d, t.depths[d])
  {
    UnplacedZero(n.edges, d, placed);
    UnplacedZero(rest, d, {});
    QueuedDepth(n, t.depths, placed, rest, d);
  }

  lemma ScanEdgeGood(n: Network, s: Scan, placed: set<LotId>, e: Edge, rest: seq<Edge>)
    requires ValidNetwork(n) && e in n.edges && e.source in placed && Good(n, s, placed, [e] + rest)
    ensures Good(n, ScanEdge(s, e), placed, rest)
  {
    var t, d := ScanEdge(s, e), e.destination;
    ScanEdgeInputsFirst(n, s, placed, e, rest);
    ScanEdgeDepths(n, s, placed, e, rest);
    ScanEdgeCounted(n, s, placed, e, rest);
    if t.queue != s.queue {
      assert ValidEdge(n.quantity, e);
      LastInputGivesDepth(n, t, placed, rest, d);
    }
  }

  lemma PlaceCounted(n: Network, s: Scan, placed: set<LotId>, cur: LotId)
    requires cur !in placed && cur in s.queue && Counted(n, s, placed, [])
    ensures Counted(n, s, placed + {cur}, Out(Forward, n.edges, cur))
  {
    forall d { UnplacedPlace(n.edges, d, placed, cur); }
  }

  lemma PlaceLayered(n: Network, depths: map<LotId, nat>, placed: set<LotId>, cur: LotId)
    requires Layered(n, depths, placed, [])
    ensures Layered(n, depths, placed + {cur}, Out(Forward, n.edges, cur))
  {
    OutMembers(Forward, n.edges, cur);
    forall d | DepthAt(depths, d) > 0 ensures Attained(n, depths, placed + {cur}, d) {
      assert Attained(n, depths, placed, d);
    }
  }

  lemma PlaceGood(n: Network, s: Scan, c: nat)
    requires ValidNetwork(n) && c < |s.queue| && Good(n, s, Elements(s.queue[..c]), [])
    ensures Good(n, s, Elements(s.queue[..c + 1]), Out(Forward, n.edges, s.queue[c]))
  {
    var placed, cur := Elements(s.queue[..c]), s.queue[c];
    assert cur !in placed;
    assert Elements(s.queue[..c + 1]) == placed + {cur};
    PlaceCounted(n, s, placed, cur);
    PlaceLayered(n, s.depths, placed, cur);
  }

  // ----- the start and the end

  lemma StartGood(n: Network, indegree: map<LotId, int>, queue: seq<LotId>, depths: map<LotId, nat>)
    requires ValidNetwork(n)
    requires indegree.Keys == n.quantity.Keys && forall d | d in n.quantity :: indegree[d] == InDegree(n.edges, d)
    requires Distinct(queue) && forall d :: d in queue <==> d in n.quantity && indegree[d] == 0
    requires forall d :: d in depths <==> d in queue
    requires forall d | d in depths :: depths[d] == 0
    ensures Good(n, Scan(indegree, depths, queue), Elements(queue[..0]), [])
  {
    assert Elements(queue[..0]) == {};
    forall d | d in queue ensures IsDepth(n.edges, d, 0) && IsRoot(n.edges, d) {
      UnplacedZero(n.edges, d, {});
      RootHasDepthZero(n.edges, d);
    }
    forall j | 0 <= j < |queue| ensures InputsBefore(n.edges, queue, j) {
      assert IsRoot(n.edges, queue[j]);
    }
  }

  /** A queue that holds every lot is a topological order. */
  lemma CompleteIsAcyclic(n: Network, queue: seq<LotId>)
    requires ValidNetwork(n) && Distinct(queue) && InputsFirst(n.edges, queue)
    requires forall d :: d in queue <==> d in n.quantity
    ensures Acyclic(n)
  {
    var rank: map<LotId, nat> := map d | d in n.quantity :: Position(queue, d);
    forall e | e in n.edges ensures e.source in rank && e.destination in rank && rank[e.source] < rank[e.destination] {
      assert ValidEdge(n.quantity, e);
      var j := rank[e.destination];
      assert InputsBefore(n.edges, queue, j);
      var i :| 0 <= i < j && queue[i] == e.source;
    }
    assert Ranked(Forward, n, rank, |queue|);
  }

  function Position(queue: seq<LotId>, d: LotId): (i: nat)
    requires Distinct(queue) && d in queue
    ensures i < |queue| && queue[i] == d
  {
    if queue[|queue| - 1] == d then |queue| - 1 else Position(queue[..|queue| - 1], d)
  }

  /** Lots that each have an input among themselves lie on a cycle. */
  ghost predicate Stuck(edges: seq<Edge>, left: set<LotId>) {
    forall d {:trigger FedFrom(edges, left, d)} | d in left :: FedFrom(edges, left, d)
  }

  ghost predicate FedFrom(edges: seq<Edge>, left: set<LotId>, d: LotId) {
    exists e :: e in edges && e.destination == d && e.source in left
  }

  lemma {:induction false} DistinctBound(s: seq<LotId>, ids: set<LotId>)
    requires Distinct(s) && forall d | d in s :: d in ids
    ensures |s| <= |ids|
  {
    if s != [] {
      var last := s[|s| - 1];
      DistinctBound(s[..|s| - 1], ids - {last});
    }
  }

  /** `lots` are the distinct stations of the walk `p` from the first to the last of them. */
  ghost predicate Stations(edges: seq<Edge>, lots: seq<LotId>, p: seq<Edge>) {
    && |lots| == |p| + 1 && Distinct(lots)
    && forall i | 0 <= i < |p| :: p[i] in edges && p[i].source == lots[i] && p[i].destination == lots[i + 1]
  }

  lemma {:induction false} StationsWalk(edges: seq<Edge>, lots: seq<LotId>, p: seq<Edge>, j: nat)
    requires Stations(edges, lots, p) && j <= |p|
    ensures Walk(Forward, edges, lots[0], p[..j], lots[j])
  {
    if j > 0 {
      StationsWalk(edges, lots, p, j - 1);
      assert p[..j][..j - 1] == p[..j - 1];
    }
  }

  lemma CloseCycle(edges: seq<Edge>, lots: seq<LotId>, p: seq<Edge>, e: Edge, j: nat)
    requires Stations(edges, lots, p) && j < |lots|
    requires e in edges && e.destination == lots[0] && e.source == lots[j]
    ensures HasCycle(edges)
  {
    StationsWalk(edges, lots, p, j);
    ConsWalk(Forward, edges, e.source, e, p[..j], lots[j]);
    assert [e] + p[..j] != [] && Walk(Forward, edges, e.source, [e] + p[..j], e.source);
  }

  lemma ExtendStations(edges: seq<Edge>, lots: seq<LotId>, p: seq<Edge>, e: Edge)
    requires Stations(edges, lots, p) && e in edges && e.destination == lots[0] && e.source !in lots
    ensures Stations(edges, [e.source] + lots, [e] + p)
  {
    var lots', p' := [e.source] + lots, [e] + p;
    forall i | 0 <= i < |p'| ensures p'[i] in edges && p'[i].source == lots'[i] && p'[i].destination == lots'[i + 1] {
      if i > 0 { assert p'[i] == p[i - 1]; }
    }
  }

  lemma StepBack(edges: seq<Edge>, left: set<LotId>, d: LotId) returns (e: Edge)
    requires Stuck(edges, left) && d in left
    ensures e in edges && e.destination == d && e.source in left
  {
    assert FedFrom(edges, left, d);
    e :| e in edges && e.destination == d && e.source in left;
  }

  lemma LongerStations(lots: seq<LotId>, a: LotId, left: set<LotId>)
    requires Distinct([a] + lots) && a in left && forall d | d in lots :: d in left
    ensures |lots| < |left|
    ensures forall d | d in [a] + lots :: d in left
  {
    DistinctBound([a] + lots, left);
  }

  lemma {:induction false} StuckHasCycle(edges: seq<Edge>, left: set<LotId>, lots: seq<LotId>, p: seq<Edge>)
    requires Stuck(edges, left) && Stations(edges, lots, p) && forall d | d in lots :: d in left
    ensures HasCycle(edges)
    decreases |left| - |lots|
  {
    assert lots[0] in lots;
    var e := StepBack(edges, left, lots[0]);
    if e.source in lots {
      var j :| 0 <= j < |lots| && lots[j] == e.source;
      CloseCycle(edges, lots, p, e, j);
    } else {
      ExtendStations(edges, lots, p, e);
      LongerStations(lots, e.source, left);
      StuckHasCycle(edges, left, [e.source] + lots, [e] + p);
    }
  }

  /** A lot that still waits for an input has one outside the placed lots. */
  lemma {:induction false} MissingInput(edges: seq<Edge>, d: LotId, placed: set<LotId>) returns (e: Edge)
    requires Unplaced(edges, d, placed) != 0
    ensures e in edges && e.destination == d && e.source !in placed
  {
    e := edges[|edges| - 1];
    if e.destination != d || e.source in placed {
      e := MissingInput(edges[..|edges| - 1], d, placed);
    }
  }

  /** If the queue runs dry before every lot was placed, there is a cycle. */
  lemma IncompleteHasCycle(n: Network, s: Scan)
    requires ValidNetwork(n) && Counted(n, s, Elements(s.queue), [])
    requires exists d :: d in n.quantity && d !in s.queue
    ensures HasCycle(n.edges)
  {
    var left := n.quantity.Keys - Elements(s.queue);
    forall d | d in left ensures FedFrom(n.edges, left, d) {
      var e := MissingInput(n.edges, d, Elements(s.queue));
      assert ValidEdge(n.quantity, e);
    }
    var d :| d in n.quantity && d !in s.queue;
    assert Stations(n.edges, [d], []);
    StuckHasCycle(n.edges, left, [d], []);
  }
}
