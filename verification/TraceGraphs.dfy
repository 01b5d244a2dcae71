/**
 The lot genealogy that a trace works on: lots with positive quantities, and allocation edges
 from a source lot to a destination lot. Kilograms are reals.
 */
module TraceGraphs {
  import opened Sums

  /** Lot, edge and organization identifiers are opaque values that are only compared. */
  type LotId = nat

  datatype AllocationMethod = Declared | Estimated

  datatype Lot = Lot(id: LotId, quantityKg: real)

  datatype Edge = Edge(id: nat, source: LotId, destination: LotId, allocatedKg: real, allocation: AllocationMethod)

  datatype Distribution = Distribution(id: nat, lot: LotId, recipient: nat, quantityKg: real)

  datatype Graph = Graph(lots: seq<Lot>, edges: seq<Edge>, distributions: seq<Distribution>)

  /** The part of a checked graph that the calculations read. */
  datatype Network = Network(quantity: map<LotId, real>, edges: seq<Edge>)

  predicate Distinct<T(==)>(s: seq<T>) {
    forall i, j :: 0 <= i < j < |s| ==> s[i] != s[j]
  }

  function QuantityMap(lots: seq<Lot>): map<LotId, real> {
    if lots == [] then map[]
    else QuantityMap(lots[..|lots| - 1])[lots[|lots| - 1].id := lots[|lots| - 1].quantityKg]
  }

  function NetworkOf(g: Graph): Network {
    Network(QuantityMap(g.lots), g.edges)
  }

  ghost predicate ValidEdge(quantity: map<LotId, real>, e: Edge) {
    e.source in quantity && e.destination in quantity && e.allocatedKg > 0.0
  }

  ghost predicate DistinctLots(lots: seq<Lot>) {
    forall i, j :: 0 <= i < j < |lots| ==> lots[i].id != lots[j].id
  }

  ghost predicate DistinctEdges(edges: seq<Edge>) {
    forall i, j :: 0 <= i < j < |edges| ==> edges[i].id != edges[j].id
  }

  /** What `indexes` accepts. */
  ghost predicate ValidGraph(g: Graph) {
    && DistinctLots(g.lots)
    && (forall lot | lot in g.lots :: lot.quantityKg > 0.0)
    && DistinctEdges(g.edges)
    && forall e | e in g.edges :: ValidEdge(QuantityMap(g.lots), e)
  }

  ghost predicate ValidNetwork(n: Network) {
    && (forall id | id in n.quantity :: n.quantity[id] > 0.0)
    && forall e | e in n.edges :: ValidEdge(n.quantity, e)
  }

  lemma {:induction false} QuantityMapKeys(lots: seq<Lot>)
    ensures forall id :: id in QuantityMap(lots) <==> exists lot :: lot in lots && lot.id == id
    ensures forall id | id in QuantityMap(lots) :: Lot(id, QuantityMap(lots)[id]) in lots
  {
    if lots != [] {
      var init, last := lots[..|lots| - 1], lots[|lots| - 1];
      QuantityMapKeys(init);
      assert lots == init + [last];
      forall id ensures id in QuantityMap(lots) <==> exists lot :: lot in lots && lot.id == id {
        if id in QuantityMap(lots) && id != last.id {
          assert id in QuantityMap(init);
          var lot :| lot in init && lot.id == id;
          assert lot in lots;
        } else if id == last.id {
          assert last in lots;
        }
        if exists lot :: lot in lots && lot.id == id {
          var lot :| lot in lots && lot.id == id;
          assert lot == last || lot in init;
        }
      }
    }
  }

  lemma ValidGraphNetwork(g: Graph)
    requires ValidGraph(g)
    ensures ValidNetwork(NetworkOf(g))
  {
    QuantityMapKeys(g.lots);
  }

  function QuantityOf(n: Network, id: LotId): real {
    if id in n.quantity then n.quantity[id] else 0.0
  }

  /** A trace follows edges from source to destination (Forward) or back. */
  datatype Direction = Backward | Forward

  function Origin(dir: Direction, e: Edge): LotId {
    if dir.Forward? then e.source else e.destination
  }

  function Target(dir: Direction, e: Edge): LotId {
    if dir.Forward? then e.destination else e.source
  }

  /** The edges that leave `lot` in the direction of the trace, in their recorded order. */
  function Out(dir: Direction, edges: seq<Edge>, lot: LotId): seq<Edge> {
    if edges == [] then []
    else
      var last := edges[|edges| - 1];
      Out(dir, edges[..|edges| - 1], lot) + if Origin(dir, last) == lot then [last] else []
  }

  lemma {:induction false} OutMembers(dir: Direction, edges: seq<Edge>, lot: LotId)
    ensures forall e :: e in Out(dir, edges, lot) <==> e in edges && Origin(dir, e) == lot
  {
    if edges != [] {
      OutMembers(dir, edges[..|edges| - 1], lot);
      assert edges == edges[..|edges| - 1] + [edges[|edges| - 1]];
    }
  }

  /** Summing over the edges that leave a lot is summing over all edges with the others set to zero. */
  lemma {:induction false} SumOut(dir: Direction, edges: seq<Edge>, lot: LotId, f: Edge -> real, g: Edge -> real)
    requires forall e | e in edges :: g(e) == if Origin(dir, e) == lot then f(e) else 0.0
    ensures SumOver(Out(dir, edges, lot), f) == SumOver(edges, g)
  {
    if edges != [] {
      var init, last := edges[..|edges| - 1], edges[|edges| - 1];
      assert last in edges && forall e | e in init :: e in edges;
      SumOut(dir, init, lot, f, g);
      var kept := Out(dir, init, lot);
      if Origin(dir, last) == lot {
        SumSnoc(kept, last, f);
      } else {
        assert kept + [] == kept;
      }
    }
  }

  const Allocated: Edge -> real := (e: Edge) => e.allocatedKg

  /** All the input recorded for a lot. */
  function TotalInput(n: Network, lot: LotId): real {
    SumOver(Out(Backward, n.edges, lot), Allocated)
  }

  /** All the output of a lot that later lots consumed. */
  function TotalOutput(n: Network, lot: LotId): real {
    SumOver(Out(Forward, n.edges, lot), Allocated)
  }

  lemma TotalInputPositive(n: Network, e: Edge)
    requires ValidNetwork(n) && e in n.edges
    ensures TotalInput(n, e.destination) >= e.allocatedKg > 0.0
  {
    OutMembers(Backward, n.edges, e.destination);
    SumMember(Out(Backward, n.edges, e.destination), e, Allocated);
  }

  // ----- walks

  /** `p` is a sequence of edges that leads from `a` to `b`. */
  ghost predicate Walk(dir: Direction, edges: seq<Edge>, a: LotId, p: seq<Edge>, b: LotId) {
    if p == [] then a == b
    else
      var last := p[|p| - 1];
      last in edges && Target(dir, last) == b && Walk(dir, edges, a, p[..|p| - 1], Origin(dir, last))
  }

  ghost predicate Reaches(dir: Direction, edges: seq<Edge>, a: LotId, b: LotId) {
    exists p :: Walk(dir, edges, a, p, b)
  }

  /** A lot that is, through at least one edge, its own ancestor. */
  ghost predicate HasCycle(edges: seq<Edge>) {
    exists a, p :: p != [] && Walk(Forward, edges, a, p, a)
  }

  lemma ReachesStep(dir: Direction, edges: seq<Edge>, a: LotId, e: Edge)
    requires Reaches(dir, edges, a, Origin(dir, e)) && e in edges
    ensures Reaches(dir, edges, a, Target(dir, e))
  {
    var p :| Walk(dir, edges, a, p, Origin(dir, e));
    assert (p + [e])[..|p|] == p;
    assert Walk(dir, edges, a, p + [e], Target(dir, e));
  }

  lemma {:induction false} WalkAppend(dir: Direction, edges: seq<Edge>, a: LotId, p: seq<Edge>, b: LotId, q: seq<Edge>, c: LotId)
    requires Walk(dir, edges, a, p, b) && Walk(dir, edges, b, q, c)
    ensures Walk(dir, edges, a, p + q, c)
  {
    if q == [] {
      assert p + q == p;
    } else {
      WalkAppend(dir, edges, a, p, b, q[..|q| - 1], Origin(dir, q[|q| - 1]));
      assert (p + q)[..|p + q| - 1] == p + q[..|q| - 1];
    }
  }

  lemma {:induction false} ConsWalk(dir: Direction, edges: seq<Edge>, a: LotId, e: Edge, p: seq<Edge>, b: LotId)
    requires e in edges && Origin(dir, e) == a && Walk(dir, edges, Target(dir, e), p, b)
    ensures Walk(dir, edges, a, [e] + p, b)
  {
    if p == [] {
      assert [e] + p == [e] && [e][..0] == [];
    } else {
      ConsWalk(dir, edges, a, e, p[..|p| - 1], Origin(dir, p[|p| - 1]));
      assert ([e] + p)[..|[e] + p| - 1] == [e] + p[..|p| - 1];
    }
  }

  // ----- depths

  function DepthAt(m: map<LotId, nat>, id: LotId): nat {
    if id in m then m[id] else 0
  }

  function MaxNat(a: nat, b: nat): nat { if a <= b then b else a }

  // ----- rankings

  /** A level for every lot that strictly increases along every edge; levels stay below `top`. */
  ghost predicate Ranked(dir: Direction, n: Network, rank: map<LotId, nat>, top: nat) {
    && n.quantity.Keys <= rank.Keys
    && (forall id | id in n.quantity :: rank[id] < top)
    && forall e | e in n.edges ::
         Origin(dir, e) in rank && Target(dir, e) in rank && rank[Origin(dir, e)] < rank[Target(dir, e)]
  }

  ghost predicate Acyclic(n: Network) {
    exists rank, top :: Ranked(Forward, n, rank, top)
  }

  /** Reading the levels from the other end ranks the reversed graph. */
  lemma RankReversed(n: Network, rank: map<LotId, nat>, top: nat) returns (back: map<LotId, nat>)
    requires ValidNetwork(n) && Ranked(Forward, n, rank, top)
    ensures Ranked(Backward, n, back, top)
  {
    back := map id | id in n.quantity :: top - 1 - rank[id];
  }

  lemma AcyclicRank(dir: Direction, n: Network) returns (rank: map<LotId, nat>, top: nat)
    requires ValidNetwork(n) && Acyclic(n)
    ensures Ranked(dir, n, rank, top)
  {
    rank, top :| Ranked(Forward, n, rank, top);
    if dir.Backward? { rank := RankReversed(n, rank, top); }
  }

  /** Along a walk the level grows by at least one for each edge. */
  lemma {:induction false} WalkRank(dir: Direction, n: Network, rank: map<LotId, nat>, top: nat, a: LotId, p: seq<Edge>, b: LotId)
    requires Ranked(dir, n, rank, top) && Walk(dir, n.edges, a, p, b) && (a in rank || p != [])
    ensures a in rank && b in rank && rank[a] + |p| <= rank[b]
  {
    if p != [] {
      var last := p[|p| - 1];
      assert last in n.edges;
      WalkRank(dir, n, rank, top, a, p[..|p| - 1], Origin(dir, last));
    }
  }

  /** A ranking and a cycle exclude each other. */
  lemma AcyclicHasNoCycle(n: Network)
    requires Acyclic(n)
    ensures !HasCycle(n.edges)
  {
    var rank, top :| Ranked(Forward, n, rank, top);
    if HasCycle(n.edges) {
      var a, p :| p != [] && Walk(Forward, n.edges, a, p, a);
      WalkRank(Forward, n, rank, top, a, p, a);
      assert false;
    }
  }
}
