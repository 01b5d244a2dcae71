/**
 Loading only what a trace can touch: the lots connected to the roots, whatever the direction of the
 edges, with every edge and distribution between them. A trace on that part is the trace on the whole.
 */
module ComponentLoader {
  import opened Outcomes
  import opened Sums
  import opened TraceGraphs
  import opened TraceBudgets
  import opened Worklists
  import opened RecallChecks
  import opened RecallScope

  /** The rows of a query that asks for edges with an end in `ids`. */
  function Touching(edges: seq<Edge>, ids: set<LotId>): seq<Edge> {
    if edges == [] then []
    else
      var last := edges[|edges| - 1];
      Touching(edges[..|edges| - 1], ids) + if last.source in ids || last.destination in ids then [last] else []
  }

  function LotsIn(lots: seq<Lot>, ids: set<LotId>): seq<Lot> {
    if lots == [] then []
    else
      var last := lots[|lots| - 1];
      LotsIn(lots[..|lots| - 1], ids) + if last.id in ids then [last] else []
  }

  /** The part of the stored graph that belongs to `ids`, in stored order. */
  function Restricted(db: Graph, ids: set<LotId>): Graph {
    Graph(LotsIn(db.lots, ids), Touching(db.edges, ids), ImpactedDistributions(db.distributions, ids))
  }

  /** No edge leads out of `ids` or into it. */
  ghost predicate Closed(edges: seq<Edge>, ids: set<LotId>) {
    forall e | e in edges :: e.source in ids <==> e.destination in ids
  }

  /** The undirected closure of the roots: closed, and inside every closed set that holds them. */
  ghost predicate IsComponent(edges: seq<Edge>, roots: set<LotId>, ids: set<LotId>) {
    roots <= ids && Closed(edges, ids) && InsideAll(edges, roots, ids)
  }

  ghost predicate InsideAll(edges: seq<Edge>, roots: set<LotId>, ids: set<LotId>) {
    forall s: set<LotId> | roots <= s && Closed(edges, s) :: ids <= s
  }

  lemma {:induction false} TouchingMembers(edges: seq<Edge>, ids: set<LotId>)
    ensures forall e :: e in Touching(edges, ids) <==> e in edges && (e.source in ids || e.destination in ids)
  {
    if edges != [] {
      TouchingMembers(edges[..|edges| - 1], ids);
      assert edges == edges[..|edges| - 1] + [edges[|edges| - 1]];
    }
  }

  /** The lots of `s` and the queue of those whose edges are still to be asked for. */
  ghost predicate Spreading(edges: seq<Edge>, roots: set<LotId>, known: set<LotId>, frontier: seq<LotId>) {
    && roots <= known && (forall id | id in frontier :: id in known)
    && InsideAll(edges, roots, known)
    && forall e | e in edges :: Settled(e, known, frontier)
  }

  /** Both ends are known, unless the edge only touches lots that have not been asked for. */
  predicate Settled(e: Edge, known: set<LotId>, frontier: seq<LotId>) {
    var asked := (e.source in known && e.source !in frontier) || (e.destination in known && e.destination !in frontier);
    asked ==> e.source in known && e.destination in known
  }

  lemma SpreadTo(edges: seq<Edge>, roots: set<LotId>, known: set<LotId>, e: Edge, id: LotId)
    requires InsideAll(edges, roots, known) && e in edges && (e.source in known || e.destination in known)
    requires id == e.source || id == e.destination
    ensures InsideAll(edges, roots, known + {id})
  {
  }

  function Ends(edges: seq<Edge>): set<LotId> {
    if edges == [] then {}
    else
      var last := edges[|edges| - 1];
      Ends(edges[..|edges| - 1]) + {last.source, last.destination}
  }

  function IdsOf(edges: seq<Edge>): set<nat> {
    if edges == [] then {} else IdsOf(edges[..|edges| - 1]) + {edges[|edges| - 1].id}
  }

  lemma {:induction false} EndsMembers(edges: seq<Edge>)
    ensures forall e | e in edges :: e.source in Ends(edges) && e.destination in Ends(edges)
    ensures forall id | id in Ends(edges) :: exists e :: e in edges && (id == e.source || id == e.destination)
  {
    if edges != [] {
      EndsMembers(edges[..|edges| - 1]);
      assert edges == edges[..|edges| - 1] + [edges[|edges| - 1]];
    }
  }

  /** The lots at most `k` edges away from the roots, whatever the direction of the edges. */
  function Ball(edges: seq<Edge>, roots: set<LotId>, k: nat): set<LotId> {
    if k == 0 then roots
    else
      var inner := Ball(edges, roots, k - 1);
      inner + Ends(Touching(edges, inner))
  }

  // ----- larger parts have more of everything

  lemma {:induction false} MoreLots(lots: seq<Lot>, ids: set<LotId>, more: set<LotId>)
    requires ids <= more
    ensures |LotsIn(lots, ids)| <= |LotsIn(lots, more)|
  {
    if lots != [] { MoreLots(lots[..|lots| - 1], ids, more); }
  }

  lemma {:induction false} MoreEdges(edges: seq<Edge>, ids: set<LotId>, more: set<LotId>)
    requires ids <= more
    ensures |Touching(edges, ids)| <= |Touching(edges, more)|
    ensures IdsOf(Touching(edges, ids)) <= IdsOf(Touching(edges, more))
  {
    if edges != [] {
      var init, last := edges[..|edges| - 1], edges[|edges| - 1];
      MoreEdges(init, ids, more);
      IdsSnoc(Touching(init, ids), last);
      IdsSnoc(Touching(init, more), last);
      assert Touching(init, ids) + [] == Touching(init, ids) && Touching(init, more) + [] == Touching(init, more);
    }
  }

  lemma IdsSnoc(edges: seq<Edge>, e: Edge)
    ensures IdsOf(edges + [e]) == IdsOf(edges) + {e.id}
  {
    assert (edges + [e])[..|edges|] == edges;
  }

  lemma {:induction false} FewIds(edges: seq<Edge>)
    ensures |IdsOf(edges)| <= |edges|
  {
    if edges != [] { FewIds(edges[..|edges| - 1]); }
  }

  lemma {:induction false} MoreDistributions(items: seq<Distribution>, ids: set<LotId>, more: set<LotId>)
    requires ids <= more
    ensures |ImpactedDistributions(items, ids)| <= |ImpactedDistributions(items, more)|
  {
    if items != [] { MoreDistributions(items[..|items| - 1], ids, more); }
  }

  // ----- why loading may end without a result

  /** What the loader says of the part connected to the roots it says of every part that holds them and is closed. */
  ghost predicate TooLarge(db: Graph, roots: set<LotId>, reason: Reason) {
    match reason
    case LotsLimit =>
      forall ids: set<LotId> | roots <= ids && Closed(db.edges, ids) :: |ids| > MAX_LOTS || |LotsIn(db.lots, ids)| > MAX_LOTS
    case EdgesLimit => forall ids: set<LotId> | roots <= ids && Closed(db.edges, ids) :: |Touching(db.edges, ids)| > MAX_EDGES
    case DistributionsLimit =>
      forall ids: set<LotId> | roots <= ids && Closed(db.edges, ids) :: |ImpactedDistributions(db.distributions, ids)| > MAX_DISTRIBUTIONS
    case DepthLimit => !(Ball(db.edges, roots, MAX_DEPTH + 1) <= Ball(db.edges, roots, MAX_DEPTH))
    case WorkLimit | TimeLimit => true
    case _ => false
  }

  lemma TooManyEdges(db: Graph, roots: set<LotId>, known: set<LotId>, ids: set<nat>)
    requires InsideAll(db.edges, roots, known)
    requires |Touching(db.edges, known)| > MAX_EDGES || (ids <= IdsOf(Touching(db.edges, known)) && |ids| > MAX_EDGES)
    ensures TooLarge(db, roots, EdgesLimit)
  {
    forall part: set<LotId> | roots <= part && Closed(db.edges, part) ensures |Touching(db.edges, part)| > MAX_EDGES {
      MoreEdges(db.edges, known, part);
      FewIds(Touching(db.edges, part));
      if ids <= IdsOf(Touching(db.edges, known)) { SubsetSize(ids, IdsOf(Touching(db.edges, part))); }
    }
  }

  lemma {:induction false} SubsetSize<T>(s: set<T>, t: set<T>)
    requires s <= t
    ensures |s| <= |t|
  {
    if s != {} {
      var x :| x in s;
      SubsetSize(s - {x}, t - {x});
    }
  }

  lemma TooManyLots(db: Graph, roots: set<LotId>, known: set<LotId>)
    requires InsideAll(db.edges, roots, known) && (|known| > MAX_LOTS || |LotsIn(db.lots, known)| > MAX_LOTS)
    ensures TooLarge(db, roots, LotsLimit)
  {
    forall part: set<LotId> | roots <= part && Closed(db.edges, part) ensures |part| > MAX_LOTS || |LotsIn(db.lots, part)| > MAX_LOTS {
      SubsetSize(known, part);
      MoreLots(db.lots, known, part);
    }
  }

  lemma TooManyDistributions(db: Graph, roots: set<LotId>, known: set<LotId>)
    requires InsideAll(db.edges, roots, known) && |ImpactedDistributions(db.distributions, known)| > MAX_DISTRIBUTIONS
    ensures TooLarge(db, roots, DistributionsLimit)
  {
    forall part: set<LotId> | roots <= part && Closed(db.edges, part)
      ensures |ImpactedDistributions(db.distributions, part)| > MAX_DISTRIBUTIONS
    {
      MoreDistributions(db.distributions, known, part);
    }
  }

  // ----- the frontier loop

  /** Learns one end of a row; `full` if there are too many lots now. */
  method Note(ghost db: Graph, ghost roots: set<LotId>, ghost row: Edge, id: LotId, known: set<LotId>, next: seq<LotId>)
    returns (known': set<LotId>, next': seq<LotId>, full: bool)
    requires InsideAll(db.edges, roots, known) && row in db.edges && (row.source in known || row.destination in known)
    requires id == row.source || id == row.destination
    ensures known' == known + {id} && InsideAll(db.edges, roots, known')
    ensures next' == if id in known then next else next + [id]
    ensures full ==> TooLarge(db, roots, LotsLimit)
  {
    known', next' := known, next;
    if id !in known { known', next' := known + {id}, next + [id]; }
    SpreadTo(db.edges, roots, known, row, id);
    full := |known'| > MAX_LOTS;
    if full { TooManyLots(db, roots, known'); }
  }

  lemma EndsSnoc(rows: seq<Edge>, i: nat)
    requires i < |rows|
    ensures Ends(rows[..i + 1]) == Ends(rows[..i]) + {rows[i].source, rows[i].destination}
    ensures IdsOf(rows[..i + 1]) == IdsOf(rows[..i]) + {rows[i].id}
  {
    assert rows[..i + 1][..i] == rows[..i];
  }

  lemma {:induction false} PrefixIds(rows: seq<Edge>, i: nat)
    requires i <= |rows|
    ensures IdsOf(rows[..i]) <= IdsOf(rows)
    decreases |rows| - i
  {
    if i < |rows| {
      PrefixIds(rows, i + 1);
      EndsSnoc(rows, i);
    } else {
      assert rows[..i] == rows;
    }
  }

  /** Learns both ends of a row. */
  method NoteEnds(ghost db: Graph, ghost roots: set<LotId>, row: Edge, known: set<LotId>, next: seq<LotId>)
    returns (known': set<LotId>, next': seq<LotId>, full: bool)
    requires InsideAll(db.edges, roots, known) && row in db.edges && (row.source in known || row.destination in known)
    ensures full ==> TooLarge(db, roots, LotsLimit)
    ensures !full ==> known' == known + {row.source, row.destination} && InsideAll(db.edges, roots, known')
    ensures !full ==> forall id :: id in next' <==> id in next || (id in known' && id !in known)
  {
    known', next', full := Note(db, roots, row, row.source, known, next);
    if full { return; }
    known', next', full := Note(db, roots, row, row.destination, known', next');
  }

  lemma AnotherId(db: Graph, roots: set<LotId>, rows: seq<Edge>, known: set<LotId>, edgeIds: set<nat>, i: nat)
    requires InsideAll(db.edges, roots, known) && edgeIds + IdsOf(rows) <= IdsOf(Touching(db.edges, known)) && i < |rows|
    ensures |edgeIds + IdsOf(rows[..i]) + {rows[i].id}| > MAX_EDGES ==> TooLarge(db, roots, EdgesLimit)
  {
    var ids := edgeIds + IdsOf(rows[..i]) + {rows[i].id};
    EndsSnoc(rows, i);
    PrefixIds(rows, i + 1);
    if |ids| > MAX_EDGES { TooManyEdges(db, roots, known, ids); }
  }

  lemma RowAbsorbed(rows: seq<Edge>, known: set<LotId>, edgeIds: set<nat>, i: nat, was: set<LotId>, later: seq<LotId>,
                    seen: set<LotId>, next: seq<LotId>, ids: set<nat>)
    requires i < |rows| && was == known + Ends(rows[..i]) && ids == edgeIds + IdsOf(rows[..i]) + {rows[i].id}
    requires seen == was + {rows[i].source, rows[i].destination}
    requires forall id :: id in later <==> id in was && id !in known
    requires forall id :: id in next <==> id in later || (id in seen && id !in was)
    ensures seen == known + Ends(rows[..i + 1]) && ids == edgeIds + IdsOf(rows[..i + 1])
    ensures forall id :: id in next <==> id in seen && id !in known
  {
    EndsSnoc(rows, i);
  }

  /** Learns the ends of the rows that touch the frontier. */
  method Absorb(ghost db: Graph, ghost roots: set<LotId>, rows: seq<Edge>, known: set<LotId>, edgeIds: set<nat>, budget: TraceBudget)
    returns (r: Result<set<LotId>, Reason>, edgeIds': set<nat>, next: seq<LotId>)
    requires InsideAll(db.edges, roots, known)
    requires forall e | e in rows :: e in db.edges && (e.source in known || e.destination in known)
    requires edgeIds + IdsOf(rows) <= IdsOf(Touching(db.edges, known))
    modifies budget
    ensures budget.work >= old(budget.work)
    ensures r.Ok? ==> InsideAll(db.edges, roots, r.value) && r.value == known + Ends(rows) && edgeIds' == edgeIds + IdsOf(rows)
    ensures r.Ok? ==> forall id :: id in next <==> id in r.value && id !in known
    ensures r.Err? ==> r.error in {LotsLimit, EdgesLimit, WorkLimit, TimeLimit} && TooLarge(db, roots, r.error) && budget.Broke(r.error)
  {
    var seen, full := known, false;
    edgeIds', next := edgeIds, [];
    for i := 0 to |rows|
      invariant budget.work >= old(budget.work)
      invariant InsideAll(db.edges, roots, seen) && seen == known + Ends(rows[..i]) && edgeIds' == edgeIds + IdsOf(rows[..i])
      invariant forall id :: id in next <==> id in seen && id !in known
    {
      var row := rows[i];
      assert row in rows;
      var stop := budget.Step(1, 0);
      if stop.Some? { return Err(stop.value), edgeIds', next; }
      AnotherId(db, roots, rows, known, edgeIds, i);
      edgeIds' := edgeIds' + {row.id};
      if |edgeIds'| > MAX_EDGES { return Err(EdgesLimit), edgeIds', next; }
      ghost var was, ids, later := seen, edgeIds', next;
      seen, next, full := NoteEnds(db, roots, row, seen, next);
      if full { return Err(LotsLimit), edgeIds', next; }
      RowAbsorbed(rows, known, edgeIds, i, was, later, seen, next, ids);
    }
    assert rows[..|rows|] == rows;
    r := Ok(seen);
  }

  lemma SpreadOn(edges: seq<Edge>, roots: set<LotId>, known: set<LotId>, frontier: seq<LotId>, known': set<LotId>, next: seq<LotId>)
    requires Spreading(edges, roots, known, frontier) && InsideAll(edges, roots, known')
    requires known' == known + Ends(Touching(edges, RootSet(frontier)))
    requires forall id :: id in next <==> id in known' && id !in known
    ensures Spreading(edges, roots, known', next)
  {
    TouchingMembers(edges, RootSet(frontier));
    EndsMembers(Touching(edges, RootSet(frontier)));
    forall e | e in edges ensures Settled(e, known', next) {
      assert Settled(e, known, frontier);
      assert e.source in frontier || e.destination in frontier ==> e in Touching(edges, RootSet(frontier));
    }
  }

  /** Asking only for the edges of the frontier misses nothing. */
  lemma FrontierSuffices(edges: seq<Edge>, roots: set<LotId>, known: set<LotId>, frontier: seq<LotId>, k: nat)
    requires Spreading(edges, roots, known, frontier) && known == Ball(edges, roots, k)
    ensures known + Ends(Touching(edges, RootSet(frontier))) == Ball(edges, roots, k + 1)
  {
    var asked, all := Touching(edges, RootSet(frontier)), Touching(edges, known);
    TouchingMembers(edges, RootSet(frontier));
    TouchingMembers(edges, known);
    EndsMembers(asked);
    EndsMembers(all);
    forall id | id in Ends(all) ensures id in known + Ends(asked) {
      var e :| e in all && (id == e.source || id == e.destination);
      assert Settled(e, known, frontier);
      assert e.source in frontier || e.destination in frontier ==> e in asked;
    }
    forall id | id in Ends(asked) ensures id in Ends(all) {
      var e :| e in asked && (id == e.source || id == e.destination);
      assert e in all;
    }
  }

  lemma DryFrontierIsComponent(edges: seq<Edge>, roots: set<LotId>, known: set<LotId>)
    requires Spreading(edges, roots, known, [])
    ensures IsComponent(edges, roots, known)
  {
    forall e | e in edges ensures e.source in known <==> e.destination in known {
      assert Settled(e, known, []);
    }
  }

  /** A query counts as work before and after it runs. */
  method Execute(budget: TraceBudget) returns (stop: Option<Reason>)
    modifies budget
    ensures budget.work >= old(budget.work)
    ensures stop.Some? ==> stop.value in {WorkLimit, TimeLimit} && budget.Broke(stop.value)
  {
    stop := budget.Step(1, 0);
    if stop.None? { stop := budget.Step(1, 0); }
  }

  /** The frontier is what the latest round found, at exactly `depth` edges from the roots. */
  ghost predicate AtDepth(edges: seq<Edge>, roots: set<LotId>, known: set<LotId>, frontier: seq<LotId>, depth: nat) {
    && known == Ball(edges, roots, depth)
    && (depth > 0 ==> forall id | id in frontier :: id !in Ball(edges, roots, depth - 1))
  }

  lemma TooDeep(db: Graph, roots: set<LotId>, known: set<LotId>, frontier: seq<LotId>, depth: nat)
    requires AtDepth(db.edges, roots, known, frontier, depth) && depth == MAX_DEPTH + 1
    requires frontier != [] && frontier[0] in known
    ensures TooLarge(db, roots, DepthLimit)
  {
    assert frontier[0] in frontier;
  }

  lemma AskedIds(edges: seq<Edge>, known: set<LotId>, frontier: seq<LotId>, known': set<LotId>, ids: set<nat>)
    requires RootSet(frontier) <= known <= known' && ids <= IdsOf(Touching(edges, known))
    ensures IdsOf(Touching(edges, RootSet(frontier))) <= IdsOf(Touching(edges, known))
    ensures ids + IdsOf(Touching(edges, RootSet(frontier))) <= IdsOf(Touching(edges, known'))
    ensures |Touching(edges, RootSet(frontier))| <= |Touching(edges, known)|
  {
    MoreEdges(edges, RootSet(frontier), known);
    MoreEdges(edges, known, known');
  }

  /** Where the search stands: what it knows, what it has still to ask for, and which edges it has seen. */
  ghost predicate Searching(db: Graph, roots: set<LotId>, known: set<LotId>, frontier: seq<LotId>, edgeIds: set<nat>, depth: nat) {
    && Spreading(db.edges, roots, known, frontier)
    && AtDepth(db.edges, roots, known, frontier, depth) && depth <= MAX_DEPTH + 1
    && edgeIds <= IdsOf(Touching(db.edges, known))
  }

  lemma RowsAreAsked(db: Graph, roots: set<LotId>, known: set<LotId>, frontier: seq<LotId>, edgeIds: set<nat>, depth: nat)
    requires Searching(db, roots, known, frontier, edgeIds, depth)
    ensures var rows := Touching(db.edges, RootSet(frontier));
            && (forall e | e in rows :: e in db.edges && (e.source in known || e.destination in known))
            && edgeIds + IdsOf(rows) <= IdsOf(Touching(db.edges, known))
            && |rows| <= |Touching(db.edges, known)|
            && InsideAll(db.edges, roots, known)
  {
    TouchingMembers(db.edges, RootSet(frontier));
    AskedIds(db.edges, known, frontier, known, edgeIds);
  }

  lemma SearchesOn(db: Graph, roots: set<LotId>, known: set<LotId>, frontier: seq<LotId>, edgeIds: set<nat>, depth: nat,
                   seen: set<LotId>, ids: set<nat>, next: seq<LotId>)
    requires Searching(db, roots, known, frontier, edgeIds, depth) && depth <= MAX_DEPTH && InsideAll(db.edges, roots, seen)
    requires seen == known + Ends(Touching(db.edges, RootSet(frontier))) && ids == edgeIds + IdsOf(Touching(db.edges, RootSet(frontier)))
    requires forall id :: id in next <==> id in seen && id !in known
    ensures Searching(db, roots, seen, next, ids, depth + 1)
  {
    AskedIds(db.edges, known, frontier, seen, edgeIds);
    SpreadOn(db.edges, roots, known, frontier, seen, next);
    FrontierSuffices(db.edges, roots, known, frontier, depth);
  }

  /** Asks for the edges of the frontier and learns what is new. */
  method Round(db: Graph, ghost roots: set<LotId>, known: set<LotId>, frontier: seq<LotId>, edgeIds: set<nat>, depth: nat, budget: TraceBudget)
    returns (r: Result<set<LotId>, Reason>, ids: set<nat>, next: seq<LotId>)
    requires Searching(db, roots, known, frontier, edgeIds, depth) && frontier != []
    modifies budget
    ensures budget.work > old(budget.work) && (r.Ok? ==> old(budget.work) < MAX_WORK)
    ensures r.Ok? ==> Searching(db, roots, r.value, next, ids, depth + 1)
    ensures r.Err? ==> TooLarge(db, roots, r.error) && budget.Broke(r.error)
  {
    ids, next := edgeIds, [];
    var stop := budget.Step(1, depth);
    if stop.Some? {
      if stop == Some(DepthLimit) { TooDeep(db, roots, known, frontier, depth); }
      return Err(stop.value), ids, next;
    }
    stop := Execute(budget);
    if stop.Some? { return Err(stop.value), ids, next; }
    var rows := Touching(db.edges, RootSet(frontier));
    RowsAreAsked(db, roots, known, frontier, edgeIds, depth);
    if |rows| > MAX_EDGES {
      TooManyEdges(db, roots, known, {});
      return Err(EdgesLimit), ids, next;
    }
    r, ids, next := Absorb(db, roots, rows, known, edgeIds, budget);
    if r.Ok? { SearchesOn(db, roots, known, frontier, edgeIds, depth, r.value, ids, next); }
  }

  /** The lots connected to the roots, frontier by frontier. */
  method FindComponent(db: Graph, rootIds: seq<LotId>, budget: TraceBudget) returns (r: Result<set<LotId>, Reason>)
    modifies budget
    ensures budget.work >= old(budget.work)
    ensures r.Ok? ==> IsComponent(db.edges, RootSet(rootIds), r.value)
    ensures r.Err? ==> TooLarge(db, RootSet(rootIds), r.error) && budget.Broke(r.error)
  {
    ghost var roots := RootSet(rootIds);
    var known, frontier := RootSet(rootIds), rootIds;
    var edgeIds: set<nat>, depth: nat := {}, 0;
    while frontier != []
      invariant budget.work >= old(budget.work)
      invariant Searching(db, roots, known, frontier, edgeIds, depth)
      decreases MAX_WORK - budget.work
    {
      var seen, ids, next := Round(db, roots, known, frontier, edgeIds, depth, budget);
      if seen.Err? { return Err(seen.error); }
      depth := depth + 1;
      known, edgeIds, frontier := seen.value, ids, next;
    }
    DryFrontierIsComponent(db.edges, roots, known);
    r := Ok(known);
  }

  function RootSet(ids: seq<LotId>): set<LotId> {
    set id | id in ids
  }

  /** Why the graph asked for is not loaded. */
  ghost predicate NotLoaded(db: Graph, roots: Option<seq<LotId>>, reason: Reason) {
    match roots
    case Some(ids) => if reason == SeedsLimit then |ids| > MAX_SEEDS else TooLarge(db, RootSet(ids), reason)
    case None =>
      match reason
      case LotsLimit => |db.lots| > MAX_LOTS
      case EdgesLimit => |db.edges| > MAX_EDGES
      case DistributionsLimit => |db.distributions| > MAX_DISTRIBUTIONS
      case WorkLimit | TimeLimit => true
      case _ => false
  }

  /** What is loaded: the stored graph, or the part of it connected to the roots. */
  ghost predicate IsLoaded(db: Graph, roots: Option<seq<LotId>>, g: Graph) {
    match roots
    case None => g == db
    case Some(rootIds) => |rootIds| <= MAX_SEEDS && exists ids :: IsComponent(db.edges, RootSet(rootIds), ids) && g == Restricted(db, ids)
  }

  lemma SizeNotLoaded(db: Graph, roots: Option<seq<LotId>>, g: Graph)
    requires IsLoaded(db, roots, g)
    ensures |g.lots| > MAX_LOTS ==> NotLoaded(db, roots, LotsLimit)
    ensures |g.edges| > MAX_EDGES ==> NotLoaded(db, roots, EdgesLimit)
    ensures |g.distributions| > MAX_DISTRIBUTIONS ==> NotLoaded(db, roots, DistributionsLimit)
  {
    if roots.Some? {
      var ids :| IsComponent(db.edges, RootSet(roots.value), ids) && g == Restricted(db, ids);
      if |g.lots| > MAX_LOTS { TooManyLots(db, RootSet(roots.value), ids); }
      if |g.edges| > MAX_EDGES { TooManyEdges(db, RootSet(roots.value), ids, {}); }
      if |g.distributions| > MAX_DISTRIBUTIONS { TooManyDistributions(db, RootSet(roots.value), ids); }
    }
  }

  /** The stored graph, or with roots the part of it connected to them, unless it is too large. */
  method LoadTraceGraph(db: Graph, roots: Option<seq<LotId>>, budget: TraceBudget) returns (r: Result<Graph, Reason>)
    modifies budget
    ensures r.Ok? ==> WithinSizes(r.value) && IsLoaded(db, roots, r.value)
    ensures r.Err? ==> NotLoaded(db, roots, r.error) && budget.Broke(r.error)
  {
    r := Ok(db);
    if roots.Some? {
      if |roots.value| > MAX_SEEDS { return Err(SeedsLimit); }
      var ids := FindComponent(db, roots.value, budget);
      if ids.Err? { return Err(ids.error); }
      r := Ok(Restricted(db, ids.value));
    }
    for i := 0 to 3
      invariant r.Ok? && IsLoaded(db, roots, r.value)
    {
      var stop := Execute(budget);
      if stop.Some? { return Err(stop.value); }
    }
    SizeNotLoaded(db, roots, r.value);
    if |r.value.lots| > MAX_LOTS { return Err(LotsLimit); }
    if |r.value.edges| > MAX_EDGES { return Err(EdgesLimit); }
    if |r.value.distributions| > MAX_DISTRIBUTIONS { return Err(DistributionsLimit); }
    var stop := budget.Step(1, 0);
    if stop.Some? { return Err(stop.value); }
  }
}
