/** Why the work-list ends: each increment uses up room, or moves on along an acyclic graph. */
module RecallTermination {
  import opened Sums
  import opened TraceGraphs
  import opened Worklists
  import opened WorklistInvariants

  ghost function QueueLength(n: Network, dir: Direction, eps: real, start: Work): nat -> nat
    requires ValidNetwork(n)
  {
    (k: nat) => |Run(n, dir, eps, start, k).queue|
  }

  /** A growing count that begins above the diagonal and ends below it meets it. */
  lemma {:induction false} MeetsDiagonal(f: nat -> nat, j: nat, bound: nat) returns (k: nat)
    requires forall x, y :: x <= y ==> f(x) <= f(y)
    requires j <= bound && j <= f(j) && f(bound) <= bound
    ensures j <= k <= bound && f(k) == k
    decreases bound - j
  {
    if f(j) == j {
      k := j;
    } else {
      assert f(j) <= f(j + 1) && f(j) <= f(bound);
      k := MeetsDiagonal(f, j + 1, bound);
    }
  }

  /** If the queue never outgrows `bound`, the run finishes within `bound` items. */
  lemma BoundedRunFinishes(n: Network, dir: Direction, eps: real, start: Work, bound: nat) returns (k: nat)
    requires ValidNetwork(n) && |Run(n, dir, eps, start, bound).queue| <= bound
    ensures k <= bound && Finished(n, dir, eps, start, k)
  {
    var f := QueueLength(n, dir, eps, start);
    forall x: nat, y: nat | x <= y ensures f(x) <= f(y) { RunGrows(n, dir, eps, start, x, y); }
    k := MeetsDiagonal(f, 0, bound);
  }

  // ----- with a cut-off, on any graph

  function RoomOf(n: Network, w: Work): LotId -> real {
    (id: LotId) => Max(0.0, QuantityOf(n, id) - AmountAt(w.amount, id))
  }

  /** Everything the listed lots could still take. */
  function Room(n: Network, lots: seq<LotId>, w: Work): real {
    SumOver(lots, RoomOf(n, w))
  }

  lemma {:induction false} SumDrop<T>(s: seq<T>, x: T, f: T -> real, g: T -> real, drop: real)
    requires x in s && drop >= 0.0 && g(x) <= f(x) - drop
    requires forall y | y in s :: g(y) <= f(y)
    ensures SumOver(s, g) <= SumOver(s, f) - drop
  {
    var init := s[..|s| - 1];
    if s[|s| - 1] == x {
      SumBound(init, g, f);
    } else {
      SumDrop(init, x, f, g, drop);
    }
  }

  /** `k` times the cut-off. */
  function Times(k: nat, eps: real): real {
    if k == 0 then 0.0 else Times(k - 1, eps) + eps
  }

  lemma {:induction false} TimesIsProduct(k: nat, eps: real)
    ensures Times(k, eps) == k as real * eps
  {
    if k > 0 { TimesIsProduct(k - 1, eps); }
  }

  lemma {:induction false} TimesMonotone(j: nat, k: nat, eps: real)
    requires eps > 0.0 && j < k
    ensures Times(j, eps) + eps <= Times(k, eps)
    decreases k
  {
    if j < k - 1 { TimesMonotone(j, k - 1, eps); }
  }

  /** Queue length, each entry weighed with the cut-off, plus what room is left. */
  function Outlay(n: Network, lots: seq<LotId>, eps: real, w: Work): real {
    Times(|w.queue|, eps) + Room(n, lots, w)
  }

  lemma OfferSpends(n: Network, dir: Direction, eps: real, lots: seq<LotId>, cur: Item, e: Edge, asked: real, w: Work)
    requires ValidNetwork(n) && e in n.edges && eps >= 0.0
    requires forall id | id in n.quantity :: id in lots
    ensures Outlay(n, lots, eps, Offer(n, dir, eps, cur, e, asked, w)) <= Outlay(n, lots, eps, w)
  {
    var v, target := Offer(n, dir, eps, cur, e, asked, w), Target(dir, e);
    if v != w {
      assert ValidEdge(n.quantity, e);
      SumDrop(lots, target, RoomOf(n, w), RoomOf(n, v), eps);
    }
  }

  lemma {:induction false} PushEdgesSpends(n: Network, dir: Direction, eps: real, lots: seq<LotId>, cur: Item, es: seq<Edge>, w: Work)
    requires ValidNetwork(n) && eps >= 0.0 && (forall e | e in es :: e in n.edges)
    requires forall id | id in n.quantity :: id in lots
    ensures Outlay(n, lots, eps, PushEdges(n, dir, eps, cur, es, w)) <= Outlay(n, lots, eps, w)
  {
    if es != [] {
      var init, e := es[..|es| - 1], es[|es| - 1];
      PushEdgesSpends(n, dir, eps, lots, cur, init, w);
      OfferSpends(n, dir, eps, lots, cur, e, Requested(n, dir, e, cur.delta), PushEdges(n, dir, eps, cur, init, w));
    }
  }

  lemma RunItemSpends(n: Network, dir: Direction, eps: real, lots: seq<LotId>, cur: Item, w: Work)
    requires ValidNetwork(n) && eps >= 0.0 && forall id | id in n.quantity :: id in lots
    ensures Outlay(n, lots, eps, RunItem(n, dir, eps, cur, w)) <= Outlay(n, lots, eps, w)
  {
    OutMembers(dir, n.edges, cur.lot);
    PushEdgesSpends(n, dir, eps, lots, cur, Out(dir, n.edges, cur.lot), w);
  }

  lemma {:induction false} RunSpends(n: Network, dir: Direction, eps: real, lots: seq<LotId>, start: Work, k: nat)
    requires ValidNetwork(n) && eps >= 0.0 && forall id | id in n.quantity :: id in lots
    ensures Outlay(n, lots, eps, Run(n, dir, eps, start, k)) <= Outlay(n, lots, eps, start)
  {
    if k > 0 {
      RunSpends(n, dir, eps, lots, start, k - 1);
      var w := Run(n, dir, eps, start, k - 1);
      if k - 1 < |w.queue| { RunItemSpends(n, dir, eps, lots, w.queue[k - 1], w); }
    }
  }

  /** The queue never outgrows what the room of the start pays for, cycles or not. */
  lemma QueueIsBounded(n: Network, dir: Direction, eps: real, lots: seq<LotId>, start: Work, k: nat)
    requires ValidNetwork(n) && eps >= 0.0 && forall id | id in n.quantity :: id in lots
    ensures Times(|Run(n, dir, eps, start, k).queue|, eps) <= Outlay(n, lots, eps, start)
  {
    RunSpends(n, dir, eps, lots, start, k);
    SumNonNegative(lots, RoomOf(n, Run(n, dir, eps, start, k)));
  }

  lemma CoveringMultiple(eps: real, room: real) returns (b: nat)
    requires eps > 0.0 && room >= 0.0
    ensures Times(b, eps) > room
  {
    var x := room / eps;
    b := x.Floor + 1;
    assert b as real > x && x * eps == room;
    assert b as real * eps > x * eps;
    TimesIsProduct(b, eps);
  }

  lemma StartOutlay(n: Network, lots: seq<LotId>, eps: real, w: Work)
    requires eps >= 0.0
    ensures Outlay(n, lots, eps, w) >= 0.0
  {
    SumNonNegative(lots, RoomOf(n, w));
    TimesIsProduct(|w.queue|, eps);
  }

  /** With a positive cut-off the trace ends on every graph, even one with cycles, within a number of items known beforehand. */
  lemma CutOffTerminates(n: Network, dir: Direction, eps: real, lots: seq<LotId>, start: Work) returns (k: nat)
    requires ValidNetwork(n) && eps > 0.0 && forall id | id in n.quantity :: id in lots
    ensures Finished(n, dir, eps, start, k)
    ensures k as real * eps <= Outlay(n, lots, eps, start)
  {
    StartOutlay(n, lots, eps, start);
    var bound := CoveringMultiple(eps, Outlay(n, lots, eps, start));
    var size := |Run(n, dir, eps, start, bound).queue|;
    QueueIsBounded(n, dir, eps, lots, start, bound);
    if size > bound { TimesMonotone(bound, size, eps); }
    k := BoundedRunFinishes(n, dir, eps, start, bound);
    QueueIsBounded(n, dir, eps, lots, start, k);
    TimesIsProduct(k, eps);
  }

  // ----- on an acyclic graph, with any cut-off

  /** The number of increments one increment at `lot` can lead to, itself included. */
  ghost function Weight(n: Network, dir: Direction, rank: map<LotId, nat>, top: nat, lot: LotId): nat
    requires ValidNetwork(n) && Ranked(dir, n, rank, top) && lot in n.quantity
    decreases top - rank[lot], |n.edges| + 1
  {
    OutMembers(dir, n.edges, lot);
    OutShorter(dir, n.edges, lot);
    1 + EdgesWeight(n, dir, rank, top, lot, Out(dir, n.edges, lot))
  }

  ghost function EdgesWeight(n: Network, dir: Direction, rank: map<LotId, nat>, top: nat, lot: LotId, es: seq<Edge>): nat
    requires ValidNetwork(n) && Ranked(dir, n, rank, top) && lot in n.quantity
    requires forall e | e in es :: e in n.edges && Origin(dir, e) == lot
    decreases top - rank[lot], |es|
  {
    if es == [] then 0
    else
      var e := es[|es| - 1];
      assert ValidEdge(n.quantity, e);
      EdgesWeight(n, dir, rank, top, lot, es[..|es| - 1]) + Weight(n, dir, rank, top, Target(dir, e))
  }

  lemma {:induction false} OutShorter(dir: Direction, edges: seq<Edge>, lot: LotId)
    ensures |Out(dir, edges, lot)| <= |edges|
  {
    if edges != [] { OutShorter(dir, edges[..|edges| - 1], lot); }
  }

  ghost predicate OnLots(n: Network, queue: seq<Item>) {
    forall item | item in queue :: item.lot in n.quantity
  }

  /** All the work the entries of a queue can lead to. */
  ghost function Pending(n: Network, dir: Direction, rank: map<LotId, nat>, top: nat, queue: seq<Item>): nat
    requires ValidNetwork(n) && Ranked(dir, n, rank, top) && OnLots(n, queue)
  {
    if queue == [] then 0
    else
      assert queue[|queue| - 1] in queue;
      Pending(n, dir, rank, top, queue[..|queue| - 1]) + Weight(n, dir, rank, top, queue[|queue| - 1].lot)
  }

  lemma {:induction false} PendingHead(n: Network, dir: Direction, rank: map<LotId, nat>, top: nat, queue: seq<Item>)
    requires ValidNetwork(n) && Ranked(dir, n, rank, top) && OnLots(n, queue) && queue != []
    ensures queue[0] in queue && OnLots(n, queue[1..])
    ensures Pending(n, dir, rank, top, queue) == Weight(n, dir, rank, top, queue[0].lot) + Pending(n, dir, rank, top, queue[1..])
  {
    if |queue| == 1 {
      assert queue[..0] == [] && queue[1..] == [];
    } else {
      var init := queue[..|queue| - 1];
      PendingHead(n, dir, rank, top, init);
      assert queue[1..][..|queue[1..]| - 1] == init[1..];
    }
  }

  /** One edge queues at most one item, on the lot at its end. */
  lemma OfferPending(n: Network, dir: Direction, rank: map<LotId, nat>, top: nat, eps: real, cur: Item, e: Edge, asked: real, w: Work, k: nat)
    requires ValidNetwork(n) && Ranked(dir, n, rank, top) && OnLots(n, w.queue) && k <= |w.queue| && Target(dir, e) in n.quantity
    ensures var v := Offer(n, dir, eps, cur, e, asked, w);
            && w.queue <= v.queue && OnLots(n, v.queue)
            && Pending(n, dir, rank, top, v.queue[k..])
               <= Pending(n, dir, rank, top, w.queue[k..]) + Weight(n, dir, rank, top, Target(dir, e))
  {
    var v := Offer(n, dir, eps, cur, e, asked, w);
    if v != w {
      var item := v.queue[|w.queue|];
      assert v.queue == w.queue + [item];
      assert v.queue[k..] == w.queue[k..] + [item];
      assert v.queue[k..][..|v.queue[k..]| - 1] == w.queue[k..];
    }
  }

  lemma {:induction false} PushEdgesPending(n: Network, dir: Direction, rank: map<LotId, nat>, top: nat, eps: real,
                                            cur: Item, es: seq<Edge>, w: Work, k: nat)
    requires ValidNetwork(n) && Ranked(dir, n, rank, top) && OnLots(n, w.queue) && cur.lot in n.quantity && k <= |w.queue|
    requires forall e | e in es :: e in n.edges && Origin(dir, e) == cur.lot
    ensures var v := PushEdges(n, dir, eps, cur, es, w);
            && w.queue <= v.queue && OnLots(n, v.queue)
            && Pending(n, dir, rank, top, v.queue[k..])
               <= Pending(n, dir, rank, top, w.queue[k..]) + EdgesWeight(n, dir, rank, top, cur.lot, es)
  {
    if es != [] {
      var init, e := es[..|es| - 1], es[|es| - 1];
      PushEdgesPending(n, dir, rank, top, eps, cur, init, w, k);
      assert ValidEdge(n.quantity, e);
      OfferPending(n, dir, rank, top, eps, cur, e, Requested(n, dir, e, cur.delta), PushEdges(n, dir, eps, cur, init, w), k);
    }
  }

  /** From any point of the run on, the remaining work bounds the remaining items. */
  lemma {:induction false} PendingFinishes(n: Network, dir: Direction, rank: map<LotId, nat>, top: nat, eps: real, start: Work, j: nat, fuel: nat) returns (k: nat)
    requires ValidNetwork(n) && Ranked(dir, n, rank, top)
    requires j <= |Run(n, dir, eps, start, j).queue| && OnLots(n, Run(n, dir, eps, start, j).queue)
    requires Pending(n, dir, rank, top, Run(n, dir, eps, start, j).queue[j..]) <= fuel
    ensures j <= k && Finished(n, dir, eps, start, k)
    decreases fuel
  {
    var w := Run(n, dir, eps, start, j);
    if |w.queue| == j {
      k := j;
    } else {
      var cur := w.queue[j];
      assert cur in w.queue;
      PendingHead(n, dir, rank, top, w.queue[j..]);
      OutMembers(dir, n.edges, cur.lot);
      PushEdgesPending(n, dir, rank, top, eps, cur, Out(dir, n.edges, cur.lot), w, j + 1);
      assert w.queue[j..][1..] == w.queue[j + 1..];
      k := PendingFinishes(n, dir, rank, top, eps, start, j + 1, fuel - 1);
    }
  }

  /** On an acyclic graph the trace ends whatever the cut-off, also without one. */
  lemma AcyclicTerminates(n: Network, dir: Direction, eps: real, start: Work) returns (k: nat)
    requires ValidNetwork(n) && Acyclic(n) && OnLots(n, start.queue)
    ensures Finished(n, dir, eps, start, k)
  {
    var rank, top := AcyclicRank(dir, n);
    assert start.queue[0..] == start.queue;
    k := PendingFinishes(n, dir, rank, top, eps, start, 0, Pending(n, dir, rank, top, start.queue));
  }
}
