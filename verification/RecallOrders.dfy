/**
 The order in which the work-list is worked off does not matter: take any queued item that has not been
 processed yet, and its edges in any order, and the amounts come out the same.
 */
module RecallOrders {
  import opened Sums
  import opened TraceGraphs
  import opened Worklists
  import opened WorklistInvariants
  import opened RecallEquations

  /** An item to process next, and the order in which to go through the edges of its lot. */
  datatype Pick = Pick(item: Item, edges: seq<Edge>)

  function Items(picks: seq<Pick>): seq<Item> {
    if picks == [] then [] else Items(picks[..|picks| - 1]) + [picks[|picks| - 1].item]
  }

  ghost predicate OwnEdges(n: Network, dir: Direction, pick: Pick) {
    multiset(pick.edges) == multiset(Out(dir, n.edges, pick.item.lot))
  }

  lemma OwnEdgesMembers(n: Network, dir: Direction, pick: Pick)
    requires OwnEdges(n, dir, pick)
    ensures forall e | e in pick.edges :: e in n.edges && Origin(dir, e) == pick.item.lot
  {
    OutMembers(dir, n.edges, pick.item.lot);
    forall e | e in pick.edges ensures e in Out(dir, n.edges, pick.item.lot) {
      assert e in multiset(pick.edges);
    }
  }

  /** The state after the picks, taken in turn. */
  ghost function RunPicks(n: Network, dir: Direction, eps: real, start: Work, picks: seq<Pick>): Work
    requires ValidNetwork(n) && forall pick | pick in picks :: OwnEdges(n, dir, pick)
  {
    if picks == [] then start
    else
      var last := picks[|picks| - 1];
      OwnEdgesMembers(n, dir, last);
      PushEdges(n, dir, eps, last.item, last.edges, RunPicks(n, dir, eps, start, picks[..|picks| - 1]))
  }

  /** Every pick is an item that is queued by then and has not been processed as often as it is queued. */
  ghost predicate Picked(n: Network, dir: Direction, eps: real, start: Work, picks: seq<Pick>)
    requires ValidNetwork(n)
  {
    && (forall pick | pick in picks :: OwnEdges(n, dir, pick))
    && (picks != [] ==>
          && Picked(n, dir, eps, start, picks[..|picks| - 1])
          && multiset(Items(picks)) <= multiset(RunPicks(n, dir, eps, start, picks[..|picks| - 1]).queue))
  }

  /** Nothing is left to pick. */
  ghost predicate UsedUp(n: Network, dir: Direction, eps: real, start: Work, picks: seq<Pick>)
    requires ValidNetwork(n) && Picked(n, dir, eps, start, picks)
  {
    multiset(Items(picks)) == multiset(RunPicks(n, dir, eps, start, picks).queue)
  }

  lemma {:induction false} PicksConsistent(n: Network, dir: Direction, eps: real, start: Work, picks: seq<Pick>)
    requires ValidNetwork(n) && eps >= 0.0 && Consistent(n, start) && forall pick | pick in picks :: OwnEdges(n, dir, pick)
    ensures Consistent(n, RunPicks(n, dir, eps, start, picks))
  {
    if picks != [] {
      var init, last := picks[..|picks| - 1], picks[|picks| - 1];
      PicksConsistent(n, dir, eps, start, init);
      assert last in picks;
      OwnEdgesMembers(n, dir, last);
      PushEdgesConsistent(n, dir, eps, last.item, last.edges, RunPicks(n, dir, eps, start, init));
    }
  }

  /** The next pick is an increment of the queue, so it is positive. */
  lemma PickedIsQueued(n: Network, dir: Direction, eps: real, start: Work, picks: seq<Pick>, w: Work)
    requires ValidNetwork(n) && eps >= 0.0 && Consistent(n, start) && picks != [] && Picked(n, dir, eps, start, picks)
    requires w == RunPicks(n, dir, eps, start, picks[..|picks| - 1])
    ensures picks[|picks| - 1].item.delta > 0.0
  {
    var item := picks[|picks| - 1].item;
    PicksConsistent(n, dir, eps, start, picks[..|picks| - 1]);
    assert item in multiset(Items(picks));
    assert item in w.queue;
  }

  /** One more pick passes on exactly what its edges ask for, in whatever order. */
  lemma PickBalanced(n: Network, dir: Direction, eps: real, seeds: seq<Seed>, w: Work, done: seq<Item>, pick: Pick, d: LotId)
    requires ValidNetwork(n) && d in n.quantity && eps >= 0.0 && pick.item.delta > 0.0 && OwnEdges(n, dir, pick)
    requires forall e | e in pick.edges :: e in n.edges && Origin(dir, e) == pick.item.lot
    requires Balanced(n, eps, w, d, Supply(n, dir, seeds, done, d))
    ensures Balanced(n, eps, PushEdges(n, dir, eps, pick.item, pick.edges, w), d, Supply(n, dir, seeds, done + [pick.item], d))
  {
    var f := PushOf(n, dir, Effective(n, pick.item), d);
    var queue := done + [pick.item];
    PushEdgesBalanced(n, dir, eps, pick.item, pick.edges, w, d, Supply(n, dir, seeds, done, d), f);
    InflowStep(n, dir, queue, |done|, d);
    assert queue[..|done|] == done && queue[..|done| + 1] == queue;
    SumPermutation(pick.edges, Out(dir, n.edges, pick.item.lot), f);
  }

  lemma {:induction false} PicksBalanced(n: Network, dir: Direction, eps: real, seeds: seq<Seed>, start: Work, picks: seq<Pick>, d: LotId)
    requires ValidNetwork(n) && eps >= 0.0 && Consistent(n, start) && d in n.quantity
    requires Capped(n, start, d) == Min(n.quantity[d], Seeded(seeds, d))
    requires Picked(n, dir, eps, start, picks)
    ensures Balanced(n, eps, RunPicks(n, dir, eps, start, picks), d, Supply(n, dir, seeds, Items(picks), d))
  {
    if picks == [] {
      StartBalanced(n, dir, eps, seeds, start, d);
      assert start.queue[..0] == [];
    } else {
      var init, last := picks[..|picks| - 1], picks[|picks| - 1];
      assert last in picks;
      PicksBalanced(n, dir, eps, seeds, start, init, d);
      PickedIsQueued(n, dir, eps, start, picks, RunPicks(n, dir, eps, start, init));
      OwnEdgesMembers(n, dir, last);
      PickBalanced(n, dir, eps, seeds, RunPicks(n, dir, eps, start, init), Items(init), last, d);
    }
  }

  lemma {:induction false} GivenAsSum(n: Network, queue: seq<Item>, id: LotId, f: Item -> real)
    requires forall item | item in queue :: f(item) == if item.lot == id then Effective(n, item) else 0.0
    ensures GivenTo(n, queue, id) == SumOver(queue, f)
  {
    if queue != [] { GivenAsSum(n, queue[..|queue| - 1], id, f); }
  }

  lemma GivenPermutation(n: Network, queue: seq<Item>, queue': seq<Item>, id: LotId)
    requires multiset(queue) == multiset(queue')
    ensures GivenTo(n, queue, id) == GivenTo(n, queue', id)
  {
    var f := (item: Item) => if item.lot == id then Effective(n, item) else 0.0;
    GivenAsSum(n, queue, id, f);
    GivenAsSum(n, queue', id, f);
    SumPermutation(queue, queue', f);
  }

  lemma GivenIsFound(n: Network, dir: Direction, w: Work, done: seq<Item>, d: LotId)
    requires Consistent(n, w) && multiset(done) == multiset(w.queue)
    ensures Inflow(n, dir, Given(n, done), d) == Inflow(n, dir, Found(n, w), d)
  {
    forall id ensures Given(n, done)(id) == Found(n, w)(id) {
      AccountOf(n, w, id);
      GivenPermutation(n, done, w.queue, id);
    }
    InflowCongruence(n, dir, Given(n, done), Found(n, w), d);
  }

  /** A schedule that is used up has passed on exactly the amounts found. */
  lemma UsedUpBalance(n: Network, dir: Direction, eps: real, seeds: seq<Seed>, start: Work, picks: seq<Pick>, w: Work, d: LotId)
    requires ValidNetwork(n) && eps >= 0.0 && ProperStart(n, seeds, start) && d in n.quantity
    requires Picked(n, dir, eps, start, picks) && UsedUp(n, dir, eps, start, picks) && w == RunPicks(n, dir, eps, start, picks)
    ensures Balanced(n, eps, w, d, Seeded(seeds, d) + Inflow(n, dir, Found(n, w), d))
  {
    StartOf(n, seeds, start, d);
    PicksBalanced(n, dir, eps, seeds, start, picks, d);
    PicksConsistent(n, dir, eps, start, picks);
    GivenIsFound(n, dir, w, Items(picks), d);
  }

  ghost predicate SettledAt(n: Network, dir: Direction, eps: real, seeds: seq<Seed>, w: Work, d: LotId) {
    Balanced(n, eps, w, d, Seeded(seeds, d) + Inflow(n, dir, Found(n, w), d))
  }

  lemma SettledEverywhere(n: Network, dir: Direction, eps: real, seeds: seq<Seed>, w: Work)
    requires forall d | d in n.quantity :: SettledAt(n, dir, eps, seeds, w, d)
    ensures Supported(n, dir, seeds, Found(n, w))
    ensures eps == 0.0 ==> Solves(n, dir, seeds, Found(n, w))
  {
    var x := Found(n, w);
    forall d | d in n.quantity
      ensures x(d) <= Min(n.quantity[d], Seeded(seeds, d) + Inflow(n, dir, x, d))
      ensures eps == 0.0 ==> x(d) == Min(n.quantity[d], Seeded(seeds, d) + Inflow(n, dir, x, d))
    {
      assert SettledAt(n, dir, eps, seeds, w, d);
    }
  }

  /** In whatever order the queue is worked off: with any cut-off the amounts are supported, with none they solve the equations. */
  lemma AnyOrderSolves(n: Network, dir: Direction, eps: real, seeds: seq<Seed>, start: Work, picks: seq<Pick>)
    requires ValidNetwork(n) && eps >= 0.0 && ProperStart(n, seeds, start)
    requires Picked(n, dir, eps, start, picks) && UsedUp(n, dir, eps, start, picks)
    ensures Supported(n, dir, seeds, Found(n, RunPicks(n, dir, eps, start, picks)))
    ensures eps == 0.0 ==> Solves(n, dir, seeds, Found(n, RunPicks(n, dir, eps, start, picks)))
  {
    var w := RunPicks(n, dir, eps, start, picks);
    forall d | d in n.quantity ensures SettledAt(n, dir, eps, seeds, w, d) {
      UsedUpBalance(n, dir, eps, seeds, start, picks, w, d);
    }
    SettledEverywhere(n, dir, eps, seeds, w);
  }

  /** On an acyclic genealogy every order ends with the amounts of the first-in, first-out queue. */
  lemma QueueOrderIsIrrelevant(n: Network, dir: Direction, seeds: seq<Seed>, start: Work, picks: seq<Pick>, k: nat)
    requires ValidNetwork(n) && Acyclic(n) && ProperStart(n, seeds, start) && Finished(n, dir, 0.0, start, k)
    requires Picked(n, dir, 0.0, start, picks) && UsedUp(n, dir, 0.0, start, picks)
    ensures forall d | d in n.quantity ::
              Capped(n, RunPicks(n, dir, 0.0, start, picks), d) == Capped(n, Run(n, dir, 0.0, start, k), d)
  {
    var w, v := RunPicks(n, dir, 0.0, start, picks), Run(n, dir, 0.0, start, k);
    AnyOrderSolves(n, dir, 0.0, seeds, start, picks);
    TraceSolves(n, dir, seeds, start, k);
    SolutionIsUnique(n, dir, seeds, Found(n, w), Found(n, v));
    assert forall d :: Found(n, w)(d) == Capped(n, w, d) && Found(n, v)(d) == Capped(n, v, d);
  }

  lemma PrefixCounts<T>(s: seq<T>, t: seq<T>)
    requires s <= t
    ensures multiset(s) <= multiset(t)
  {
    assert t == s + t[|s|..];
  }

  lemma AllOwn(n: Network, dir: Direction, init: seq<Pick>, pick: Pick)
    requires (forall p | p in init :: OwnEdges(n, dir, p)) && OwnEdges(n, dir, pick)
    ensures forall p | p in init + [pick] :: OwnEdges(n, dir, p)
  {
  }

  lemma AppendPick(n: Network, dir: Direction, eps: real, start: Work, init: seq<Pick>, pick: Pick, picks: seq<Pick>, w: Work)
    requires ValidNetwork(n) && Picked(n, dir, eps, start, init) && w == RunPicks(n, dir, eps, start, init)
    requires OwnEdges(n, dir, pick) && (forall e | e in pick.edges :: e in n.edges) && picks == init + [pick]
    requires Items(init) + [pick.item] <= w.queue
    ensures Items(picks) == Items(init) + [pick.item]
    ensures Picked(n, dir, eps, start, picks)
    ensures RunPicks(n, dir, eps, start, picks) == PushEdges(n, dir, eps, pick.item, pick.edges, w)
  {
    AllOwn(n, dir, init, pick);
    assert picks[..|picks| - 1] == init && picks[|picks| - 1] == pick;
    PrefixCounts(Items(init) + [pick.item], w.queue);
  }

  lemma UsedUpIfAll(n: Network, dir: Direction, eps: real, start: Work, picks: seq<Pick>, w: Work)
    requires ValidNetwork(n) && Picked(n, dir, eps, start, picks) && w == RunPicks(n, dir, eps, start, picks)
    requires Items(picks) == w.queue
    ensures UsedUp(n, dir, eps, start, picks)
  {
  }

  /** The loop's next item, with the edges of its lot as recorded, is a pick. */
  lemma NextPick(n: Network, dir: Direction, eps: real, start: Work, k: nat, init: seq<Pick>, w: Work) returns (picks: seq<Pick>)
    requires ValidNetwork(n) && k < |w.queue|
    requires Picked(n, dir, eps, start, init) && RunPicks(n, dir, eps, start, init) == w && Items(init) == w.queue[..k]
    ensures Picked(n, dir, eps, start, picks) && RunPicks(n, dir, eps, start, picks) == RunItem(n, dir, eps, w.queue[k], w)
    ensures Items(picks) == w.queue[..k + 1]
  {
    var item := w.queue[k];
    var pick := Pick(item, Out(dir, n.edges, item.lot));
    picks := init + [pick];
    OutMembers(dir, n.edges, item.lot);
    assert Items(init) + [item] == w.queue[..k + 1];
    AppendPick(n, dir, eps, start, init, pick, picks, w);
  }

  /** The loop of the traces is one such order: first in, first out, edges as recorded. */
  lemma {:induction false} FirstInFirstOut(n: Network, dir: Direction, eps: real, start: Work, k: nat) returns (picks: seq<Pick>)
    requires ValidNetwork(n) && k <= |Run(n, dir, eps, start, k).queue|
    ensures Picked(n, dir, eps, start, picks) && RunPicks(n, dir, eps, start, picks) == Run(n, dir, eps, start, k)
    ensures Items(picks) == Run(n, dir, eps, start, k).queue[..k]
    ensures Finished(n, dir, eps, start, k) ==> UsedUp(n, dir, eps, start, picks)
  {
    if k == 0 {
      picks := [];
    } else {
      var w, v := Run(n, dir, eps, start, k - 1), Run(n, dir, eps, start, k);
      NextItem(n, dir, eps, start, k, w, v);
      var init := FirstInFirstOut(n, dir, eps, start, k - 1);
      picks := NextPick(n, dir, eps, start, k - 1, init, w);
    }
    var v := Run(n, dir, eps, start, k);
    if |v.queue| == k { UsedUpIfAll(n, dir, eps, start, picks, v); }
  }
}
