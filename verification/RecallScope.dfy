/**
 The scope a forward trace reports: terminal ("leaf") lots, and what each recipient must return.
 Quantities are shown to the gram.
 */
module RecallScope {
  import opened Outcomes
  import opened Sums
  import opened TraceGraphs
  import opened TraceBudgets
  import opened Acyclicity
  import opened RecallChecks
  import opened Worklists
  import opened WorklistInvariants
  import opened RecallReach

  // ----- leaf lots

  /** Impacted lots none of whose outputs is impacted. */
  function LeafLots(impacted: set<LotId>, outgoing: map<LotId, seq<Edge>>): set<LotId> {
    set id | id in impacted && forall e | e in EdgesAt(outgoing, id) :: e.destination !in impacted
  }

  /** A walk that never leaves the impacted lots. */
  ghost predicate WalkWithin(edges: seq<Edge>, impacted: set<LotId>, a: LotId, p: seq<Edge>, b: LotId) {
    a in impacted && Walk(Forward, edges, a, p, b) && forall e | e in p :: e.destination in impacted
  }

  lemma LeafMeaning(edges: seq<Edge>, outgoing: map<LotId, seq<Edge>>, impacted: set<LotId>, id: LotId)
    requires Indexed(Forward, edges, outgoing)
    ensures id in LeafLots(impacted, outgoing) <==> id in impacted && forall e | e in edges && e.source == id :: e.destination !in impacted
  {
    OutMembers(Forward, edges, id);
    assert EdgesAt(outgoing, id) == Out(Forward, edges, id);
  }

  lemma {:induction false} WalkFirst(edges: seq<Edge>, a: LotId, p: seq<Edge>, b: LotId)
    requires p != [] && Walk(Forward, edges, a, p, b)
    ensures p[0] in p && p[0] in edges && p[0].source == a
  {
    if |p| > 1 { WalkFirst(edges, a, p[..|p| - 1], p[|p| - 1].source); }
  }

  lemma {:induction false} PrependWithin(edges: seq<Edge>, impacted: set<LotId>, e: Edge, p: seq<Edge>, b: LotId)
    requires e in edges && e.source in impacted && WalkWithin(edges, impacted, e.destination, p, b)
    ensures WalkWithin(edges, impacted, e.source, [e] + p, b)
  {
    if p == [] {
      assert [e] + p == [e] && [e][..0] == [];
    } else {
      PrependWithin(edges, impacted, e, p[..|p| - 1], p[|p| - 1].source);
      assert ([e] + p)[..|[e] + p| - 1] == [e] + p[..|p| - 1];
    }
  }

  /** A leaf does not lead to any impacted lot, so no leaf repeats material of another. */
  lemma LeavesAreApart(edges: seq<Edge>, outgoing: map<LotId, seq<Edge>>, impacted: set<LotId>, a: LotId, p: seq<Edge>, b: LotId)
    requires Indexed(Forward, edges, outgoing)
    requires a in LeafLots(impacted, outgoing) && WalkWithin(edges, impacted, a, p, b)
    ensures p == [] && a == b
  {
    LeafMeaning(edges, outgoing, impacted, a);
    if p != [] {
      WalkFirst(edges, a, p, b);
      assert false;
    }
  }

  lemma {:induction false} FollowToLeaf(n: Network, outgoing: map<LotId, seq<Edge>>, impacted: set<LotId>, a: LotId,
                                        rank: map<LotId, nat>, top: nat)
    returns (p: seq<Edge>, leaf: LotId)
    requires Indexed(Forward, n.edges, outgoing) && Ranked(Forward, n, rank, top)
    requires a in impacted && impacted <= n.quantity.Keys
    ensures leaf in LeafLots(impacted, outgoing) && WalkWithin(n.edges, impacted, a, p, leaf)
    decreases top - rank[a]
  {
    LeafMeaning(n.edges, outgoing, impacted, a);
    if a in LeafLots(impacted, outgoing) {
      p, leaf := [], a;
    } else {
      var e :| e in n.edges && e.source == a && e.destination in impacted;
      p, leaf := FollowToLeaf(n, outgoing, impacted, e.destination, rank, top);
      PrependWithin(n.edges, impacted, e, p, leaf);
      p := [e] + p;
    }
  }

  /** Every impacted lot ends up, through impacted lots only, in a leaf; so there is a leaf. */
  lemma EveryLotEndsInALeaf(n: Network, outgoing: map<LotId, seq<Edge>>, impacted: set<LotId>, a: LotId)
    requires ValidNetwork(n) && Acyclic(n) && Indexed(Forward, n.edges, outgoing)
    requires a in impacted && impacted <= n.quantity.Keys
    ensures LeafLots(impacted, outgoing) != {}
    ensures exists p, leaf :: leaf in LeafLots(impacted, outgoing) && WalkWithin(n.edges, impacted, a, p, leaf)
  {
    var rank, top := AcyclicRank(Forward, n);
    var p, leaf := FollowToLeaf(n, outgoing, impacted, a, rank, top);
  }

  /** With no cut-off the leaves are exactly the impacted lots that nothing was made from. */
  lemma ExactLeavesAreTerminal(n: Network, seeds: seq<Seed>, start: Work, k: nat, outgoing: map<LotId, seq<Edge>>, id: LotId)
    requires ValidNetwork(n) && PositiveSeeds(seeds) && ProperStart(n, seeds, start) && Finished(n, Forward, 0.0, start, k)
    requires Indexed(Forward, n.edges, outgoing)
    ensures var impacted := Run(n, Forward, 0.0, start, k).amount.Keys;
            id in LeafLots(impacted, outgoing) <==> id in impacted && id !in outgoing
  {
    var dir := Forward;
    var impacted := Run(n, dir, 0.0, start, k).amount.Keys;
    LeafMeaning(n.edges, outgoing, impacted, id);
    OutMembers(dir, n.edges, id);
    assert EdgesAt(outgoing, id) == Out(dir, n.edges, id);
    if id in impacted {
      ScopeIsReachability(n, dir, seeds, start, k, id);
      var a :| IsSeed(seeds, a) && Reaches(dir, n.edges, a, id);
      forall e | e in n.edges && e.source == id ensures e.destination in impacted {
        ReachesStep(dir, n.edges, a, e);
        ScopeIsReachability(n, dir, seeds, start, k, e.destination);
      }
      if id in outgoing {
        var e := Out(dir, n.edges, id)[0];
        assert e in Out(dir, n.edges, id);
      }
    }
  }

  // ----- rounding to the gram

  /** Grams, half up. */
  function Grams(kg: real): int {
    (kg * 1000.0 + 0.5).Floor
  }

  function Kilograms(grams: int): real {
    grams as real / 1000.0
  }

  function Round(kg: real): real {
    Kilograms(Grams(kg))
  }

  lemma FloorBounds(x: real)
    ensures x.Floor as real <= x < x.Floor as real + 1.0
  {
  }

  lemma FloorOfMiddle(m: int, x: real)
    requires x == m as real + 0.5
    ensures x.Floor == m
  {
  }

  /** Rounding is to the nearest gram. */
  lemma RoundIsNearest(kg: real)
    ensures -0.0005 < Round(kg) - kg <= 0.0005
  {
    FloorBounds(kg * 1000.0 + 0.5);
  }

  /** What is already whole grams stays as it is, so sums of rounded quantities are not rounded again. */
  lemma RoundKeepsGrams(grams: int)
    ensures Round(Kilograms(grams)) == Kilograms(grams)
  {
    FloorOfMiddle(grams, Kilograms(grams) * 1000.0 + 0.5);
  }

  // ----- recipients

  datatype Recipient = Recipient(organization: nat, recallGrams: int, deliveries: nat)

  /** The part of an impacted delivery list that went to `org`. */
  function GramsFor(items: seq<Distribution>, org: nat): int {
    if items == [] then 0
    else
      var last := items[|items| - 1];
      GramsFor(items[..|items| - 1], org) + if last.recipient == org then Grams(last.quantityKg) else 0
  }

  function DeliveriesFor(items: seq<Distribution>, org: nat): nat {
    if items == [] then 0
    else
      var last := items[|items| - 1];
      DeliveriesFor(items[..|items| - 1], org) + if last.recipient == org then 1 else 0
  }

  function TotalGrams(items: seq<Distribution>): int {
    if items == [] then 0 else TotalGrams(items[..|items| - 1]) + Grams(items[|items| - 1].quantityKg)
  }

  /** What was delivered from impacted lots. */
  function ImpactedDistributions(distributions: seq<Distribution>, impacted: set<LotId>): seq<Distribution> {
    if distributions == [] then []
    else
      var last := distributions[|distributions| - 1];
      ImpactedDistributions(distributions[..|distributions| - 1], impacted) + if last.lot in impacted then [last] else []
  }

  predicate Listed(recipients: seq<Recipient>, org: nat) {
    exists r :: r in recipients && r.organization == org
  }

  /** The organizations in order of their first delivery. */
  function Organizations(items: seq<Distribution>): seq<nat> {
    if items == [] then []
    else
      var init, last := Organizations(items[..|items| - 1]), items[|items| - 1].recipient;
      if last in init then init else init + [last]
  }

  /** One line for each organization that took a delivery, in order of first delivery, with its totals. */
  ghost predicate Tallies(items: seq<Distribution>, recipients: seq<Recipient>) {
    && OneLineEach(recipients) && InOrder(recipients, Organizations(items))
    && (forall r | r in recipients ::
          r.recallGrams == GramsFor(items, r.organization) && r.deliveries == DeliveriesFor(items, r.organization) > 0)
    && (forall d | d in items :: Listed(recipients, d.recipient))
  }

  ghost predicate InOrder(recipients: seq<Recipient>, organizations: seq<nat>) {
    |recipients| == |organizations| && forall i | 0 <= i < |recipients| :: recipients[i].organization == organizations[i]
  }

  function LineOf(recipients: seq<Recipient>, org: nat): (i: nat)
    ensures i <= |recipients|
    ensures i < |recipients| ==> recipients[i].organization == org
    ensures i == |recipients| ==> !Listed(recipients, org)
  {
    if recipients == [] then 0
    else
      var init, last := recipients[..|recipients| - 1], recipients[|recipients| - 1];
      var i := LineOf(init, org);
      assert recipients == init + [last];
      if i < |init| then i
      else if last.organization == org then |init|
      else |recipients|
  }

  lemma TotalsSnoc(items: seq<Distribution>, d: Distribution, org: nat)
    ensures GramsFor(items + [d], org) == GramsFor(items, org) + if d.recipient == org then Grams(d.quantityKg) else 0
    ensures DeliveriesFor(items + [d], org) == DeliveriesFor(items, org) + if d.recipient == org then 1 else 0
  {
    assert (items + [d])[..|items|] == items;
  }

  lemma {:induction false} NoDelivery(items: seq<Distribution>, org: nat)
    requires forall d | d in items :: d.recipient != org
    ensures GramsFor(items, org) == 0 && DeliveriesFor(items, org) == 0
  {
    if items != [] { NoDelivery(items[..|items| - 1], org); }
  }

  function AddTo(recipients: seq<Recipient>, d: Distribution): seq<Recipient> {
    var i := LineOf(recipients, d.recipient);
    if i < |recipients| then
      recipients[i := Recipient(d.recipient, recipients[i].recallGrams + Grams(d.quantityKg), recipients[i].deliveries + 1)]
    else recipients + [Recipient(d.recipient, Grams(d.quantityKg), 1)]
  }

  lemma OrderSnoc(items: seq<Distribution>, recipients: seq<Recipient>, d: Distribution)
    requires InOrder(recipients, Organizations(items))
    ensures InOrder(AddTo(recipients, d), Organizations(items + [d]))
  {
    var organizations := Organizations(items);
    assert (items + [d])[..|items|] == items;
    var i := LineOf(recipients, d.recipient);
    if i < |recipients| {
      assert organizations[i] == d.recipient;
    } else {
      forall j | 0 <= j < |organizations| ensures organizations[j] != d.recipient { assert recipients[j] in recipients; }
    }
  }

  lemma TalliesSnoc(items: seq<Distribution>, recipients: seq<Recipient>, d: Distribution)
    requires Tallies(items, recipients)
    ensures Tallies(items + [d], AddTo(recipients, d))
  {
    var after, i := AddTo(recipients, d), LineOf(recipients, d.recipient);
    OrderSnoc(items, recipients, d);
    if i == |recipients| { NoDelivery(items, d.recipient); }
    forall r | r in after
      ensures r.recallGrams == GramsFor(items + [d], r.organization) && r.deliveries == DeliveriesFor(items + [d], r.organization) > 0
    {
      TotalsSnoc(items, d, r.organization);
      var j :| 0 <= j < |after| && after[j] == r;
      if j < |recipients| { assert recipients[j] in recipients; }
    }
    assert after[i].organization == d.recipient && after[i] in after;
    forall x | x in items + [d] ensures Listed(after, x.recipient) {
      if x in items {
        var r :| r in recipients && r.organization == x.recipient;
        var j :| 0 <= j < |recipients| && recipients[j] == r;
        assert after[j] in after && after[j].organization == x.recipient;
      }
    }
  }

  /** Adds up what each recipient received from impacted lots. */
  method Recipients(items: seq<Distribution>, budget: TraceBudget) returns (recipients: seq<Recipient>, stop: Option<Reason>)
    modifies budget
    ensures stop == None ==> Tallies(items, recipients)
    ensures stop.Some? ==> stop.value in {WorkLimit, TimeLimit}
    ensures stop == Some(WorkLimit) ==> budget.work > MAX_WORK
    ensures stop == Some(TimeLimit) ==> budget.Expired()
  {
    recipients, stop := [], None;
    for i := 0 to |items|
      invariant stop == None && Tallies(items[..i], recipients)
    {
      stop := budget.Step(1, 0);
      if stop.Some? { return; }
      assert items[..i + 1] == items[..i] + [items[i]];
      TalliesSnoc(items[..i], recipients, items[i]);
      recipients := AddTo(recipients, items[i]);
    }
    assert items[..|items|] == items;
  }

  function SumGrams(recipients: seq<Recipient>): int {
    if recipients == [] then 0 else SumGrams(recipients[..|recipients| - 1]) + recipients[|recipients| - 1].recallGrams
  }

  function SumDeliveries(recipients: seq<Recipient>): nat {
    if recipients == [] then 0 else SumDeliveries(recipients[..|recipients| - 1]) + recipients[|recipients| - 1].deliveries
  }

  /** The same list of recipients with nothing delivered to them but `items`. */
  function GramsOfAll(recipients: seq<Recipient>, items: seq<Distribution>): int {
    if recipients == [] then 0
    else GramsOfAll(recipients[..|recipients| - 1], items) + GramsFor(items, recipients[|recipients| - 1].organization)
  }

  function DeliveriesOfAll(recipients: seq<Recipient>, items: seq<Distribution>): nat {
    if recipients == [] then 0
    else DeliveriesOfAll(recipients[..|recipients| - 1], items) + DeliveriesFor(items, recipients[|recipients| - 1].organization)
  }

  ghost predicate OneLineEach(recipients: seq<Recipient>) {
    forall i, j | 0 <= i < j < |recipients| :: recipients[i].organization != recipients[j].organization
  }

  /** A delivery is counted on one line only. */
  lemma {:induction false} CountedOnce(recipients: seq<Recipient>, items: seq<Distribution>, d: Distribution)
    requires OneLineEach(recipients)
    ensures GramsOfAll(recipients, items + [d]) == GramsOfAll(recipients, items) + if Listed(recipients, d.recipient) then Grams(d.quantityKg) else 0
    ensures DeliveriesOfAll(recipients, items + [d]) == DeliveriesOfAll(recipients, items) + if Listed(recipients, d.recipient) then 1 else 0
  {
    if recipients != [] {
      var init, last := recipients[..|recipients| - 1], recipients[|recipients| - 1];
      CountedOnce(init, items, d);
      TotalsSnoc(items, d, last.organization);
      assert recipients == init + [last];
      if last.organization == d.recipient {
        assert last in recipients;
        forall r | r in init ensures r.organization != last.organization {
          var i :| 0 <= i < |init| && init[i] == r;
          assert recipients[i] == r && recipients[|init|] == last;
        }
      } else if Listed(recipients, d.recipient) {
        var r :| r in recipients && r.organization == d.recipient;
        assert r in init;
      } else {
        assert forall r | r in init :: r in recipients;
      }
    }
  }

  lemma {:induction false} AllCountedOnce(recipients: seq<Recipient>, items: seq<Distribution>)
    requires OneLineEach(recipients) && forall d | d in items :: Listed(recipients, d.recipient)
    ensures GramsOfAll(recipients, items) == TotalGrams(items) && DeliveriesOfAll(recipients, items) == |items|
  {
    if items == [] {
      NothingForAll(recipients);
    } else {
      var init, last := items[..|items| - 1], items[|items| - 1];
      AllCountedOnce(recipients, init);
      CountedOnce(recipients, init, last);
      assert items == init + [last];
    }
  }

  lemma {:induction false} NothingForAll(recipients: seq<Recipient>)
    ensures GramsOfAll(recipients, []) == 0 && DeliveriesOfAll(recipients, []) == 0
  {
    if recipients != [] { NothingForAll(recipients[..|recipients| - 1]); }
  }

  lemma {:induction false} TalliesAreTotals(recipients: seq<Recipient>, items: seq<Distribution>)
    requires forall r | r in recipients ::
               r.recallGrams == GramsFor(items, r.organization) && r.deliveries == DeliveriesFor(items, r.organization)
    ensures SumGrams(recipients) == GramsOfAll(recipients, items) && SumDeliveries(recipients) == DeliveriesOfAll(recipients, items)
  {
    if recipients != [] { TalliesAreTotals(recipients[..|recipients| - 1], items); }
  }

  /** What the recipients must return, and how many deliveries, adds up to what was distributed. */
  lemma RecipientsAddUp(items: seq<Distribution>, recipients: seq<Recipient>)
    requires Tallies(items, recipients)
    ensures SumGrams(recipients) == TotalGrams(items)
    ensures SumDeliveries(recipients) == |items|
  {
    TalliesAreTotals(recipients, items);
    AllCountedOnce(recipients, items);
  }
}
