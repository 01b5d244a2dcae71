/**
 Publication budget: listings of one holding are cut back, in the order of their ids, to the stock that
 is still free, and offers that no longer fit are rejected. Quantities are grams.
 */
module Listings {

  /** `expired` is whether the listing was past its date when the rows were locked. */
  datatype Listing = Listing(id: nat, active: bool, expired: bool, grams: nat)

  datatype OfferStatus = Pending | Accepted | Rejected | OfferExpired | Cancelled

  datatype Offer = Offer(id: nat, listing: nat, grams: nat, status: OfferStatus)

  function Min(a: int, b: int): int { if a <= b then a else b }

  /** Free stock to the nearest gram, never negative. */
  function BudgetGrams(availableKg: real): nat {
    var grams := (availableKg * 1000.0 + 0.5).Floor;
    if grams < 0 then 0 else grams
  }

  predicate Publishes(l: Listing) {
    l.active && !l.expired
  }

  /** Grams on offer by listings that are active and not expired. */
  function PublishedGrams(listings: seq<Listing>): nat {
    if listings == [] then 0
    else
      var last := listings[|listings| - 1];
      PublishedGrams(listings[..|listings| - 1]) + if Publishes(last) then last.grams else 0
  }

  // ----- the closed form

  /** What the budget leaves for listing `k`: the difference of two capped running totals. */
  function Share(listings: seq<Listing>, budget: nat, k: nat): int
    requires k < |listings|
  {
    Min(budget, PublishedGrams(listings[..k + 1])) - Min(budget, PublishedGrams(listings[..k]))
  }

  function ReconciledAt(listings: seq<Listing>, budget: nat, k: nat): Listing
    requires k < |listings|
  {
    var l := listings[k];
    PublishedSnoc(listings, k);
    if Publishes(l) then l.(grams := Share(listings, budget, k), active := Share(listings, budget, k) > 0) else l
  }

  function Reconciled(listings: seq<Listing>, budget: nat): (r: seq<Listing>)
    ensures |r| == |listings|
  {
    seq(|listings|, k requires 0 <= k < |listings| => ReconciledAt(listings, budget, k))
  }

  lemma PublishedSnoc(listings: seq<Listing>, k: nat)
    requires k < |listings|
    ensures PublishedGrams(listings[..k + 1]) == PublishedGrams(listings[..k]) + if Publishes(listings[k]) then listings[k].grams else 0
  {
    assert listings[..k + 1][..k] == listings[..k];
  }

  /** The share of a listing is its own quantity or what earlier listings left, whichever is less. */
  lemma ShareIsWhatIsLeft(listings: seq<Listing>, budget: nat, k: nat)
    requires k < |listings| && Publishes(listings[k])
    ensures Share(listings, budget, k) == Min(listings[k].grams, budget - Min(budget, PublishedGrams(listings[..k])))
  {
    PublishedSnoc(listings, k);
  }

  // ----- offers

  predicate Unfit(o: Offer, l: Listing) {
    o.status.Pending? && o.listing == l.id && !l.expired && (!l.active || o.grams > l.grams)
  }

  function Screened(o: Offer, listings: seq<Listing>): Offer {
    if listings == [] then o
    else
      var before := Screened(o, listings[..|listings| - 1]);
      if Unfit(before, listings[|listings| - 1]) then before.(status := Rejected) else before
  }

  function ScreenedAll(offers: seq<Offer>, listings: seq<Listing>): (r: seq<Offer>)
    ensures |r| == |offers|
  {
    seq(|offers|, j requires 0 <= j < |offers| => Screened(offers[j], listings))
  }

  /** An offer is rejected exactly when some listing that is not expired can no longer honour it. */
  lemma {:induction false} ScreenedMeaning(o: Offer, listings: seq<Listing>)
    ensures Screened(o, listings) == if exists l :: l in listings && Unfit(o, l) then o.(status := Rejected) else o
  {
    if listings != [] {
      var init, last := listings[..|listings| - 1], listings[|listings| - 1];
      ScreenedMeaning(o, init);
      assert listings == init + [last];
      if l :| l in listings && Unfit(o, l) {
        if l in init { assert exists l' :: l' in init && Unfit(o, l'); }
      }
      if exists l :: l in init && Unfit(o, l) {
        var l :| l in init && Unfit(o, l);
        assert l in listings;
      }
    }
  }

  /** The row that the loop writes for listing `i`. */
  function Written(l: Listing, remaining: nat): Listing {
    if l.expired then l
    else
      var quantity := if l.active then Min(l.grams, remaining) else l.grams;
      l.(grams := quantity, active := l.active && quantity > 0)
  }

  /** It is the row of the closed form, and what is left of the budget is what the closed form leaves. */
  lemma NextListing(before: seq<Listing>, budget: nat, listings: seq<Listing>, i: nat, remaining: nat)
    requires i < |before| == |listings|
    requires remaining == budget - Min(budget, PublishedGrams(before[..i]))
    requires listings[..i] == Reconciled(before, budget)[..i] && listings[i..] == before[i..]
    ensures listings[i] == before[i] && Written(before[i], remaining) == Reconciled(before, budget)[i]
    ensures var after := listings[i := Written(before[i], remaining)];
            after[..i + 1] == Reconciled(before, budget)[..i + 1] && after[i + 1..] == before[i + 1..]
    ensures budget - Min(budget, PublishedGrams(before[..i + 1]))
         == if Written(before[i], remaining).active && !before[i].expired then remaining - Written(before[i], remaining).grams else remaining
  {
    assert listings[i..][0] == before[i..][0];
    PublishedSnoc(before, i);
    WrittenIsShare(before, budget, i, remaining);
    var row := Written(before[i], remaining);
    var after := listings[i := row];
    assert after[..i + 1] == listings[..i] + [row];
    assert Reconciled(before, budget)[..i + 1] == Reconciled(before, budget)[..i] + [row];
    assert after[i + 1..] == listings[i..][1..] && before[i + 1..] == before[i..][1..];
  }

  lemma WrittenIsShare(before: seq<Listing>, budget: nat, i: nat, remaining: nat)
    requires i < |before| && remaining == budget - Min(budget, PublishedGrams(before[..i]))
    ensures Written(before[i], remaining) == ReconciledAt(before, budget, i)
  {
    PublishedSnoc(before, i);
  }

  lemma OneMore(before: seq<Listing>, after: seq<Listing>, i: nat)
    requires i < |before| == |after| && after == before[i := after[i]]
    ensures after[..i + 1] == before[..i] + [after[i]]
  {
  }

  // ----- the tables

  class Holding {
    var listings: seq<Listing>
    var offers: seq<Offer>

    constructor (listings: seq<Listing>, offers: seq<Offer>)
      ensures this.listings == listings && this.offers == offers
    {
      this.listings, this.offers := listings, offers;
    }

    /** Gives out the budget listing by listing and turns away what no longer fits. */
    method Reconcile(availableKg: real)
      modifies this
      ensures listings == Reconciled(old(listings), BudgetGrams(availableKg))
      ensures offers == ScreenedAll(old(offers), listings)
    {
      ghost var budget := BudgetGrams(availableKg);
      ghost var before, asked := listings, offers;
      var remainingGrams := BudgetGrams(availableKg);
      for i := 0 to |listings|
        invariant |listings| == |before| && |offers| == |asked|
        invariant remainingGrams == budget - Min(budget, PublishedGrams(before[..i]))
        invariant listings[..i] == Reconciled(before, budget)[..i] && listings[i..] == before[i..]
        invariant offers == ScreenedAll(asked, listings[..i])
      {
        var listing := listings[i];
        ghost var was, screened := listings, offers;
        NextListing(before, budget, was, i, remainingGrams);
        if !listing.expired {
          var quantity := if listing.active then Min(listing.grams, remainingGrams) else listing.grams;
          var active := listing.active && quantity > 0;
          if active { remainingGrams := remainingGrams - quantity; }
          var updated := listing.(grams := quantity, active := active);
          listings := listings[i := updated];
          RejectUnfit(updated);
        } else {
          NothingUnfit(offers, listing);
        }
        OneMore(was, listings, i);
        ScreenNext(asked, was[..i], listings[i]);
      }
      assert before[..|before|] == before && listings[..|listings|] == listings;
    }

    /** Turns away the pending offers on one listing that it can no longer honour. */
    method RejectUnfit(l: Listing)
      modifies this`offers
      ensures offers == ScreenedAll(old(offers), [l])
    {
      var rows := offers;
      offers := seq(|rows|, j requires 0 <= j < |rows| => if Unfit(rows[j], l) then rows[j].(status := Rejected) else rows[j]);
      forall j | 0 <= j < |rows| ensures offers[j] == Screened(rows[j], [l]) { ScreenedOnce(rows[j], l); }
    }
  }

  lemma NothingUnfit(offers: seq<Offer>, l: Listing)
    requires l.expired
    ensures ScreenedAll(offers, [l]) == offers
  {
    forall j | 0 <= j < |offers| ensures Screened(offers[j], [l]) == offers[j] { ScreenedOnce(offers[j], l); }
  }

  lemma ScreenedOnce(o: Offer, l: Listing)
    ensures Screened(o, [l]) == if Unfit(o, l) then o.(status := Rejected) else o
  {
    assert [l][..0] == [];
  }

  lemma ScreenNext(offers: seq<Offer>, done: seq<Listing>, l: Listing)
    ensures ScreenedAll(ScreenedAll(offers, done), [l]) == ScreenedAll(offers, done + [l])
  {
    assert (done + [l])[..|done|] == done;
    forall j | 0 <= j < |offers| ensures Screened(Screened(offers[j], done), [l]) == Screened(offers[j], done + [l]) {
      ScreenedOnce(Screened(offers[j], done), l);
    }
  }

  // ----- what reconciling achieves

  /** At every point of the list the running total is the old one, capped by the budget. */
  lemma {:induction false} RunningTotalIsCapped(listings: seq<Listing>, budget: nat, k: nat)
    requires k <= |listings|
    ensures PublishedGrams(Reconciled(listings, budget)[..k]) == Min(budget, PublishedGrams(listings[..k]))
  {
    if k > 0 {
      RunningTotalIsCapped(listings, budget, k - 1);
      PublishedSnoc(listings, k - 1);
      PublishedSnoc(Reconciled(listings, budget), k - 1);
    }
  }

  /**
   What is published never exceeds the budget, and all that was published stays so if it fits. A listing
   is cut only when the budget is used up; then nothing later is published at all.
   */
  lemma BudgetIsUsedInOrder(listings: seq<Listing>, budget: nat, k: nat)
    requires k < |listings|
    ensures var r := Reconciled(listings, budget);
            && PublishedGrams(r) == Min(budget, PublishedGrams(listings))
            && r[k].grams <= listings[k].grams
            && (r[k].grams < listings[k].grams ==> PublishedGrams(r[..k + 1]) == budget)
            && (r[k].grams < listings[k].grams ==> forall j | k < j < |r| :: !Publishes(r[j]))
  {
    var r := Reconciled(listings, budget);
    RunningTotalIsCapped(listings, budget, |listings|);
    assert r[..|r|] == r && listings[..|listings|] == listings;
    PublishedSnoc(listings, k);
    RunningTotalIsCapped(listings, budget, k + 1);
    if r[k].grams < listings[k].grams {
      forall j | k < j < |r| ensures !Publishes(r[j]) {
        PublishedMonotone(listings, k + 1, j);
        PublishedSnoc(listings, j);
      }
    }
  }

  lemma {:induction false} PublishedMonotone(listings: seq<Listing>, i: nat, j: nat)
    requires i <= j <= |listings|
    ensures PublishedGrams(listings[..i]) <= PublishedGrams(listings[..j])
  {
    if i < j {
      PublishedMonotone(listings, i, j - 1);
      PublishedSnoc(listings, j - 1);
    }
  }

  /** Expired and inactive listings stay as they are; whatever stays active has a positive quantity. */
  lemma OthersAreUntouched(listings: seq<Listing>, budget: nat, k: nat)
    requires k < |listings|
    ensures var r := Reconciled(listings, budget);
            && (!Publishes(listings[k]) ==> r[k] == listings[k])
            && r[k].id == listings[k].id && r[k].expired == listings[k].expired
            && (Publishes(listings[k]) && r[k].active ==> r[k].grams > 0)
            && ((listings[k].active ==> listings[k].grams > 0) ==> (r[k].active ==> r[k].grams > 0))
  {
    PublishedSnoc(listings, k);
  }

  ghost predicate DistinctIds(listings: seq<Listing>) {
    forall i, j | 0 <= i < j < |listings| :: listings[i].id != listings[j].id
  }

  /** A pending offer survives exactly when its listing has expired or still publishes at least as much. */
  lemma SurvivingOffersFit(listings: seq<Listing>, budget: nat, o: Offer, k: nat)
    requires DistinctIds(listings) && k < |listings| && o.listing == listings[k].id && o.status.Pending?
    ensures var r := Reconciled(listings, budget);
            Screened(o, r).status.Pending? <==> r[k].expired || (r[k].active && o.grams <= r[k].grams)
    ensures var r := Reconciled(listings, budget);
            Screened(o, r) == o || Screened(o, r) == o.(status := Rejected)
  {
    var r := Reconciled(listings, budget);
    ScreenedMeaning(o, r);
    if l :| l in r && Unfit(o, l) {
      var j :| 0 <= j < |r| && r[j] == l;
      assert listings[j].id == listings[k].id;
      assert j == k;
    }
    assert r[k] in r;
  }

  /** Reconciling to one budget and then another is reconciling once to the smaller: in particular, twice is once. */
  lemma ReconcilingTwice(listings: seq<Listing>, first: nat, second: nat)
    ensures Reconciled(Reconciled(listings, first), second) == Reconciled(listings, Min(first, second))
    ensures Reconciled(Reconciled(listings, first), first) == Reconciled(listings, first)
  {
    AfterFirst(listings, first, second);
    AfterFirst(listings, first, first);
  }

  lemma AfterFirst(listings: seq<Listing>, first: nat, second: nat)
    ensures Reconciled(Reconciled(listings, first), second) == Reconciled(listings, Min(first, second))
  {
    var r := Reconciled(listings, first);
    forall k | 0 <= k < |listings| ensures ReconciledAt(r, second, k) == ReconciledAt(listings, Min(first, second), k) {
      RunningTotalIsCapped(listings, first, k);
      RunningTotalIsCapped(listings, first, k + 1);
      PublishedSnoc(listings, k);
    }
  }

  lemma ScreeningTwice(offers: seq<Offer>, listings: seq<Listing>)
    ensures ScreenedAll(ScreenedAll(offers, listings), listings) == ScreenedAll(offers, listings)
  {
    forall j | 0 <= j < |offers| ensures Screened(Screened(offers[j], listings), listings) == Screened(offers[j], listings) {
      ScreenedMeaning(offers[j], listings);
      ScreenedMeaning(Screened(offers[j], listings), listings);
    }
  }
}
