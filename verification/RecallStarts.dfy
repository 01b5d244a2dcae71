/** How the two traces seed their work-list. */
module RecallStarts {
  import opened Sums
  import opened TraceGraphs
  import opened Worklists
  import opened WorklistInvariants
  import opened RecallReach

  ghost predicate ValidSeeds(n: Network, seeds: seq<Seed>) {
    forall s | s in seeds :: ValidSeed(n, s)
  }

  /** Back, the one seed is recorded as asked for, even where the tolerance lets it exceed its lot. */
  function BackStart(n: Network, s: Seed): Work {
    Work(map[s.lot := s.quantityKg], map[s.lot := 0], map[s.lot := {SeedBasis(n, s)}], [Item(s.lot, s.quantityKg, 0)])
  }

  lemma BackStartProper(n: Network, s: Seed)
    requires ValidNetwork(n) && ValidSeed(n, s)
    ensures ProperStart(n, [s], BackStart(n, s))
  {
    var w := BackStart(n, s);
    assert [s][..0] == [] && w.queue[..0] == [];
    forall id ensures id in w.amount <==> IsSeed([s], id) {
      if id == s.lot { assert s in [s]; }
    }
    forall id ensures AccountAt(n, w.amount, w.queue, id) {}
    forall id | id in n.quantity ensures StartsAt(n, [s], w, id) {}
  }

  lemma IsSeedSnoc(seeds: seq<Seed>, s: Seed, id: LotId)
    ensures IsSeed(seeds + [s], id) <==> IsSeed(seeds, id) || s.lot == id
  {
    if IsSeed(seeds, id) {
      var t :| t in seeds && t.lot == id;
      assert t in seeds + [s];
    }
    if s.lot == id { assert s in seeds + [s]; }
    if IsSeed(seeds + [s], id) {
      var t :| t in seeds + [s] && t.lot == id;
      assert t == s || t in seeds;
    }
  }

  ghost predicate WithinLots(n: Network, w: Work) {
    forall id | id in w.amount :: w.amount[id] <= QuantityOf(n, id)
  }

  /** What the seed adds to its lot. */
  function SeedAdded(n: Network, s: Seed, w: Work): real {
    Max(0.0, Min(s.quantityKg, QuantityOf(n, s.lot) - AmountAt(w.amount, s.lot)))
  }

  lemma AddSeedCases(n: Network, s: Seed, w: Work)
    requires ValidNetwork(n) && ValidSeed(n, s)
    ensures var added := SeedAdded(n, s, w);
            && added <= Max(0.0, QuantityOf(n, s.lot) - AmountAt(w.amount, s.lot))
            && AddSeed(n, s, w) == (if added <= 0.0 then w else Recorded(w, Item(s.lot, added, 0), 0, {SeedBasis(n, s)}))
            && (added <= 0.0 ==> s.lot in w.amount && w.amount[s.lot] >= QuantityOf(n, s.lot))
  {
  }

  lemma AddSeedWithin(n: Network, s: Seed, w: Work)
    requires ValidNetwork(n) && ValidSeed(n, s) && WithinLots(n, w)
    ensures WithinLots(n, AddSeed(n, s, w))
    ensures AddSeed(n, s, w).amount.Keys == w.amount.Keys + {s.lot}
  {
    AddSeedCases(n, s, w);
  }

  lemma AddSeedConsistent(n: Network, s: Seed, w: Work)
    requires ValidNetwork(n) && ValidSeed(n, s) && Consistent(n, w) && WithinLots(n, w)
    ensures Consistent(n, AddSeed(n, s, w))
  {
    AddSeedCases(n, s, w);
    if SeedAdded(n, s, w) > 0.0 { RecordedConsistent(n, w, Item(s.lot, SeedAdded(n, s, w), 0), 0, {SeedBasis(n, s)}); }
  }

  lemma AddSeedCapped(n: Network, s: Seed, w: Work, id: LotId, seeded: real)
    requires ValidNetwork(n) && ValidSeed(n, s) && id in n.quantity
    requires Capped(n, w, id) == Min(n.quantity[id], seeded)
    requires AmountAt(w.amount, id) <= n.quantity[id]
    ensures Capped(n, AddSeed(n, s, w), id) == Min(n.quantity[id], seeded + if s.lot == id then s.quantityKg else 0.0)
  {
  }

  lemma {:induction false} AddSeedsWithin(n: Network, seeds: seq<Seed>)
    requires ValidNetwork(n) && ValidSeeds(n, seeds)
    ensures WithinLots(n, AddSeeds(n, seeds))
  {
    if seeds != [] {
      AddSeedsWithin(n, seeds[..|seeds| - 1]);
      assert ValidSeed(n, seeds[|seeds| - 1]);
      AddSeedWithin(n, seeds[|seeds| - 1], AddSeeds(n, seeds[..|seeds| - 1]));
    }
  }

  lemma {:induction false} AddSeedsConsistent(n: Network, seeds: seq<Seed>)
    requires ValidNetwork(n) && ValidSeeds(n, seeds)
    ensures Consistent(n, AddSeeds(n, seeds))
  {
    if seeds != [] {
      var init, s := seeds[..|seeds| - 1], seeds[|seeds| - 1];
      AddSeedsConsistent(n, init);
      AddSeedsWithin(n, init);
      assert ValidSeed(n, s);
      AddSeedConsistent(n, s, AddSeeds(n, init));
    }
  }

  lemma {:induction false} AddSeedsKeys(n: Network, seeds: seq<Seed>, id: LotId)
    requires ValidNetwork(n) && ValidSeeds(n, seeds)
    ensures id in AddSeeds(n, seeds).amount <==> IsSeed(seeds, id)
  {
    if seeds != [] {
      var init, s := seeds[..|seeds| - 1], seeds[|seeds| - 1];
      AddSeedsKeys(n, init, id);
      AddSeedsWithin(n, init);
      assert ValidSeed(n, s);
      AddSeedWithin(n, s, AddSeeds(n, init));
      IsSeedSnoc(init, s, id);
      assert seeds == init + [s];
    }
  }

  /** Seeds of the same lot add up, but never beyond the lot. */
  lemma {:induction false} AddSeedsCapped(n: Network, seeds: seq<Seed>, id: LotId)
    requires ValidNetwork(n) && ValidSeeds(n, seeds) && id in n.quantity
    ensures Capped(n, AddSeeds(n, seeds), id) == Min(n.quantity[id], Seeded(seeds, id))
  {
    if seeds != [] {
      var init, s := seeds[..|seeds| - 1], seeds[|seeds| - 1];
      AddSeedsCapped(n, init, id);
      AddSeedsWithin(n, init);
      assert ValidSeed(n, s);
      AddSeedCapped(n, s, AddSeeds(n, init), id, Seeded(init, id));
    }
  }

  /** Everything is at depth zero. */
  ghost predicate AtZero(w: Work) {
    (forall item | item in w.queue :: item.depth == 0) && forall id | id in w.depth :: w.depth[id] == 0
  }

  lemma AddSeedAtZero(n: Network, s: Seed, w: Work)
    requires AtZero(w)
    ensures AtZero(AddSeed(n, s, w))
  {
    var v := AddSeed(n, s, w);
    if v != w {
      assert v.depth == w.depth[s.lot := 0];
      assert v.queue == w.queue + [Item(s.lot, SeedAdded(n, s, w), 0)];
      forall item | item in v.queue ensures item.depth == 0 { assert item in w.queue || item == v.queue[|w.queue|]; }
    }
  }

  lemma {:induction false} AddSeedsAtZero(n: Network, seeds: seq<Seed>)
    ensures AtZero(AddSeeds(n, seeds))
  {
    if seeds != [] {
      AddSeedsAtZero(n, seeds[..|seeds| - 1]);
      AddSeedAtZero(n, seeds[|seeds| - 1], AddSeeds(n, seeds[..|seeds| - 1]));
    }
  }

  lemma AddSeedsProper(n: Network, seeds: seq<Seed>)
    requires ValidNetwork(n) && ValidSeeds(n, seeds)
    ensures ProperStart(n, seeds, AddSeeds(n, seeds)) && WithinLots(n, AddSeeds(n, seeds))
  {
    AddSeedsConsistent(n, seeds);
    AddSeedsWithin(n, seeds);
    AddSeedsAtZero(n, seeds);
    forall id { AddSeedsKeys(n, seeds, id); }
    forall id | id in n.quantity ensures StartsAt(n, seeds, AddSeeds(n, seeds), id) { AddSeedsCapped(n, seeds, id); }
  }

  lemma ValidSeedsPositive(n: Network, seeds: seq<Seed>)
    requires ValidSeeds(n, seeds)
    ensures PositiveSeeds(seeds)
  {
  }

  lemma {:induction false} PushedWithin(n: Network, dir: Direction, eps: real, cur: Item, es: seq<Edge>, w: Work, d: LotId)
    requires ValidNetwork(n) && eps >= 0.0 && AmountAt(w.amount, d) <= QuantityOf(n, d) && forall e | e in es :: e in n.edges
    ensures AmountAt(PushEdges(n, dir, eps, cur, es, w).amount, d) <= QuantityOf(n, d)
  {
    if es != [] { PushedWithin(n, dir, eps, cur, es[..|es| - 1], w, d); }
  }

  /** A lot that starts within its quantity stays within it. */
  lemma {:induction false} RunWithin(n: Network, dir: Direction, eps: real, start: Work, k: nat, d: LotId)
    requires ValidNetwork(n) && eps >= 0.0 && AmountAt(start.amount, d) <= QuantityOf(n, d)
    ensures AmountAt(Run(n, dir, eps, start, k).amount, d) <= QuantityOf(n, d)
  {
    if k > 0 {
      RunWithin(n, dir, eps, start, k - 1, d);
      var w := Run(n, dir, eps, start, k - 1);
      if k - 1 < |w.queue| {
        OutMembers(dir, n.edges, w.queue[k - 1].lot);
        PushedWithin(n, dir, eps, w.queue[k - 1], Out(dir, n.edges, w.queue[k - 1].lot), w, d);
      }
    }
  }

  lemma StartWithin(n: Network, start: Work, d: LotId)
    requires ValidNetwork(n) && WithinLots(n, start)
    ensures AmountAt(start.amount, d) <= QuantityOf(n, d)
  {
  }

  /** A forward trace never records more than the lot holds. */
  lemma RunWithinLots(n: Network, dir: Direction, eps: real, start: Work, k: nat)
    requires ValidNetwork(n) && eps >= 0.0 && WithinLots(n, start)
    ensures WithinLots(n, Run(n, dir, eps, start, k))
  {
    forall d | d in Run(n, dir, eps, start, k).amount ensures Run(n, dir, eps, start, k).amount[d] <= QuantityOf(n, d) {
      StartWithin(n, start, d);
      RunWithin(n, dir, eps, start, k, d);
    }
  }
}
