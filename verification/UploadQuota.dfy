/**
 The byte quota: what an organization stores and has reserved never exceeds it, although the commit that
 completes an upload takes no quota lock.
 */
module UploadQuota {
  import opened Outcomes
  import opened Uploads
  import opened UploadLifecycle

  // ----- sums

  lemma {:induction false} SumUpdate<T>(s: seq<T>, k: nat, x: T, f: T -> nat)
    requires k < |s|
    ensures Sum(s[k := x], f) + f(s[k]) == Sum(s, f) + f(x)
  {
    var init := s[..|s| - 1];
    if k == |s| - 1 {
      assert s[k := x][..|s| - 1] == init;
    } else {
      SumUpdate(init, k, x, f);
      assert s[k := x][..|s| - 1] == init[k := x];
    }
  }

  lemma SumOneMore<T>(s: seq<T>, x: T, f: T -> nat)
    ensures Sum(s + [x], f) == Sum(s, f) + f(x)
  {
    assert (s + [x])[..|s|] == s;
  }

  lemma {:induction false} SumBelow<T>(s: seq<T>, t: seq<T>, f: T -> nat, g: T -> nat)
    requires |s| == |t| && forall k | 0 <= k < |s| :: f(s[k]) <= g(t[k])
    ensures Sum(s, f) <= Sum(t, g)
  {
    if s != [] { SumBelow(s[..|s| - 1], t[..|t| - 1], f, g); }
  }

  /** Two weights that differ on one row only. */
  lemma {:induction false} SumChangeOne<T>(s: seq<T>, j: nat, f: T -> nat, g: T -> nat)
    requires j < |s| && forall k | 0 <= k < |s| && k != j :: f(s[k]) == g(s[k])
    ensures Sum(s, g) + f(s[j]) == Sum(s, f) + g(s[j])
  {
    var init := s[..|s| - 1];
    if j == |s| - 1 {
      SumBelow(init, init, f, g);
      SumBelow(init, init, g, f);
    } else {
      SumChangeOne(init, j, f, g);
    }
  }

  // ----- steps that only let go

  /** The row is charged no more than before, and is neither newly retained nor no longer so. */
  ghost predicate RowCalms(a: Object, b: Object) {
    ObjectMoves(a, b) && (a.state.Retained? <==> b.state.Retained?) && (Charged(b.state) ==> Charged(a.state))
  }

  lemma SameStored(items: seq<Item>, before: seq<Object>, after: seq<Object>, org: OrgId)
    requires |before| <= |after| && forall k | 0 <= k < |before| :: before[k].state.Retained? <==> after[k].state.Retained?
    requires forall j | 0 <= j < |items| :: items[j].key.Some? ==> items[j].key.value < |before|
    ensures Sum(items, StoredBytes(before, org)) == Sum(items, StoredBytes(after, org))
  {
    SumBelow(items, items, StoredBytes(before, org), StoredBytes(after, org));
    SumBelow(items, items, StoredBytes(after, org), StoredBytes(before, org));
  }

  lemma KeysInLedger(s: State)
    requires Tables(s)
    ensures forall j | 0 <= j < |s.items| :: s.items[j].key.Some? ==> s.items[j].key.value < |s.ledger|
  {
    forall j | 0 <= j < |s.items| ensures s.items[j].key.Some? ==> s.items[j].key.value < |s.ledger| { assert ItemFine(s, j); }
  }

  lemma RewriteShrinks(s: State, i: nat, b: Intent, ledger: seq<Object>, org: OrgId)
    requires Tables(s) && i < |s.intents| && IntentMoves(s.intents[i], b)
    requires |ledger| == |s.ledger| && forall k | 0 <= k < |ledger| :: RowCalms(s.ledger[k], ledger[k])
    ensures ReservedBytes(Put(s, i, b).(ledger := ledger), org) <= ReservedBytes(s, org)
  {
    KeysInLedger(s);
    SameStored(s.items, s.ledger, ledger, org);
    SumBelow(ledger, s.ledger, ChargedBytes(org), ChargedBytes(org));
    SumUpdate(s.intents, i, b, LegacyBytes(org));
  }

  // ----- objects that become, or stop being, stored

  /** Retaining the held object of an item charges the item instead of the object. */
  lemma RetainShrinks(s: State, k: nat, org: OrgId)
    requires Tables(s) && k < |s.ledger| && s.ledger[k].state.Held?
    ensures ReservedBytes(s.(ledger := s.ledger[k := s.ledger[k].(state := Retained)]), org) <= ReservedBytes(s, org)
  {
    var row := s.ledger[k];
    var after := s.ledger[k := row.(state := Retained)];
    var f, g := StoredBytes(s.ledger, org), StoredBytes(after, org);
    KeysInLedger(s);
    SumUpdate(s.ledger, k, row.(state := Retained), ChargedBytes(org));
    if j :| 0 <= j < |s.items| && s.items[j].key == Some(k) {
      assert ItemFine(s, j);
      forall j' | 0 <= j' < |s.items| && j' != j ensures f(s.items[j']) == g(s.items[j']) { OtherKey(s.items, j, j'); }
      SumChangeOne(s.items, j, f, g);
    } else {
      SumBelow(s.items, s.items, g, f);
    }
  }

  lemma OtherKey(items: seq<Item>, j: nat, j': nat)
    requires OneItemPerKey(items) && j < |items| && j' < |items| && j != j' && items[j].key.Some?
    ensures items[j'].key != items[j].key
  {
    if j < j' { assert items[j].key != items[j'].key; }
  }

  lemma InfectedShrinks(s: State, j: nat, org: OrgId)
    requires Tables(s) && j < |s.items|
    ensures ReservedBytes(SystemStep(s, QueueInfected(j)), org) <= ReservedBytes(s, org)
  {
    var t := SystemStep(s, QueueInfected(j));
    KeysInLedger(s);
    assert ItemFine(s, j);
    if t != s {
      var k := s.items[j].key.value;
      var row := s.ledger[k];
      var f, g := StoredBytes(s.ledger, org), StoredBytes(t.ledger, org);
      SumUpdate(s.items, j, t.items[j], g);
      if row.state.Retained? {
        SumUpdate(s.ledger, k, t.ledger[k], ChargedBytes(org));
        forall j' | 0 <= j' < |s.items| && j' != j ensures f(s.items[j']) == g(s.items[j']) { OtherKey(s.items, j, j'); }
        SumChangeOne(s.items, j, f, g);
      } else {
        SameStored(s.items, s.ledger, t.ledger, org);
        SumBelow(t.ledger, s.ledger, ChargedBytes(org), ChargedBytes(org));
      }
    }
  }

  lemma SweepShrinks(s: State, i: nat, org: OrgId)
    requires Tables(s) && i < |s.intents|
    ensures ReservedBytes(SystemStep(s, Sweep(i)), org) <= ReservedBytes(s, org)
  {
    var ledger := SweptLedger(s, i);
    if k :| 0 <= k < |s.ledger| && s.ledger[k].intent == Some(i) && s.ledger[k].state.Held? && SweptState(s, i, k).Retained? {
      var r := s.(ledger := s.ledger[k := s.ledger[k].(state := Retained)]);
      RetainShrinks(s, k, org);
      LedgerMoves(s, r.ledger);
      forall k' | 0 <= k' < |ledger| ensures RowCalms(r.ledger[k'], ledger[k']) {}
      RewriteShrinks(r, i, SweptIntent(s.intents[i]), ledger, org);
      assert Put(r, i, SweptIntent(s.intents[i])).(ledger := ledger) == Put(s, i, SweptIntent(s.intents[i])).(ledger := ledger);
    } else {
      forall k' | 0 <= k' < |ledger| ensures RowCalms(s.ledger[k'], ledger[k']) {}
      RewriteShrinks(s, i, SweptIntent(s.intents[i]), ledger, org);
    }
  }

  lemma WorkShrinks(s: State, k: nat, to: ObjectState, org: OrgId)
    requires Tables(s)
    ensures ReservedBytes(SystemStep(s, Work(k, to)), org) <= ReservedBytes(s, org)
  {
    var t := SystemStep(s, Work(k, to));
    KeysInLedger(s);
    SameStored(s.items, s.ledger, t.ledger, org);
    SumBelow(t.ledger, s.ledger, ChargedBytes(org), ChargedBytes(org));
  }

  /** First the item is there and its intent completed, with the ledger as it was; */
  function Added(s: State, i: nat, k: nat): State
    requires i < |s.intents| && k < |s.ledger| && Completion(s, i, k).Some?
  {
    s.(items := Completion(s, i, k).value.items, intents := Completion(s, i, k).value.intents)
  }

  /** then its object is retained. */
  function Kept(s: State, i: nat, k: nat): State
    requires i < |s.intents| && k < |s.ledger| && Completion(s, i, k).Some?
  {
    Added(s, i, k).(ledger := s.ledger[k := s.ledger[k].(state := Retained)])
  }

  lemma AddedShrinks(s: State, i: nat, k: nat, org: OrgId)
    requires Tables(s) && i < |s.intents| && k < |s.ledger| && Completion(s, i, k).Some?
    ensures ReservedBytes(Added(s, i, k), org) <= ReservedBytes(s, org)
  {
    var t := Completion(s, i, k).value;
    SumOneMore(s.items, t.items[|s.items|], StoredBytes(s.ledger, org));
    SumUpdate(s.intents, i, t.intents[i], LegacyBytes(org));
  }

  lemma SettledShrinks(s: State, i: nat, k: nat, org: OrgId)
    requires Tables(s) && CallFine(s, Stored(i, k)) && Completion(s, i, k).Some?
    ensures ReservedBytes(Completion(s, i, k).value, org) <= ReservedBytes(Kept(s, i, k), org)
  {
    var t, r := Completion(s, i, k).value, Kept(s, i, k);
    AddedTables(s, i, k);
    LedgerMoves(Added(s, i, k), r.ledger);
    forall k' | 0 <= k' < |t.ledger| ensures RowCalms(r.ledger[k'], t.ledger[k']) {}
    RewriteShrinks(r, i, r.intents[i], t.ledger, org);
    assert Put(r, i, r.intents[i]).(ledger := t.ledger) == t;
  }

  /** The completing commit moves the bytes of the final object to the item and frees the rest. */
  lemma CompletionShrinks(s: State, i: nat, k: nat, org: OrgId)
    requires Tables(s) && CallFine(s, Stored(i, k)) && Completion(s, i, k).Some?
    ensures ReservedBytes(Completion(s, i, k).value, org) <= ReservedBytes(s, org)
  {
    AddedShrinks(s, i, k, org);
    AddedTables(s, i, k);
    RetainShrinks(Added(s, i, k), k, org);
    SettledShrinks(s, i, k, org);
  }

  lemma AddedTables(s: State, i: nat, k: nat)
    requires Tables(s) && CallFine(s, Stored(i, k)) && Completion(s, i, k).Some?
    ensures Tables(Added(s, i, k))
  {
    var t := Completion(s, i, k).value;
    CompletionMoves(s, i, k);
    LedgerMoves(t, s.ledger);
    assert t.(ledger := s.ledger) == s.(items := t.items, intents := t.intents);
  }

  // ----- registration

  lemma RegisterAdds(s: State, intents: seq<Intent>, row: Object, org: OrgId)
    requires Tables(s) && |intents| <= 1 && (forall x | x in intents :: x.quarantine.Some?) && row.state.Held?
    ensures ReservedBytes(s.(intents := s.intents + intents, ledger := s.ledger + [row]), org)
         == ReservedBytes(s, org) + if row.org == org then row.bytes else 0
  {
    KeysInLedger(s);
    SameStored(s.items, s.ledger, s.ledger + [row], org);
    SumOneMore(s.ledger, row, ChargedBytes(org));
    if intents == [] {
      assert s.intents + intents == s.intents;
    } else {
      assert intents == [intents[0]];
      SumOneMore(s.intents, intents[0], LegacyBytes(org));
    }
  }

  // ----- every step

  lemma ReaderShrinks(s: State, a: Action, c: CallId, i: nat, org: OrgId)
    requires Tables(s) && c in s.calls && i < |s.intents|
    ensures ReservedBytes(ReaderStep(s, a, c, i), org) <= ReservedBytes(s, org)
  {
    var t := ReaderStep(s, a, c, i);
    assert IntentMoves(s.intents[i], t.intents[i]);
    RewriteShrinks(s, i, t.intents[i], t.ledger, org);
    assert t.intents == s.intents[i := t.intents[i]] && t.items == s.items;
  }

  lemma OwnerShrinks(s: State, a: Action, c: CallId, i: nat, org: OrgId)
    requires Tables(s) && c in s.calls && i < |s.intents| && s.calls[c].Owns(i) && CallFine(s, s.calls[c])
    requires !a.Complete? && !a.RegisterFinal?
    ensures ReservedBytes(OwnerStep(s, a, c, i), org) <= ReservedBytes(s, org)
  {
    var t := OwnerStep(s, a, c, i);
    OwnerTables(s, a, c, i);
    assert IntentMoves(s.intents[i], t.intents[i]);
    RewriteShrinks(s, i, t.intents[i], t.ledger, org);
    assert t.intents == s.intents[i := t.intents[i]] && t.items == s.items;
  }

  lemma CompleteShrinks(s: State, a: Action, c: CallId, i: nat, org: OrgId)
    requires Tables(s) && c in s.calls && i < |s.intents| && s.calls[c].Owns(i) && CallFine(s, s.calls[c]) && a.Complete?
    ensures ReservedBytes(OwnerStep(s, a, c, i), org) <= ReservedBytes(s, org)
  {
    var x := s.calls[c];
    if x.Stored? && Completion(s, i, x.key).Some? { CompletionShrinks(s, i, x.key, org); }
  }

  /** The bytes that step `a` registers for an organization: those its call has had checked, or none. */
  function Registered(s: State, a: Action, org: OrgId): nat {
    if (a.RegisterIntent? || a.RegisterFinal?) && a.call in s.calls then
      var x := s.calls[a.call];
      if ((x.Creating? && a.RegisterIntent?) || (x.Reserving? && a.RegisterFinal?)) && x.checked && x.org == org then x.bytes else 0
    else 0
  }

  lemma RegisterFinalAdds(s: State, a: Action, c: CallId, i: nat, org: OrgId)
    requires Tables(s) && c in s.calls && i < |s.intents| && s.calls[c].Owns(i) && a.RegisterFinal? && a.call == c
    ensures ReservedBytes(OwnerStep(s, a, c, i), org) <= ReservedBytes(s, org) + Registered(s, a, org)
  {
    var x := s.calls[c];
    if x.Reserving? && x.checked {
      RegisterAdds(s, [], Object(x.org, x.bytes, Some(i), Held), org);
      assert s.intents + [] == s.intents;
    }
  }

  lemma CreatorAdds(s: State, a: Action, c: CallId, org: OrgId)
    requires Tables(s) && c in s.calls && s.calls[c].Creating? && (a.RegisterIntent? ==> a.call == c)
    ensures ReservedBytes(CreatorStep(s, a, c), org) <= ReservedBytes(s, org) + Registered(s, a, org)
  {
    var x := s.calls[c];
    if a.RegisterIntent? && x.checked {
      RegisterAdds(s, [Intent(x.org, x.bytes, Pending, Unscanned, None, Some(|s.ledger|))], Object(x.org, x.bytes, Some(|s.intents|), Held), org);
    }
  }

  /** No step takes more for an organization than its call has had checked under the quota lock. */
  lemma StepTakes(s: State, a: Action, org: OrgId)
    requires Orderly(s)
    ensures ReservedBytes(Step(s, a), org) <= ReservedBytes(s, org) + Registered(s, a, org)
  {
    match a
    case Sweep(i) => if i < |s.intents| { SweepShrinks(s, i, org); }
    case Work(k, to) => WorkShrinks(s, k, to, org);
    case QueueInfected(j) => if j < |s.items| { InfectedShrinks(s, j, org); }
    case _ => CallTakes(s, a, org);
  }

  lemma OwnTakes(s: State, a: Action, c: CallId, org: OrgId)
    requires Tables(s) && c in s.calls && CallFine(s, s.calls[c])
    requires !a.Sweep? && !a.Work? && !a.QueueInfected? && a.call == c
    ensures ReservedBytes(CallStep(s, a, c), org) <= ReservedBytes(s, org) + Registered(s, a, org)
  {
    var x := s.calls[c];
    if x.Creating? {
      CreatorAdds(s, a, c, org);
    } else if x.Seen? || x.Rejecting? {
      ReaderShrinks(s, a, c, x.intent, org);
    } else if a.Complete? {
      CompleteShrinks(s, a, c, x.intent, org);
    } else if a.RegisterFinal? {
      RegisterFinalAdds(s, a, c, x.intent, org);
    } else {
      OwnerShrinks(s, a, c, x.intent, org);
    }
  }

  lemma CallTakes(s: State, a: Action, org: OrgId)
    requires Orderly(s) && !a.Sweep? && !a.Work? && !a.QueueInfected?
    ensures ReservedBytes(Step(s, a), org) <= ReservedBytes(s, org) + Registered(s, a, org)
  {
    if a.BeginCreate? || a.Read? || a.call !in s.calls || a.Drop? || a.Check? {
    } else {
      assert CallFine(s, s.calls[a.call]);
      OwnTakes(s, a, a.call, org);
    }
  }

  // ----- the quota

  /** Bytes that a call has had checked and has not registered yet. */
  function Promised(x: Call, org: OrgId): nat {
    if (x.Creating? || x.Reserving?) && x.checked && x.org == org then x.bytes else 0
  }

  ghost predicate WithinQuota(s: State) {
    && (forall org :: ReservedBytes(s, org) <= s.quota)
    && forall c, org | c in s.calls :: Promised(s.calls[c], org) > 0 ==> ReservedBytes(s, org) + Promised(s.calls[c], org) <= s.quota
  }

  /** Whoever else has bytes checked for the organization would hold the same lock. */
  lemma OnlyOnePromise(s: State, c: CallId, d: CallId, org: OrgId)
    requires Orderly(s) && c in s.calls && d in s.calls && c != d
    ensures Promised(s.calls[c], org) == 0 || Promised(s.calls[d], org) == 0
  {
    assert CallsApart(s.calls[c], s.calls[d]);
    assert !(s.calls[c].Locks(org) && s.calls[d].Locks(org));
  }

  /** A promise stands already, or is made by the check that is this step. */
  lemma PromiseKept(s: State, a: Action, d: CallId, org: OrgId)
    requires Orderly(s) && WithinQuota(s) && d in Step(s, a).calls && Promised(Step(s, a).calls[d], org) > 0
    ensures ReservedBytes(Step(s, a), org) + Promised(Step(s, a).calls[d], org) <= s.quota
  {
    var t := Step(s, a);
    StepTakes(s, a, org);
    if d in s.calls && t.calls[d] == s.calls[d] {
      assert ReservedBytes(s, org) + Promised(s.calls[d], org) <= s.quota;
      if Registered(s, a, org) > 0 && a.call != d { OnlyOnePromise(s, a.call, d, org); }
    } else {
      PromiseIsChecked(s, a, d, org);
    }
  }

  lemma NewPromiseIsChecked(s: State, a: Action, org: OrgId)
    requires a.Check? && a.call in s.calls && a.call in Step(s, a).calls && Step(s, a).calls[a.call] != s.calls[a.call]
    requires Promised(Step(s, a).calls[a.call], org) > 0
    ensures ReservedBytes(s, org) + Promised(Step(s, a).calls[a.call], org) <= s.quota
  {
    assert Step(s, a) == CheckStep(s, a.call);
  }

  lemma OwnersPromiseNothing(s: State, a: Action, c: CallId, i: nat, org: OrgId)
    requires c in s.calls && i < |s.intents| && c in OwnerStep(s, a, c, i).calls
    ensures OwnerStep(s, a, c, i).calls[c] == s.calls[c] || Promised(OwnerStep(s, a, c, i).calls[c], org) == 0
  {
  }

  lemma OthersPromiseNothing(s: State, a: Action, org: OrgId)
    requires Orderly(s) && !a.Check? && !a.Sweep? && !a.Work? && !a.QueueInfected? && a.call in Step(s, a).calls
    ensures (a.call in s.calls && Step(s, a).calls[a.call] == s.calls[a.call]) || Promised(Step(s, a).calls[a.call], org) == 0
  {
    if a.BeginCreate? || a.Read? || a.call !in s.calls || a.Drop? {
    } else {
      var x := s.calls[a.call];
      assert CallFine(s, x);
      if !x.Creating? && !x.Seen? && !x.Rejecting? { OwnersPromiseNothing(s, a, a.call, x.intent, org); }
    }
  }

  lemma PromiseIsChecked(s: State, a: Action, d: CallId, org: OrgId)
    requires Orderly(s) && d in Step(s, a).calls && Promised(Step(s, a).calls[d], org) > 0
    requires !(d in s.calls && Step(s, a).calls[d] == s.calls[d])
    ensures Registered(s, a, org) == 0
    ensures ReservedBytes(s, org) + Promised(Step(s, a).calls[d], org) <= s.quota
  {
    if a.Sweep? || a.Work? || a.QueueInfected? {
      SystemTables(s, a);
    } else {
      if a.call != d { OtherCallsStay(s, a, d); }
      if !a.Check? { OthersPromiseNothing(s, a, org); } else { NewPromiseIsChecked(s, a, org); }
    }
  }

  lemma StepKeepsQuota(s: State, a: Action)
    requires Orderly(s) && WithinQuota(s)
    ensures WithinQuota(Step(s, a))
  {
    StepTables(s, a);
    forall org ensures ReservedBytes(Step(s, a), org) <= s.quota {
      StepTakes(s, a, org);
      if Registered(s, a, org) > 0 { assert Promised(s.calls[a.call], org) == Registered(s, a, org); }
    }
    forall c, org | c in Step(s, a).calls && Promised(Step(s, a).calls[c], org) > 0
      ensures ReservedBytes(Step(s, a), org) + Promised(Step(s, a).calls[c], org) <= s.quota
    {
      PromiseKept(s, a, c, org);
    }
  }

  lemma {:induction false} RunKeepsQuota(s: State, actions: seq<Action>)
    requires Quiet(s) && forall org :: ReservedBytes(s, org) <= s.quota
    ensures WithinQuota(Play(s, actions))
  {
    if actions != [] {
      RunKeepsQuota(s, actions[..|actions| - 1]);
      RunIsOrderly(s, actions[..|actions| - 1]);
      StepKeepsQuota(Play(s, actions[..|actions| - 1]), actions[|actions| - 1]);
    }
  }

  /** What some interleaving makes of a quiet state in which every organization is within the quota. */
  ghost predicate ReachableWithinQuota(t: State) {
    exists s, actions :: Quiet(s) && (forall o :: ReservedBytes(s, o) <= s.quota) && t == Play(s, actions)
  }

  /** In every interleaving every organization stays within its quota. */
  lemma QuotaIsNeverExceeded(t: State, org: OrgId)
    requires ReachableWithinQuota(t)
    ensures ReservedBytes(t, org) <= t.quota
  {
    var s, actions :| Quiet(s) && (forall o :: ReservedBytes(s, o) <= s.quota) && t == Play(s, actions);
    RunKeepsQuota(s, actions);
  }

  // ----- an upload that meets nothing else

  lemma UploadIsScanned(s: State, c: CallId, i: nat)
    requires s.calls == map[] && i < |s.intents| && s.intents[i].status.Pending?
    ensures var t := Step(Step(Step(Step(s, Read(c, i)), Claim(c)), StartScan(c)), ScanClean(c));
            t == s.(calls := map[c := Cleared(i)], intents := s.intents[i := s.intents[i].(status := Scanning, scan := Clean)])
  {
    var s1 := Step(s, Read(c, i));
    assert s1 == s.(calls := map[c := Seen(i, Pending)]);
    var s2 := Step(s1, Claim(c));
    assert s2 == s.(calls := map[c := Claimed(i)], intents := s.intents[i := s.intents[i].(status := Uploading)]);
    var s3 := Step(s2, StartScan(c));
    assert s3 == s.(calls := map[c := InScanner(i)], intents := s.intents[i := s.intents[i].(status := Scanning, scan := InScan)]);
  }

  lemma FinalIsReserved(s: State, c: CallId, i: nat)
    requires s.calls == map[c := Cleared(i)] && i < |s.intents|
    requires ReservedBytes(s, s.intents[i].org) + s.intents[i].bytes <= s.quota
    ensures var t := Step(Step(Step(s, BeginReserve(c)), Check(c)), RegisterFinal(c));
            t == s.(calls := map[c := Stored(i, |s.ledger|)], ledger := s.ledger + [Object(s.intents[i].org, s.intents[i].bytes, Some(i), Held)])
  {
    var org, bytes := s.intents[i].org, s.intents[i].bytes;
    var s1 := Step(s, BeginReserve(c));
    assert s1 == s.(calls := map[c := Reserving(i, org, bytes, false)]);
    var s2 := Step(s1, Check(c));
    assert ReservedBytes(s1, org) == ReservedBytes(s, org);
    assert s2 == s.(calls := map[c := Reserving(i, org, bytes, true)]);
  }

  lemma ItemIsCommitted(s: State, c: CallId, i: nat, k: nat)
    requires s.calls == map[c := Stored(i, k)] && i < |s.intents| && s.intents[i].status.Scanning? && s.intents[i].scan.Clean?
    requires k < |s.ledger| && s.ledger[k].intent == Some(i) && s.ledger[k].state.Held?
    ensures var t := Step(s, Complete(c, true));
            && t.calls == map[] && |t.items| == |s.items| + 1 && |t.intents| == |s.intents|
            && t.intents[i].status.Completed? && t.intents[i].item == Some(|s.items|)
  {
    assert Completion(s, i, k).Some?;
  }

  /** A clean upload that fits the quota and meets no other call is completed. */
  lemma UndisturbedUpload(s: State, c: CallId, i: nat)
    requires s.calls == map[] && i < |s.intents| && s.intents[i].status.Pending?
    requires ReservedBytes(s, s.intents[i].org) + s.intents[i].bytes <= s.quota
    ensures var scanned := Step(Step(Step(Step(s, Read(c, i)), Claim(c)), StartScan(c)), ScanClean(c));
            var stored := Step(Step(Step(scanned, BeginReserve(c)), Check(c)), RegisterFinal(c));
            var t := Step(stored, Complete(c, true));
            && t.calls == map[] && |t.items| == |s.items| + 1 && |t.intents| == |s.intents|
            && t.intents[i].status.Completed? && t.intents[i].item == Some(|s.items|)
  {
    UploadIsScanned(s, c, i);
    var scanned := s.(calls := map[c := Cleared(i)], intents := s.intents[i := s.intents[i].(status := Scanning, scan := Clean)]);
    SumUpdate(s.intents, i, scanned.intents[i], LegacyBytes(s.intents[i].org));
    FinalIsReserved(scanned, c, i);
    var row := Object(s.intents[i].org, s.intents[i].bytes, Some(i), Held);
    ItemIsCommitted(scanned.(calls := map[c := Stored(i, |s.ledger|)], ledger := s.ledger + [row]), c, i, |s.ledger|);
  }
}
