/**
 What every interleaving of uploads keeps: an intent is completed exactly when one item came from it,
 only a clean scanned upload is completed, and what is settled stays settled.
 */
module UploadLifecycle {
  import opened Outcomes
  import opened Uploads

  predicate Terminal(status: Status) {
    status.Completed? || status.Rejected? || status.Expired? || status.Infected? || status.ScanFailed?
  }

  // ----- how rows may move

  ghost predicate IntentMoves(a: Intent, b: Intent) {
    && a.org == b.org && a.bytes == b.bytes && a.quarantine == b.quarantine
    && (Terminal(a.status) ==> b == a)
    && (b.status.Pending? ==> b == a)
    && (b.status.Completed? && !a.status.Completed? ==> a.status.Scanning? && a.scan.Clean?)
  }

  ghost predicate ObjectMoves(a: Object, b: Object) {
    a.org == b.org && a.bytes == b.bytes && a.intent == b.intent
  }

  ghost predicate ItemMoves(a: Item, b: Item) {
    a.org == b.org && a.bytes == b.bytes && a.key == b.key && a.intent == b.intent
  }

  /** Rows are never removed, and move only as above. */
  ghost predicate Moves(s: State, t: State) {
    && s.quota == t.quota && |s.intents| <= |t.intents| && |s.ledger| <= |t.ledger| && |s.items| <= |t.items|
    && (forall i | 0 <= i < |s.intents| :: IntentMoves(s.intents[i], t.intents[i]))
    && (forall k | 0 <= k < |s.ledger| :: ObjectMoves(s.ledger[k], t.ledger[k]))
    && (forall j | 0 <= j < |s.items| :: ItemMoves(s.items[j], t.items[j]))
  }

  // ----- tables

  ghost predicate ObjectFine(s: State, k: nat)
    requires k < |s.ledger|
  {
    s.ledger[k].intent.Some? ==> s.ledger[k].intent.value < |s.intents| && s.intents[s.ledger[k].intent.value].org == s.ledger[k].org
  }

  /** An item belongs to the upload that is completed with it, and is as large as its object. */
  ghost predicate ItemFine(s: State, j: nat)
    requires j < |s.items|
  {
    var e := s.items[j];
    && (e.key.Some? ==> e.key.value < |s.ledger| && s.ledger[e.key.value].org == e.org && s.ledger[e.key.value].bytes == e.bytes)
    && (e.intent.Some? ==> e.intent.value < |s.intents| && s.intents[e.intent.value].status.Completed? && s.intents[e.intent.value].item == Some(j))
  }

  ghost predicate IntentFine(s: State, i: nat)
    requires i < |s.intents|
  {
    s.intents[i].status.Completed? ==>
      s.intents[i].item.Some? && s.intents[i].item.value < |s.items| && s.items[s.intents[i].item.value].intent == Some(i)
  }

  ghost predicate OneItemPerKey(items: seq<Item>) {
    forall i, j | 0 <= i < j < |items| && items[i].key.Some? :: items[i].key != items[j].key
  }

  ghost predicate Tables(s: State) {
    && (forall k | 0 <= k < |s.ledger| :: ObjectFine(s, k))
    && (forall j | 0 <= j < |s.items| :: ItemFine(s, j))
    && (forall i | 0 <= i < |s.intents| :: IntentFine(s, i))
    && OneItemPerKey(s.items)
  }

  // ----- calls

  ghost predicate NoItemFor(items: seq<Item>, k: nat) {
    forall j | 0 <= j < |items| :: items[j].key != Some(k)
  }

  ghost predicate CallFine(s: State, x: Call) {
    match x
    case Creating(_, _, _) => true
    case Seen(i, _) => i < |s.intents|
    case Rejecting(i, org) => i < |s.intents| && org == s.intents[i].org
    case Claimed(i) => i < |s.intents| && !s.intents[i].status.Pending?
    case InScanner(i) => i < |s.intents| && !s.intents[i].status.Pending?
    case Cleared(i) => i < |s.intents| && !s.intents[i].status.Pending?
    case Reserving(i, org, bytes, _) => i < |s.intents| && !s.intents[i].status.Pending? && org == s.intents[i].org && bytes == s.intents[i].bytes
    case Stored(i, k) =>
      && i < |s.intents| && !s.intents[i].status.Pending?
      && k < |s.ledger| && s.ledger[k].intent == Some(i) && s.ledger[k].org == s.intents[i].org && s.ledger[k].bytes == s.intents[i].bytes
      && NoItemFor(s.items, k)
    case Failing(i) => i < |s.intents| && !s.intents[i].status.Pending?
    case Cleaning(i, org) => i < |s.intents| && !s.intents[i].status.Pending? && org == s.intents[i].org
  }

  /** Two calls never hold the same quota lock, nor own the same upload. */
  ghost predicate CallsApart(x: Call, y: Call) {
    && (forall org :: !(x.Locks(org) && y.Locks(org)))
    && (forall i :: !(x.Owns(i) && y.Owns(i)))
  }

  ghost predicate Calls(s: State) {
    && (forall c | c in s.calls :: CallFine(s, s.calls[c]))
    && (forall c, d | c in s.calls && d in s.calls && c != d :: CallsApart(s.calls[c], s.calls[d]))
  }

  ghost predicate Orderly(s: State) {
    Tables(s) && Calls(s)
  }

  // ----- tables: elementary moves

  lemma PutMoves(s: State, i: nat, b: Intent)
    requires Tables(s) && i < |s.intents| && IntentMoves(s.intents[i], b) && (b.status.Completed? ==> s.intents[i].status.Completed?)
    ensures Moves(s, Put(s, i, b)) && Tables(Put(s, i, b))
  {
    var t := Put(s, i, b);
    forall k | 0 <= k < |t.ledger| ensures ObjectFine(t, k) { assert ObjectFine(s, k); }
    forall j | 0 <= j < |t.items| ensures ItemFine(t, j) { assert ItemFine(s, j); }
    forall i' | 0 <= i' < |t.intents| ensures IntentFine(t, i') { assert IntentFine(s, i'); }
  }

  /** Only states of ledger rows differ. */
  lemma LedgerMoves(s: State, ledger: seq<Object>)
    requires Tables(s) && |ledger| == |s.ledger| && forall k | 0 <= k < |ledger| :: ObjectMoves(s.ledger[k], ledger[k])
    ensures Moves(s, s.(ledger := ledger)) && Tables(s.(ledger := ledger))
  {
    var t := s.(ledger := ledger);
    forall k | 0 <= k < |t.ledger| ensures ObjectFine(t, k) { assert ObjectFine(s, k) && ObjectMoves(s.ledger[k], ledger[k]); }
    forall j | 0 <= j < |t.items| ensures ItemFine(t, j) {
      assert ItemFine(s, j);
      if t.items[j].key.Some? { assert ObjectMoves(s.ledger[t.items[j].key.value], ledger[t.items[j].key.value]); }
    }
    forall i | 0 <= i < |t.intents| ensures IntentFine(t, i) { assert IntentFine(s, i); }
  }

  lemma FlagMoves(s: State, j: nat)
    requires Tables(s) && j < |s.items|
    ensures var t := s.(items := s.items[j := s.items[j].(infected := true)]); Moves(s, t) && Tables(t)
  {
    var t := s.(items := s.items[j := s.items[j].(infected := true)]);
    forall k | 0 <= k < |t.ledger| ensures ObjectFine(t, k) { assert ObjectFine(s, k); }
    forall j | 0 <= j < |t.items| ensures ItemFine(t, j) { assert ItemFine(s, j); }
    forall i | 0 <= i < |t.intents| ensures IntentFine(t, i) { assert IntentFine(s, i); }
  }

  /** One intent and states of ledger rows change. */
  lemma RewriteMoves(s: State, i: nat, b: Intent, ledger: seq<Object>)
    requires Tables(s) && i < |s.intents| && IntentMoves(s.intents[i], b) && (b.status.Completed? ==> s.intents[i].status.Completed?)
    requires |ledger| == |s.ledger| && forall k | 0 <= k < |ledger| :: ObjectMoves(s.ledger[k], ledger[k])
    ensures Moves(s, Put(s, i, b).(ledger := ledger)) && Tables(Put(s, i, b).(ledger := ledger))
  {
    PutMoves(s, i, b);
    LedgerMoves(Put(s, i, b), ledger);
  }

  /** A new intent and its quarantine object, or a final object. */
  lemma AppendMoves(s: State, intents: seq<Intent>, row: Object)
    requires Tables(s) && |intents| <= 1 && (forall x | x in intents :: x.status.Pending?)
    requires row.intent.Some? ==>
               var i := row.intent.value;
               if i < |s.intents| then s.intents[i].org == row.org else i - |s.intents| < |intents| && intents[i - |s.intents|].org == row.org
    ensures var t := s.(intents := s.intents + intents, ledger := s.ledger + [row]); Moves(s, t) && Tables(t)
  {
    var t := s.(intents := s.intents + intents, ledger := s.ledger + [row]);
    forall k | 0 <= k < |t.ledger| ensures ObjectFine(t, k) {
      if k < |s.ledger| { assert ObjectFine(s, k); }
    }
    forall j | 0 <= j < |t.items| ensures ItemFine(t, j) { assert ItemFine(s, j); }
    forall i | 0 <= i < |t.intents| ensures IntentFine(t, i) {
      if i < |s.intents| { assert IntentFine(s, i); } else { assert t.intents[i] in intents; }
    }
  }

  /** The completing commit: a new item of the size of its object, and its intent completed with it. */
  lemma CompletionMoves(s: State, i: nat, k: nat)
    requires Tables(s) && CallFine(s, Stored(i, k)) && Completion(s, i, k).Some?
    ensures Moves(s, Completion(s, i, k).value) && Tables(Completion(s, i, k).value)
  {
    var t := Completion(s, i, k).value;
    forall j | 0 <= j < |s.intents| ensures IntentMoves(s.intents[j], t.intents[j]) {}
    forall j | 0 <= j < |t.ledger| ensures ObjectFine(t, j) { assert ObjectFine(s, j); }
    forall j | 0 <= j < |t.items| ensures ItemFine(t, j) {
      if j < |s.items| { assert ItemFine(s, j); }
    }
    forall j | 0 <= j < |t.intents| ensures IntentFine(t, j) { assert IntentFine(s, j); }
  }

  /** Which calls are open does not matter to the tables. */
  lemma CallsIrrelevant(s: State, t: State, calls: map<CallId, Call>)
    requires Moves(s, t) && Tables(t)
    ensures Moves(s, t.(calls := calls)) && Tables(t.(calls := calls))
  {
    var u := t.(calls := calls);
    forall k | 0 <= k < |u.ledger| ensures ObjectFine(u, k) { assert ObjectFine(t, k); }
    forall j | 0 <= j < |u.items| ensures ItemFine(u, j) { assert ItemFine(t, j); }
    forall i | 0 <= i < |u.intents| ensures IntentFine(u, i) { assert IntentFine(t, i); }
  }

  lemma IntentAndLedger(s: State, t: State, i: nat)
    requires Tables(s) && i < |s.intents| == |t.intents| && t.intents == s.intents[i := t.intents[i]]
    requires IntentMoves(s.intents[i], t.intents[i]) && (t.intents[i].status.Completed? ==> s.intents[i].status.Completed?)
    requires |t.ledger| == |s.ledger| && forall k | 0 <= k < |t.ledger| :: ObjectMoves(s.ledger[k], t.ledger[k])
    requires t.items == s.items && t.quota == s.quota
    ensures Moves(s, t) && Tables(t)
  {
    var u := Put(s, i, t.intents[i]).(ledger := t.ledger);
    RewriteMoves(s, i, t.intents[i], t.ledger);
    CallsIrrelevant(s, u, t.calls);
    assert t == u.(calls := t.calls);
  }

  // ----- tables: every step

  lemma ReaderTables(s: State, a: Action, c: CallId, i: nat)
    requires Tables(s) && c in s.calls && i < |s.intents|
    ensures Moves(s, ReaderStep(s, a, c, i)) && Tables(ReaderStep(s, a, c, i))
  {
    var t, intent := ReaderStep(s, a, c, i), s.intents[i];
    CallsIrrelevant(s, s, t.calls);
    if intent.status.Pending? {
      PutMoves(s, i, t.intents[i]);
      CallsIrrelevant(s, Put(s, i, t.intents[i]), t.calls);
      RewriteMoves(s, i, t.intents[i], t.ledger);
      CallsIrrelevant(s, Put(s, i, t.intents[i]).(ledger := t.ledger), t.calls);
    }
  }

  lemma OwnerIntent(s: State, a: Action, c: CallId, i: nat)
    requires c in s.calls && i < |s.intents| && s.calls[c].Owns(i) && CallFine(s, s.calls[c]) && !a.Complete?
    ensures var t := OwnerStep(s, a, c, i); |t.intents| == |s.intents| && t.intents == s.intents[i := t.intents[i]]
    ensures var b := OwnerStep(s, a, c, i).intents[i]; IntentMoves(s.intents[i], b) && (b.status.Completed? ==> s.intents[i].status.Completed?)
  {
  }

  lemma OwnerLedger(s: State, a: Action, c: CallId, i: nat)
    requires c in s.calls && i < |s.intents| && !a.Complete? && !a.RegisterFinal?
    ensures var t := OwnerStep(s, a, c, i); |t.ledger| == |s.ledger| && forall k | 0 <= k < |t.ledger| :: ObjectMoves(s.ledger[k], t.ledger[k])
  {
  }

  lemma OwnerRest(s: State, a: Action, c: CallId, i: nat)
    requires c in s.calls && i < |s.intents| && !a.Complete?
    ensures var t := OwnerStep(s, a, c, i); t.items == s.items && t.quota == s.quota
  {
  }

  lemma OwnerTables(s: State, a: Action, c: CallId, i: nat)
    requires Tables(s) && c in s.calls && i < |s.intents| && s.calls[c].Owns(i) && CallFine(s, s.calls[c])
    requires !a.Complete? && !a.RegisterFinal?
    ensures Moves(s, OwnerStep(s, a, c, i)) && Tables(OwnerStep(s, a, c, i))
    ensures OwnerStep(s, a, c, i).items == s.items
  {
    OwnerIntent(s, a, c, i);
    OwnerLedger(s, a, c, i);
    OwnerRest(s, a, c, i);
    IntentAndLedger(s, OwnerStep(s, a, c, i), i);
  }

  lemma RegisterTables(s: State, a: Action, c: CallId, i: nat)
    requires Tables(s) && c in s.calls && i < |s.intents| && s.calls[c].Owns(i) && CallFine(s, s.calls[c]) && a.RegisterFinal?
    ensures Moves(s, OwnerStep(s, a, c, i)) && Tables(OwnerStep(s, a, c, i))
    ensures OwnerStep(s, a, c, i).items == s.items
  {
    var t, x := OwnerStep(s, a, c, i), s.calls[c];
    CallsIrrelevant(s, s, t.calls);
    if t != s {
      AppendMoves(s, [], Object(x.org, x.bytes, Some(i), Held));
      assert s.intents + [] == s.intents;
      CallsIrrelevant(s, s.(intents := s.intents + [], ledger := s.ledger + [Object(x.org, x.bytes, Some(i), Held)]), t.calls);
    }
  }

  lemma CompleteTables(s: State, a: Action, c: CallId, i: nat)
    requires Tables(s) && c in s.calls && i < |s.intents| && s.calls[c].Owns(i) && CallFine(s, s.calls[c]) && a.Complete?
    ensures Moves(s, OwnerStep(s, a, c, i)) && Tables(OwnerStep(s, a, c, i))
  {
    var t, x := OwnerStep(s, a, c, i), s.calls[c];
    CallsIrrelevant(s, s, t.calls);
    if x.Stored? && Completion(s, i, x.key).Some? {
      CompletionMoves(s, i, x.key);
      CallsIrrelevant(s, Completion(s, i, x.key).value, t.calls);
    }
  }

  lemma CreatorTables(s: State, a: Action, c: CallId)
    requires Tables(s) && c in s.calls && s.calls[c].Creating?
    ensures Moves(s, CreatorStep(s, a, c)) && Tables(CreatorStep(s, a, c))
    ensures CreatorStep(s, a, c).items == s.items
  {
    var t, x := CreatorStep(s, a, c), s.calls[c];
    CallsIrrelevant(s, s, t.calls);
    if t != s {
      var intent, row := Intent(x.org, x.bytes, Pending, Unscanned, None, Some(|s.ledger|)), Object(x.org, x.bytes, Some(|s.intents|), Held);
      AppendMoves(s, [intent], row);
      CallsIrrelevant(s, s.(intents := s.intents + [intent], ledger := s.ledger + [row]), t.calls);
    }
  }

  lemma SweepTables(s: State, i: nat)
    requires Tables(s) && i < |s.intents|
    ensures var t := Put(s, i, SweptIntent(s.intents[i])).(ledger := SweptLedger(s, i)); Moves(s, t) && Tables(t)
  {
    RewriteMoves(s, i, SweptIntent(s.intents[i]), SweptLedger(s, i));
  }

  lemma WorkTables(s: State, k: nat, to: ObjectState)
    requires Tables(s) && k < |s.ledger| && WorkerMove(s.ledger[k].state, to)
    ensures var t := s.(ledger := s.ledger[k := s.ledger[k].(state := to)]); Moves(s, t) && Tables(t)
  {
    LedgerMoves(s, s.ledger[k := s.ledger[k].(state := to)]);
  }

  lemma FlagTables(s: State, j: nat, ledger: seq<Object>)
    requires Tables(s) && j < |s.items| && |ledger| == |s.ledger| && forall k | 0 <= k < |ledger| :: ObjectMoves(s.ledger[k], ledger[k])
    ensures var t := s.(items := s.items[j := s.items[j].(infected := true)], ledger := ledger); Moves(s, t) && Tables(t)
  {
    FlagMoves(s, j);
    LedgerMoves(s.(items := s.items[j := s.items[j].(infected := true)]), ledger);
  }

  lemma SystemTables(s: State, a: Action)
    requires Tables(s)
    ensures Moves(s, SystemStep(s, a)) && Tables(SystemStep(s, a))
    ensures |SystemStep(s, a).items| == |s.items| && SystemStep(s, a).calls == s.calls
  {
    var t := SystemStep(s, a);
    if t != s {
      match a
      case Sweep(i) => SweepTables(s, i);
      case Work(k, to) => WorkTables(s, k, to);
      case QueueInfected(j) => FlagTables(s, j, t.ledger);
      case _ =>
    } else {
      CallsIrrelevant(s, s, s.calls);
    }
  }

  lemma OwnTables(s: State, a: Action, c: CallId)
    requires Tables(s) && c in s.calls && CallFine(s, s.calls[c])
    ensures Moves(s, CallStep(s, a, c)) && Tables(CallStep(s, a, c))
  {
    var x := s.calls[c];
    if x.Creating? {
      CreatorTables(s, a, c);
    } else if x.Seen? || x.Rejecting? {
      ReaderTables(s, a, c, x.intent);
    } else if a.Complete? {
      CompleteTables(s, a, c, x.intent);
    } else if a.RegisterFinal? {
      RegisterTables(s, a, c, x.intent);
    } else {
      OwnerTables(s, a, c, x.intent);
    }
  }

  lemma StepTables(s: State, a: Action)
    requires Orderly(s)
    ensures Moves(s, Step(s, a)) && Tables(Step(s, a))
  {
    if a.Sweep? || a.Work? || a.QueueInfected? {
      SystemTables(s, a);
    } else if a.BeginCreate? || a.Read? || a.call !in s.calls || a.Drop? || a.Check? {
      CallsIrrelevant(s, s, Step(s, a).calls);
    } else {
      assert CallFine(s, s.calls[a.call]);
      OwnTables(s, a, a.call);
    }
  }

  // ----- calls: every step

  ghost predicate Narrows(x: Call, y: Call) {
    (forall org :: y.Locks(org) ==> x.Locks(org)) && forall i :: y.Owns(i) ==> x.Owns(i)
  }

  ghost predicate Fits(s: State, c: CallId, y: Call) {
    forall d | d in s.calls && d != c :: CallsApart(y, s.calls[d]) && CallsApart(s.calls[d], y)
  }

  lemma NarrowFits(s: State, c: CallId, y: Call)
    requires Calls(s) && c in s.calls && Narrows(s.calls[c], y)
    ensures Fits(s, c, y)
  {
    forall d | d in s.calls && d != c ensures CallsApart(y, s.calls[d]) && CallsApart(s.calls[d], y) {
      assert CallsApart(s.calls[c], s.calls[d]) && CallsApart(s.calls[d], s.calls[c]);
    }
  }

  /** A call that takes a free quota lock and owns no more than before. */
  lemma LockFits(s: State, c: CallId, y: Call, org: OrgId)
    requires Calls(s) && QuotaFree(s, org) && (forall o :: y.Locks(o) ==> o == org)
    requires forall i :: y.Owns(i) ==> c in s.calls && s.calls[c].Owns(i)
    ensures Fits(s, c, y)
  {
    forall d | d in s.calls && d != c ensures CallsApart(y, s.calls[d]) && CallsApart(s.calls[d], y) {
      if c in s.calls { assert CallsApart(s.calls[c], s.calls[d]) && CallsApart(s.calls[d], s.calls[c]); }
    }
  }

  /** A pending intent has no owner, so its first claim makes one. */
  lemma ClaimFits(s: State, c: CallId, i: nat)
    requires Calls(s) && i < |s.intents| && s.intents[i].status.Pending?
    ensures Fits(s, c, Claimed(i))
  {
    forall d | d in s.calls && d != c ensures CallsApart(Claimed(i), s.calls[d]) && CallsApart(s.calls[d], Claimed(i)) {
      assert CallFine(s, s.calls[d]);
    }
  }

  /** What the acting call becomes, if it goes on. */
  lemma ReaderFits(s: State, a: Action, c: CallId, i: nat)
    requires Orderly(s) && c in s.calls && i < |s.intents| && (s.calls[c].Seen? || s.calls[c].Rejecting?) && s.calls[c].intent == i
    ensures var t := ReaderStep(s, a, c, i); c in t.calls ==> CallFine(t, t.calls[c]) && Fits(s, c, t.calls[c])
  {
    var t, x := ReaderStep(s, a, c, i), s.calls[c];
    assert CallFine(s, x);
    if c in t.calls {
      if t.calls[c] == x {
        NarrowFits(s, c, x);
      } else if a.BeginReject? {
        LockFits(s, c, t.calls[c], s.intents[i].org);
      } else {
        ClaimFits(s, c, i);
      }
    }
  }

  lemma OwnerLocks(s: State, a: Action, c: CallId, i: nat)
    requires Orderly(s) && c in s.calls && i < |s.intents| && s.calls[c].Owns(i) && (a.BeginReserve? || a.BeginClean?)
    ensures var t := OwnerStep(s, a, c, i); c in t.calls ==> Fits(s, c, t.calls[c])
  {
    var t, x := OwnerStep(s, a, c, i), s.calls[c];
    if t.calls[c] == x { NarrowFits(s, c, x); } else { LockFits(s, c, t.calls[c], s.intents[i].org); }
  }

  lemma OwnerNarrows(s: State, a: Action, c: CallId, i: nat)
    requires c in s.calls && i < |s.intents| && s.calls[c].Owns(i) && !a.BeginReserve? && !a.BeginClean?
    ensures var t := OwnerStep(s, a, c, i); c in t.calls ==> Narrows(s.calls[c], t.calls[c])
  {
  }

  lemma OwnerFits(s: State, a: Action, c: CallId, i: nat)
    requires Orderly(s) && c in s.calls && i < |s.intents| && s.calls[c].Owns(i)
    ensures var t := OwnerStep(s, a, c, i); c in t.calls ==> Fits(s, c, t.calls[c])
  {
    var t := OwnerStep(s, a, c, i);
    if a.BeginReserve? || a.BeginClean? {
      OwnerLocks(s, a, c, i);
    } else {
      OwnerNarrows(s, a, c, i);
      if c in t.calls { NarrowFits(s, c, t.calls[c]); }
    }
  }

  lemma NewKeyIsFree(s: State)
    requires Tables(s)
    ensures NoItemFor(s.items, |s.ledger|)
  {
    forall j | 0 <= j < |s.items| ensures s.items[j].key != Some(|s.ledger|) { assert ItemFine(s, j); }
  }

  lemma OwnerFine(s: State, a: Action, c: CallId, i: nat)
    requires Orderly(s) && c in s.calls && i < |s.intents| && s.calls[c].Owns(i)
    ensures var t := OwnerStep(s, a, c, i); c in t.calls ==> CallFine(t, t.calls[c])
  {
    assert CallFine(s, s.calls[c]);
    NewKeyIsFree(s);
  }

  lemma FineMoves(s: State, t: State, x: Call)
    requires Moves(s, t) && CallFine(s, x) && (x.Stored? ==> NoItemFor(t.items, x.key))
    ensures CallFine(t, x)
  {
    if !x.Creating? { assert IntentMoves(s.intents[x.intent], t.intents[x.intent]); }
    if x.Stored? { assert ObjectMoves(s.ledger[x.key], t.ledger[x.key]); }
  }

  lemma SameItemsNoItem(s: State, t: State, k: nat)
    requires Moves(s, t) && |s.items| == |t.items| && NoItemFor(s.items, k)
    ensures NoItemFor(t.items, k)
  {
    forall j | 0 <= j < |t.items| ensures t.items[j].key != Some(k) { assert ItemMoves(s.items[j], t.items[j]); }
  }

  lemma OwnerItems(s: State, a: Action, c: CallId, i: nat)
    requires c in s.calls && i < |s.intents|
    ensures var items := OwnerStep(s, a, c, i).items;
            items == s.items || (s.calls[c].Stored? && a.Complete? && items == s.items + [items[|s.items|]] && items[|s.items|].key == Some(s.calls[c].key))
  {
  }

  lemma OwnItems(s: State, a: Action, c: CallId)
    requires c in s.calls
    ensures var items := CallStep(s, a, c).items;
            items == s.items || (s.calls[c].Stored? && items == s.items + [items[|s.items|]] && items[|s.items|].key == Some(s.calls[c].key))
  {
    var x := s.calls[c];
    if !x.Creating? && !x.Seen? && !x.Rejecting? && x.intent < |s.intents| { OwnerItems(s, a, c, x.intent); }
  }

  /** An item that appears is for the object of the completing call, no other. */
  lemma StepItems(s: State, a: Action)
    requires !a.Sweep? && !a.Work? && !a.QueueInfected?
    ensures var items := Step(s, a).items;
            || items == s.items
            || (a.call in s.calls && s.calls[a.call].Stored? && items == s.items + [items[|s.items|]] && items[|s.items|].key == Some(s.calls[a.call].key))
  {
    if !a.BeginCreate? && !a.Read? && a.call in s.calls && !a.Drop? && !a.Check? { OwnItems(s, a, a.call); }
  }

  lemma KeysApart(s: State, c: CallId, d: CallId)
    requires Calls(s) && c in s.calls && d in s.calls && c != d && s.calls[c].Stored? && s.calls[d].Stored?
    ensures s.calls[c].key != s.calls[d].key
  {
    assert CallFine(s, s.calls[c]) && CallFine(s, s.calls[d]) && CallsApart(s.calls[c], s.calls[d]);
    assert !(s.calls[c].Owns(s.calls[c].intent) && s.calls[d].Owns(s.calls[c].intent));
  }

  lemma OthersKeepTheirKey(s: State, a: Action, d: CallId)
    requires Orderly(s) && d in s.calls && s.calls[d].Stored?
    requires a.Sweep? || a.Work? || a.QueueInfected? || a.call != d
    ensures NoItemFor(Step(s, a).items, s.calls[d].key)
  {
    assert CallFine(s, s.calls[d]);
    if a.Sweep? || a.Work? || a.QueueInfected? {
      StepTables(s, a);
      SystemTables(s, a);
      SameItemsNoItem(s, Step(s, a), s.calls[d].key);
    } else {
      StepItems(s, a);
      if Step(s, a).items != s.items { KeysApart(s, a.call, d); }
    }
  }

  lemma StepCalls(s: State, a: Action)
    requires Orderly(s)
    ensures Calls(Step(s, a))
  {
    var t := Step(s, a);
    StepTables(s, a);
    if a.Sweep? || a.Work? || a.QueueInfected? {
      SystemTables(s, a);
      forall d | d in t.calls ensures CallFine(t, t.calls[d]) {
        assert CallFine(s, s.calls[d]);
        if s.calls[d].Stored? { OthersKeepTheirKey(s, a, d); }
        FineMoves(s, t, s.calls[d]);
      }
    } else {
      ActorFits(s, a);
      forall d | d in t.calls && d != a.call ensures d in s.calls && t.calls[d] == s.calls[d] && CallFine(t, t.calls[d]) {
        OtherCallsStay(s, a, d);
        assert CallFine(s, s.calls[d]);
        if s.calls[d].Stored? { OthersKeepTheirKey(s, a, d); }
        FineMoves(s, t, s.calls[d]);
      }
      forall c, d | c in t.calls && d in t.calls && c != d ensures CallsApart(t.calls[c], t.calls[d]) {}
    }
  }

  /** The step of call `c` leaves call `d` as it is. */
  ghost predicate Aside(s: State, t: State, d: CallId) {
    (d in s.calls <==> d in t.calls) && (d in s.calls ==> t.calls[d] == s.calls[d])
  }

  lemma OwnerAside(s: State, a: Action, c: CallId, i: nat, d: CallId)
    requires c in s.calls && i < |s.intents| && d != c
    ensures Aside(s, OwnerStep(s, a, c, i), d)
  {
  }

  lemma ReaderAside(s: State, a: Action, c: CallId, i: nat, d: CallId)
    requires c in s.calls && i < |s.intents| && d != c
    ensures Aside(s, ReaderStep(s, a, c, i), d)
  {
  }

  lemma CheckAside(s: State, c: CallId, d: CallId)
    requires c in s.calls && d != c
    ensures Aside(s, CheckStep(s, c), d)
  {
  }

  lemma OwnAside(s: State, a: Action, c: CallId, d: CallId)
    requires c in s.calls && d != c
    ensures Aside(s, CallStep(s, a, c), d)
  {
    var x := s.calls[c];
    if !x.Creating? && x.intent < |s.intents| {
      if x.Seen? || x.Rejecting? { ReaderAside(s, a, c, x.intent, d); } else { OwnerAside(s, a, c, x.intent, d); }
    }
  }

  lemma OtherCallsStay(s: State, a: Action, d: CallId)
    requires !a.Sweep? && !a.Work? && !a.QueueInfected? && d != a.call
    ensures Aside(s, Step(s, a), d)
  {
    if a.BeginCreate? || a.Read? || a.call !in s.calls || a.Drop? {
    } else if a.Check? {
      CheckAside(s, a.call, d);
    } else {
      OwnAside(s, a, a.call, d);
    }
  }

  lemma ReadFits(s: State, a: Action)
    requires (a.BeginCreate? || a.Read? || a.Drop? || a.Check?) && Calls(s) && a.call in s.calls
    ensures var t := Step(s, a); a.call in t.calls ==> CallFine(t, t.calls[a.call]) && Fits(s, a.call, t.calls[a.call])
  {
    var t, c := Step(s, a), a.call;
    assert CallFine(s, s.calls[c]);
    if c in t.calls { NarrowFits(s, c, t.calls[c]); }
  }

  lemma OpeningFits(s: State, a: Action)
    requires Orderly(s) && (a.BeginCreate? || a.Read? || a.Drop? || a.Check?)
    ensures var t := Step(s, a); a.call in t.calls ==> CallFine(t, t.calls[a.call]) && Fits(s, a.call, t.calls[a.call])
  {
    var t, c := Step(s, a), a.call;
    if c in s.calls {
      ReadFits(s, a);
    } else if a.BeginCreate? && c in t.calls {
      LockFits(s, c, t.calls[c], a.org);
    }
  }

  lemma OwnFits(s: State, a: Action, c: CallId)
    requires Orderly(s) && c in s.calls
    ensures var t := CallStep(s, a, c); c in t.calls ==> CallFine(t, t.calls[c]) && Fits(s, c, t.calls[c])
  {
    var x := s.calls[c];
    assert CallFine(s, x);
    if x.Creating? {
      NarrowFits(s, c, x);
    } else if x.Seen? || x.Rejecting? {
      ReaderFits(s, a, c, x.intent);
    } else {
      OwnerFits(s, a, c, x.intent);
      OwnerFine(s, a, c, x.intent);
    }
  }

  lemma ActorFits(s: State, a: Action)
    requires Orderly(s) && !a.Sweep? && !a.Work? && !a.QueueInfected?
    ensures var t := Step(s, a); a.call in t.calls ==> CallFine(t, t.calls[a.call]) && Fits(s, a.call, t.calls[a.call])
  {
    if a.BeginCreate? || a.Read? || a.Drop? || a.Check? {
      OpeningFits(s, a);
    } else if a.call in s.calls {
      OwnFits(s, a, a.call);
    }
  }

  // ----- every run

  /** No call is open; completed intents and the items that came from uploads belong together. */
  ghost predicate Quiet(s: State) {
    s.calls == map[] && Tables(s)
  }

  lemma {:induction false} RunIsOrderly(s: State, actions: seq<Action>)
    requires Quiet(s)
    ensures Orderly(Play(s, actions))
  {
    if actions != [] {
      RunIsOrderly(s, actions[..|actions| - 1]);
      StepTables(Play(s, actions[..|actions| - 1]), actions[|actions| - 1]);
      StepCalls(Play(s, actions[..|actions| - 1]), actions[|actions| - 1]);
    }
  }

  /** What some interleaving makes of a quiet state. */
  ghost predicate Reachable(t: State) {
    exists s, actions :: Quiet(s) && t == Play(s, actions)
  }

  lemma ReachableIsOrderly(t: State)
    requires Reachable(t)
    ensures Orderly(t)
  {
    var s, actions :| Quiet(s) && t == Play(s, actions);
    RunIsOrderly(s, actions);
  }

  /** In every interleaving an upload yields at most one item, and exactly one if and only if it is completed. */
  lemma OneItemPerUpload(t: State, i: nat)
    requires Reachable(t) && i < |t.intents|
    ensures forall j, k | 0 <= j < |t.items| && 0 <= k < |t.items| && t.items[j].intent == t.items[k].intent == Some(i) :: j == k
    ensures t.intents[i].status.Completed? <==> exists j :: 0 <= j < |t.items| && t.items[j].intent == Some(i)
  {
    ReachableIsOrderly(t);
    assert IntentFine(t, i);
    forall j | 0 <= j < |t.items| && t.items[j].intent == Some(i)
      ensures t.intents[i].status.Completed? && t.intents[i].item == Some(j)
    {
      assert ItemFine(t, j);
    }
  }

  /**
   Whatever step comes next in a run: a settled upload stays as it is, a claimed one is never pending
   again, and completion comes from a clean scan.
   */
  lemma SettledUploadsStay(t: State, a: Action, i: nat)
    requires Reachable(t) && i < |t.intents|
    ensures i < |Step(t, a).intents|
    ensures var before, after := t.intents[i], Step(t, a).intents[i];
            && (Terminal(before.status) ==> after == before)
            && (!before.status.Pending? ==> !after.status.Pending?)
            && (after.status.Completed? && !before.status.Completed? ==> before.status.Scanning? && before.scan.Clean?)
  {
    ReachableIsOrderly(t);
    StepTables(t, a);
    assert IntentMoves(t.intents[i], Step(t, a).intents[i]);
  }

  /** The step that completes an upload is its commit: with it come its item, of the declared size, and its retained object. */
  lemma CompletionIsAtomic(t: State, a: Action, i: nat)
    requires Reachable(t) && i < |t.intents| && !t.intents[i].status.Completed?
    requires i < |Step(t, a).intents| && Step(t, a).intents[i].status.Completed?
    ensures var u := Step(t, a);
            && |u.items| == |t.items| + 1 && u.intents[i].item == Some(|t.items|)
            && u.items[|t.items|].intent == Some(i) && u.items[|t.items|].bytes == u.intents[i].bytes
            && u.items[|t.items|].key.Some? && u.items[|t.items|].key.value < |u.ledger|
            && u.ledger[u.items[|t.items|].key.value] == Object(u.intents[i].org, u.intents[i].bytes, Some(i), Retained)
  {
    ReachableIsOrderly(t);
    CompletingStep(t, a, i);
  }

  /** Only the completing commit makes an intent completed. */
  lemma OnlyCommitsComplete(t: State, a: Action, i: nat)
    requires Orderly(t) && i < |t.intents| && !t.intents[i].status.Completed? && Step(t, a).intents[i].status.Completed?
    requires i < |Step(t, a).intents|
    ensures a.Complete? && a.call in t.calls && t.calls[a.call].Stored? && t.calls[a.call].intent == i
  {
    if a.Sweep? || a.Work? || a.QueueInfected? || a.BeginCreate? || a.Read? || a.call !in t.calls || a.Drop? || a.Check? {
    } else {
      assert CallFine(t, t.calls[a.call]);
      OwnTouches(t, a, a.call, i);
    }
  }

  lemma OwnTouches(s: State, a: Action, c: CallId, j: nat)
    requires c in s.calls && j < |s.intents| && CallFine(s, s.calls[c])
    ensures var x, after := s.calls[c], CallStep(s, a, c).intents;
            && |s.intents| <= |after|
            && (after[j] != s.intents[j] ==> !x.Creating? && x.intent == j && (s.intents[j].status.Pending? || x.Owns(j)))
            && (after[j].status.Completed? && !s.intents[j].status.Completed? ==> a.Complete? && x.Stored?)
  {
    var x := s.calls[c];
    if !x.Creating? {
      if x.Seen? || x.Rejecting? { ReaderTouches(s, a, c, x.intent, j); } else { OwnerTouches(s, a, c, x.intent, j); }
    }
  }

  lemma ReaderTouches(s: State, a: Action, c: CallId, i: nat, j: nat)
    requires c in s.calls && i < |s.intents| && j < |s.intents|
    ensures var after := ReaderStep(s, a, c, i).intents;
            |after| == |s.intents| && (after[j] == s.intents[j] || (j == i && s.intents[j].status.Pending? && !after[j].status.Completed?))
  {
  }

  lemma OwnerTouches(s: State, a: Action, c: CallId, i: nat, j: nat)
    requires c in s.calls && i < |s.intents| && j < |s.intents| && s.calls[c].Owns(i)
    ensures var after := OwnerStep(s, a, c, i).intents;
            && |after| == |s.intents|
            && (j != i ==> after[j] == s.intents[j])
            && (after[j].status.Completed? && !s.intents[j].status.Completed? ==> a.Complete? && s.calls[c].Stored?)
  {
  }

  lemma CompletingStep(t: State, a: Action, i: nat)
    requires Orderly(t) && i < |t.intents| && i < |Step(t, a).intents|
    requires !t.intents[i].status.Completed? && Step(t, a).intents[i].status.Completed?
    ensures var u := Step(t, a);
            && |u.items| == |t.items| + 1 && u.intents[i].item == Some(|t.items|)
            && u.items[|t.items|].intent == Some(i) && u.items[|t.items|].bytes == u.intents[i].bytes
            && u.items[|t.items|].key.Some? && u.items[|t.items|].key.value < |u.ledger|
            && u.ledger[u.items[|t.items|].key.value] == Object(u.intents[i].org, u.intents[i].bytes, Some(i), Retained)
  {
    OnlyCommitsComplete(t, a, i);
    assert CallFine(t, t.calls[a.call]);
  }

  lemma OwnedOnce(t: State, i: nat, c: CallId, d: CallId)
    requires Orderly(t) && c in t.calls && d in t.calls && t.calls[c].Owns(i) && t.calls[d].Owns(i)
    ensures c == d
  {
    assert c != d ==> CallsApart(t.calls[c], t.calls[d]);
  }

  /**
   At most one call owns an upload, and a claimed upload is moved only by that call or by the sweeper: no
   replay, rejection or expiry of another call touches it.
   */
  lemma ClaimedUploadIsExclusive(t: State, a: Action, i: nat)
    requires Reachable(t) && i < |t.intents| && !t.intents[i].status.Pending? && !a.Sweep?
    requires !a.Work? && !a.QueueInfected? ==> !(a.call in t.calls && t.calls[a.call].Owns(i))
    ensures i < |Step(t, a).intents| && Step(t, a).intents[i] == t.intents[i]
    ensures forall c, d | c in t.calls && d in t.calls && t.calls[c].Owns(i) && t.calls[d].Owns(i) :: c == d
  {
    ReachableIsOrderly(t);
    ExclusiveStep(t, a, i);
    forall c, d | c in t.calls && d in t.calls && t.calls[c].Owns(i) && t.calls[d].Owns(i) ensures c == d { OwnedOnce(t, i, c, d); }
  }

  lemma ExclusiveStep(t: State, a: Action, i: nat)
    requires Orderly(t) && i < |t.intents| && !t.intents[i].status.Pending? && !a.Sweep?
    requires !a.Work? && !a.QueueInfected? ==> !(a.call in t.calls && t.calls[a.call].Owns(i))
    ensures i < |Step(t, a).intents| && Step(t, a).intents[i] == t.intents[i]
  {
    if a.Work? || a.QueueInfected? || a.BeginCreate? || a.Read? || a.call !in t.calls || a.Drop? || a.Check? {
    } else {
      assert CallFine(t, t.calls[a.call]);
      OwnTouches(t, a, a.call, i);
    }
  }
}
