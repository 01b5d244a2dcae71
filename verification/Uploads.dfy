/**
 Evidence uploads of all organizations at once: intents, the object ledger and the evidence items, and
 the calls that work on them, one SQL statement or commit at a time. Rows are numbered as they are
 inserted. Storage and the malware scanner may answer anything; a call may die at any point.
 */
module Uploads {
  import opened Outcomes

  type OrgId = nat
  type CallId = nat

  datatype Status = Pending | Uploading | Scanning | Completed | Rejected | Expired | Infected | ScanFailed

  datatype ScanStatus = Unscanned | InScan | Clean | FoundInfected | Broken

  datatype Intent = Intent(org: OrgId, bytes: nat, status: Status, scan: ScanStatus, item: Option<nat>, quarantine: Option<nat>)

  datatype ObjectState = Held | Queued | Processing | Done | Retained | Dead

  datatype Object = Object(org: OrgId, bytes: nat, intent: Option<nat>, state: ObjectState)

  /** `intent` remembers which upload the item came from. */
  datatype Item = Item(org: OrgId, bytes: nat, key: Option<nat>, intent: Option<nat>, infected: bool)

  /** Where a call stands. `Creating`, `Rejecting`, `Reserving` and `Cleaning` hold the quota lock of `org`. */
  datatype Call =
    | Creating(org: OrgId, bytes: nat, checked: bool)
    | Seen(intent: nat, status: Status)
    | Rejecting(intent: nat, org: OrgId)
    | Claimed(intent: nat)
    | InScanner(intent: nat)
    | Cleared(intent: nat)
    | Reserving(intent: nat, org: OrgId, bytes: nat, checked: bool)
    | Stored(intent: nat, key: nat)
    | Failing(intent: nat)
    | Cleaning(intent: nat, org: OrgId)
  {
    predicate Locks(o: OrgId) {
      (Creating? || Rejecting? || Reserving? || Cleaning?) && org == o
    }

    /** The call has claimed the upload of its intent. */
    predicate Owns(i: nat) {
      (Claimed? || InScanner? || Cleared? || Reserving? || Stored? || Failing? || Cleaning?) && intent == i
    }
  }

  datatype State = State(quota: nat, intents: seq<Intent>, ledger: seq<Object>, items: seq<Item>, calls: map<CallId, Call>)

  // ----- reserved bytes

  function Sum<T>(s: seq<T>, f: T -> nat): nat {
    if s == [] then 0 else Sum(s[..|s| - 1], f) + f(s[|s| - 1])
  }

  predicate Charged(o: ObjectState) {
    o.Held? || o.Queued? || o.Processing? || o.Dead?
  }

  /** An item counts as stored unless its object has a ledger row that is not retained. */
  function StoredBytes(ledger: seq<Object>, org: OrgId): Item -> nat {
    (e: Item) => if e.org == org && !(e.key.Some? && e.key.value < |ledger| && !ledger[e.key.value].state.Retained?) then e.bytes else 0
  }

  function ChargedBytes(org: OrgId): Object -> nat {
    (o: Object) => if o.org == org && Charged(o.state) then o.bytes else 0
  }

  /** An intent from before the ledger reserves its declared size until it is completed. */
  function LegacyBytes(org: OrgId): Intent -> nat {
    (i: Intent) => if i.org == org && !i.status.Completed? && i.quarantine.None? then i.bytes else 0
  }

  function ReservedBytes(s: State, org: OrgId): nat {
    Sum(s.items, StoredBytes(s.ledger, org)) + Sum(s.ledger, ChargedBytes(org)) + Sum(s.intents, LegacyBytes(org))
  }

  // ----- the steps

  datatype Action =
    // createUploadIntent
    | BeginCreate(call: CallId, org: OrgId, bytes: nat)
    | RegisterIntent(call: CallId)
    // completeUploadIntent and rejectIntent
    | Read(call: CallId, intent: nat)
    | Expire(call: CallId)
    | BeginReject(call: CallId)
    | CommitReject(call: CallId)
    | Claim(call: CallId)
    | StartScan(call: CallId)
    | ScanBroken(call: CallId)
    | ScanInfected(call: CallId)
    | ScanClean(call: CallId)
    | BeginReserve(call: CallId)
    | RegisterFinal(call: CallId)
    | Complete(call: CallId, acknowledged: bool)
    | Fail(call: CallId)
    | BeginClean(call: CallId)
    | CommitClean(call: CallId)
    // requireObjectCapacity, in a transaction that creates or reserves
    | Check(call: CallId)
    // refusal, answered replay, roll-back or crash
    | Drop(call: CallId)
    // the sweeper, the clean-up worker, and a later scan that finds an item infected
    | Sweep(intent: nat)
    | Work(key: nat, to: ObjectState)
    | QueueInfected(item: nat)

  predicate QuotaFree(s: State, org: OrgId) {
    forall c | c in s.calls :: !s.calls[c].Locks(org)
  }

  function End(s: State, c: CallId): State {
    s.(calls := s.calls - {c})
  }

  function Go(s: State, c: CallId, call: Call): State {
    s.(calls := s.calls[c := call])
  }

  function Put(s: State, i: nat, intent: Intent): State
    requires i < |s.intents|
  {
    s.(intents := s.intents[i := intent])
  }

  /** Rows of the intent that are still held move on. */
  function Moved(ledger: seq<Object>, i: nat, to: ObjectState): seq<Object> {
    seq(|ledger|, k requires 0 <= k < |ledger| => if ledger[k].intent == Some(i) && ledger[k].state.Held? then ledger[k].(state := to) else ledger[k])
  }

  function Queue(s: State, i: nat): State {
    s.(ledger := Moved(s.ledger, i, Queued))
  }

  /** The commit that creates the item, completes the intent and settles its objects; all or nothing. */
  function Completion(s: State, i: nat, k: nat): (r: Option<State>)
    requires i < |s.intents| && k < |s.ledger|
  {
    var intent, final := s.intents[i], s.ledger[k];
    if intent.status.Scanning? && intent.scan.Clean? && final.intent == Some(i) && final.state.Held? then
      Some(s.(items := s.items + [Item(intent.org, intent.bytes, Some(k), Some(i), false)],
              intents := s.intents[i := intent.(status := Completed, item := Some(|s.items|))],
              ledger := Moved(s.ledger[k := final.(state := Retained)], i, Done)))
    else None
  }

  /** What the sweeper makes of a held object: kept if it is the clean item of a completed intent. */
  function SweptState(s: State, i: nat, k: nat): ObjectState
    requires i < |s.intents|
  {
    var item := s.intents[i].item;
    if s.intents[i].status.Completed? && item.Some? && item.value < |s.items|
       && s.items[item.value].key == Some(k) && !s.items[item.value].infected then Retained
    else Queued
  }

  function SweptLedger(s: State, i: nat): seq<Object>
    requires i < |s.intents|
  {
    seq(|s.ledger|, k requires 0 <= k < |s.ledger| =>
      if s.ledger[k].intent == Some(i) && s.ledger[k].state.Held? then s.ledger[k].(state := SweptState(s, i, k)) else s.ledger[k])
  }

  function SweptIntent(intent: Intent): Intent {
    if intent.status.Pending? then intent.(status := Expired)
    else if intent.status.Uploading? || intent.status.Scanning? then intent.(status := ScanFailed, scan := Broken)
    else intent
  }

  predicate HasHeld(s: State, i: nat) {
    exists k :: 0 <= k < |s.ledger| && s.ledger[k].intent == Some(i) && s.ledger[k].state.Held?
  }

  predicate WorkerMove(from: ObjectState, to: ObjectState) {
    (from.Queued? && to.Processing?) || (from.Processing? && (to.Processing? || to.Queued? || to.Dead? || to.Done?))
  }

  /** The steps of a call that has claimed intent `i`. */
  function OwnerStep(s: State, a: Action, c: CallId, i: nat): State
    requires c in s.calls && i < |s.intents|
  {
    var x, intent := s.calls[c], s.intents[i];
    match a
    case StartScan(_) =>
      if !x.Claimed? then s
      else
        var t := Go(s, c, InScanner(i));
        if intent.status.Uploading? then Put(t, i, intent.(status := Scanning, scan := InScan)) else t
    case ScanBroken(_) =>
      if !x.InScanner? then s
      else if intent.status.Scanning? then Put(Go(s, c, Failing(i)), i, intent.(status := ScanFailed, scan := Broken))
      else Go(s, c, Failing(i))
    case ScanInfected(_) =>
      if !x.InScanner? then s
      else if intent.status.Scanning? then Put(Go(s, c, Failing(i)), i, intent.(status := Infected, scan := FoundInfected))
      else Go(s, c, Failing(i))
    case ScanClean(_) =>
      if !x.InScanner? then s
      else
        var t := Go(s, c, Cleared(i));
        if intent.status.Scanning? then Put(t, i, intent.(scan := Clean)) else t
    case BeginReserve(_) =>
      if x.Cleared? && QuotaFree(s, intent.org) then Go(s, c, Reserving(i, intent.org, intent.bytes, false)) else s
    case RegisterFinal(_) =>
      if x.Reserving? && x.checked then
        Go(s.(ledger := s.ledger + [Object(x.org, x.bytes, Some(i), Held)]), c, Stored(i, |s.ledger|))
      else s
    case Complete(_, acknowledged) =>
      if !x.Stored? || x.key >= |s.ledger| then s
      else
        var done := Completion(s, i, x.key);
        if done.None? then Go(s, c, Failing(i))
        else if acknowledged then End(done.value, c)
        else Go(done.value, c, Failing(i))
    case Fail(_) => if x.Failing? || x.Cleaning? then s else Go(s, c, Failing(i))
    case BeginClean(_) =>
      if x.Failing? && QuotaFree(s, intent.org) then Go(s, c, Cleaning(i, intent.org)) else s
    case CommitClean(_) =>
      if !x.Cleaning? then s
      else
        var open := intent.status.Pending? || intent.status.Uploading? || intent.status.Scanning?;
        Queue(Put(End(s, c), i, if open then intent.(status := Rejected) else intent), i)
    case _ => s
  }

  /** The steps of a call that has only looked at intent `i`. */
  function ReaderStep(s: State, a: Action, c: CallId, i: nat): State
    requires c in s.calls && i < |s.intents|
  {
    var x, intent := s.calls[c], s.intents[i];
    match a
    case Expire(_) =>
      if !x.Seen? then s else if intent.status.Pending? then Put(End(s, c), i, intent.(status := Expired)) else End(s, c)
    case BeginReject(_) =>
      if x.Seen? && x.status.Pending? && QuotaFree(s, intent.org) then Go(s, c, Rejecting(i, intent.org)) else s
    case CommitReject(_) =>
      if !x.Rejecting? then s
      else if intent.status.Pending? then Queue(Put(End(s, c), i, intent.(status := Rejected)), i)
      else End(s, c)
    case Claim(_) =>
      if !x.Seen? || !x.status.Pending? then s
      else if intent.status.Pending? then Put(Go(s, c, Claimed(i)), i, intent.(status := Uploading))
      else End(s, c)
    case _ => s
  }

  function CreatorStep(s: State, a: Action, c: CallId): State
    requires c in s.calls && s.calls[c].Creating?
  {
    var x := s.calls[c];
    if a.RegisterIntent? && x.checked then
      End(s.(intents := s.intents + [Intent(x.org, x.bytes, Pending, Unscanned, None, Some(|s.ledger|))],
             ledger := s.ledger + [Object(x.org, x.bytes, Some(|s.intents|), Held)]), c)
    else s
  }

  function CheckStep(s: State, c: CallId): State
    requires c in s.calls
  {
    var x := s.calls[c];
    if (x.Creating? || x.Reserving?) && !x.checked then
      if ReservedBytes(s, x.org) + x.bytes <= s.quota then Go(s, c, x.(checked := true))
      else if x.Creating? then End(s, c)
      else Go(s, c, Failing(x.intent))
    else s
  }

  function SystemStep(s: State, a: Action): State {
    match a
    case Sweep(i) =>
      if i < |s.intents| && HasHeld(s, i) then Put(s, i, SweptIntent(s.intents[i])).(ledger := SweptLedger(s, i)) else s
    case Work(k, to) =>
      if k < |s.ledger| && WorkerMove(s.ledger[k].state, to) then s.(ledger := s.ledger[k := s.ledger[k].(state := to)]) else s
    case QueueInfected(j) =>
      if j < |s.items| && s.items[j].key.Some? && s.items[j].key.value < |s.ledger| then
        var k := s.items[j].key.value;
        var row := s.ledger[k];
        s.(items := s.items[j := s.items[j].(infected := true)],
           ledger := if row.state.Held? || row.state.Retained? then s.ledger[k := row.(state := Queued)] else s.ledger)
      else s
    case _ => s
  }

  /** The next step of an open call, according to how far it has come. */
  function CallStep(s: State, a: Action, c: CallId): State
    requires c in s.calls
  {
    var x := s.calls[c];
    if x.Creating? then CreatorStep(s, a, c)
    else if x.intent >= |s.intents| then s
    else if x.Seen? || x.Rejecting? then ReaderStep(s, a, c, x.intent)
    else OwnerStep(s, a, c, x.intent)
  }

  /** One step of the whole system; a step that does not apply, or is blocked, changes nothing. */
  function Step(s: State, a: Action): State {
    if a.Sweep? || a.Work? || a.QueueInfected? then SystemStep(s, a)
    else if a.BeginCreate? then
      if a.call !in s.calls && QuotaFree(s, a.org) then Go(s, a.call, Creating(a.org, a.bytes, false)) else s
    else if a.Read? then
      if a.call !in s.calls && a.intent < |s.intents| then Go(s, a.call, Seen(a.intent, s.intents[a.intent].status)) else s
    else if a.call !in s.calls then s
    else if a.Drop? then End(s, a.call)
    else if a.Check? then CheckStep(s, a.call)
    else CallStep(s, a, a.call)
  }

  function Play(s: State, actions: seq<Action>): State {
    if actions == [] then s else Step(Play(s, actions[..|actions| - 1]), actions[|actions| - 1])
  }
}
