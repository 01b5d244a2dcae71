/**
 Which migration histories a start accepts, and what serialized starts leave behind. `frozen` is the
 list of baseline names, the shipped one being `SCHEMA_BASELINE`.
 */
module Migrations {
  import opened Outcomes
  import opened DecimalDigits

  const SCHEMA_BASELINE: seq<string> := [
    "001_initial_schema.ts",
    "002_pilot_ready_workspace.ts",
    "002_quantity_aware_lot_genealogy.ts",
    "003_verified_sourcing.ts",
    "004_complete_first_supply_workflow.ts",
    "005_trade_fulfilment_workflow.ts",
    "006_repair_trade_fulfilment_columns.ts",
    "007_payment_protection.ts",
    "008_payment_terms_draft_default.ts",
    "009_supplier_paths_and_real_sourcing.ts",
    "010_live_traceability_wiring.ts"
  ]

  const SCHEMA_BASELINE_VERSION := 10

  predicate Distinct(names: seq<string>) {
    forall i, j | 0 <= i < j < |names| :: names[i] != names[j]
  }

  function Elements(names: seq<string>): set<string> {
    set name | name in names
  }

  lemma BaselineIsDistinct()
    ensures Distinct(SCHEMA_BASELINE)
  {
    forall i, j | 0 <= i < j < |SCHEMA_BASELINE| ensures SCHEMA_BASELINE[i] != SCHEMA_BASELINE[j] {
      assert SCHEMA_BASELINE[i][2] != SCHEMA_BASELINE[j][2] || SCHEMA_BASELINE[i][4] != SCHEMA_BASELINE[j][4];
    }
  }

  // ----- ordinal order

  predicate Less(a: string, b: string)
    decreases |a|
  {
    if b == "" then false
    else if a == "" then true
    else if a[0] != b[0] then a[0] < b[0]
    else Less(a[1..], b[1..])
  }

  lemma {:induction false} LessIsIrreflexive(a: string)
    ensures !Less(a, a)
  {
    if a != "" { LessIsIrreflexive(a[1..]); }
  }

  lemma {:induction false} LessIsTotal(a: string, b: string)
    ensures !(Less(a, b) && Less(b, a))
    ensures Less(a, b) || Less(b, a) || a == b
    ensures !Less(a, a)
  {
    LessIsIrreflexive(a);
    if a != "" && b != "" {
      LessIsTotal(a[1..], b[1..]);
      assert a == [a[0]] + a[1..] && b == [b[0]] + b[1..];
    }
  }

  lemma {:induction false} LessIsTransitive(a: string, b: string, c: string)
    requires Less(a, b) && Less(b, c)
    ensures Less(a, c)
  {
    if a != "" && a[0] == b[0] == c[0] { LessIsTransitive(a[1..], b[1..], c[1..]); }
  }

  ghost predicate Sorted(names: seq<string>) {
    forall i, j | 0 <= i < j < |names| :: Less(names[i], names[j])
  }

  /** Inserts a new name at its place. */
  function Insert(name: string, names: seq<string>): seq<string> {
    if names == [] then [name]
    else if Less(names[|names| - 1], name) then names + [name]
    else Insert(name, names[..|names| - 1]) + [names[|names| - 1]]
  }

  function Sort(names: seq<string>): seq<string> {
    if names == [] then [] else Insert(names[|names| - 1], Sort(names[..|names| - 1]))
  }

  lemma {:induction false} InsertSorts(name: string, names: seq<string>)
    requires Sorted(names) && name !in names
    ensures Sorted(Insert(name, names))
    ensures forall x :: x in Insert(name, names) <==> x in names || x == name
  {
    if names != [] {
      var init, last := names[..|names| - 1], names[|names| - 1];
      assert names == init + [last];
      if Less(last, name) {
        forall i | 0 <= i < |names| ensures Less(names[i], name) {
          if i < |names| - 1 { LessIsTransitive(names[i], last, name); }
        }
      } else {
        InsertSorts(name, init);
        LessIsTotal(last, name);
        var r := Insert(name, init);
        forall i | 0 <= i < |r| ensures Less(r[i], last) {
          assert r[i] in r;
          if r[i] != name {
            var j :| 0 <= j < |init| && init[j] == r[i];
            assert Less(names[j], names[|names| - 1]);
          }
        }
      }
    }
  }

  lemma {:induction false} SortSorts(names: seq<string>)
    requires Distinct(names)
    ensures Sorted(Sort(names))
    ensures forall x :: x in Sort(names) <==> x in names
  {
    if names != [] {
      var init, last := names[..|names| - 1], names[|names| - 1];
      SortSorts(init);
      assert names == init + [last];
      InsertSorts(last, Sort(init));
    }
  }

  lemma SortedIsDistinct(names: seq<string>)
    requires Sorted(names)
    ensures Distinct(names)
  {
    forall i, j | 0 <= i < j < |names| ensures names[i] != names[j] { LessIsTotal(names[i], names[j]); }
  }

  /** A sorted list is determined by its elements. */
  lemma {:induction false} SortedIsUnique(a: seq<string>, b: seq<string>)
    requires Sorted(a) && Sorted(b) && forall x :: x in a <==> x in b
    ensures a == b
  {
    assert b != [] ==> b[0] in b;
    if a != [] {
      assert a[0] in b;
      var x, y := a[|a| - 1], b[|b| - 1];
      SameLast(a, b);
      var a', b' := a[..|a| - 1], b[..|b| - 1];
      SortedIsDistinct(a);
      SortedIsDistinct(b);
      forall z ensures z in a' <==> z in b' {
        InitElements(a, z);
        InitElements(b, z);
      }
      SortedIsUnique(a', b');
      assert a == a' + [x] && b == b' + [y];
    }
  }

  lemma InitElements(a: seq<string>, z: string)
    requires a != [] && Distinct(a)
    ensures z in a[..|a| - 1] <==> z in a && z != a[|a| - 1]
  {
    assert a == a[..|a| - 1] + [a[|a| - 1]];
  }

  lemma SameLast(a: seq<string>, b: seq<string>)
    requires Sorted(a) && Sorted(b) && a != [] && b != [] && forall x :: x in a <==> x in b
    ensures a[|a| - 1] == b[|b| - 1]
  {
    var x, y := a[|a| - 1], b[|b| - 1];
    assert x in b && y in a;
    var i :| 0 <= i < |b| && b[i] == x;
    var j :| 0 <= j < |a| && a[j] == y;
    LessIsTotal(x, y);
  }

  // ----- the plan

  datatype Plan = Plan(baseline: seq<string>, forward: seq<string>)

  datatype MigrationError =
    | DuplicateFiles | MissingBaseline | RetroactiveFiles | NotTransactional
    | DuplicateHistory | UnknownHistory | IncompleteBaseline | HistoryGap
    | SchemaOccupied | MigrationFailed

  /** The digits a file name starts with. */
  function LeadingDigits(name: string): string {
    if name == "" || !IsDigit(name[0]) then "" else [name[0]] + LeadingDigits(name[1..])
  }

  function Number(digits: string): int {
    if digits == "" then 0 else Number(digits[..|digits| - 1]) * 10 + (digits[|digits| - 1] as int - '0' as int)
  }

  /** Numbered above the baseline: digits, an underscore, and a number greater than the baseline version. */
  predicate Appended(name: string) {
    var digits := LeadingDigits(name);
    digits != "" && |digits| < |name| && name[|digits|] == '_' && Number(digits) > SCHEMA_BASELINE_VERSION
  }

  /** The names that are not in `names`, in their order. */
  function Without(files: seq<string>, names: set<string>): seq<string> {
    if files == [] then []
    else
      var last := files[|files| - 1];
      Without(files[..|files| - 1], names) + if last in names then [] else [last]
  }

  function PlanMigrations(frozen: seq<string>, files: seq<string>): Result<Plan, MigrationError> {
    if |Elements(files)| != |files| then Err(DuplicateFiles)
    else if exists name :: name in frozen && name !in files then Err(MissingBaseline)
    else
      var forward := Sort(Without(files, Elements(frozen)));
      if exists name :: name in forward && !Appended(name) then Err(RetroactiveFiles)
      else Ok(Plan(frozen, forward))
  }

  lemma {:induction false} DistinctBySize(names: seq<string>)
    ensures |Elements(names)| <= |names|
    ensures |Elements(names)| == |names| <==> Distinct(names)
  {
    if names != [] {
      var init, last := names[..|names| - 1], names[|names| - 1];
      DistinctBySize(init);
      assert names == init + [last];
      assert Elements(names) == Elements(init) + {last};
      if last in init {
        assert Elements(names) == Elements(init);
        var i :| 0 <= i < |init| && init[i] == last;
        assert names[i] == names[|init|];
      }
    }
  }

  lemma {:induction false} WithoutMembers(files: seq<string>, names: set<string>)
    ensures forall x :: x in Without(files, names) <==> x in files && x !in names
  {
    if files != [] {
      WithoutMembers(files[..|files| - 1], names);
      assert files == files[..|files| - 1] + [files[|files| - 1]];
    }
  }

  lemma {:induction false} WithoutDistinct(files: seq<string>, names: set<string>)
    requires Distinct(files)
    ensures Distinct(Without(files, names))
  {
    if files != [] {
      var init, last := files[..|files| - 1], files[|files| - 1];
      WithoutDistinct(init, names);
      WithoutMembers(init, names);
      assert files == init + [last];
    }
  }

  /** What a plan is: every file once, the frozen ones in their order, the others sorted and appended. */
  ghost predicate GoodPlan(frozen: seq<string>, files: seq<string>, plan: Plan) {
    && plan.baseline == frozen && Sorted(plan.forward)
    && (forall x :: x in plan.forward <==> x in files && x !in frozen)
    && (forall x | x in plan.forward :: Appended(x))
  }

  /** A file set has a plan exactly when it has no duplicates, holds the baseline, and only appends to it. */
  lemma PlanExists(frozen: seq<string>, files: seq<string>)
    ensures PlanMigrations(frozen, files).Ok?
       <==> && Distinct(files) && (forall x | x in frozen :: x in files)
            && forall x | x in files && x !in frozen :: Appended(x)
    ensures PlanMigrations(frozen, files).Ok? ==> GoodPlan(frozen, files, PlanMigrations(frozen, files).value)
  {
    DistinctBySize(files);
    if Distinct(files) {
      WithoutMembers(files, Elements(frozen));
      WithoutDistinct(files, Elements(frozen));
      SortSorts(Without(files, Elements(frozen)));
    }
  }

  // ----- accepted histories

  /** The history is the baseline and the first so many forward migrations, each once. */
  ghost predicate Accepts(plan: Plan, history: seq<string>) {
    Distinct(history) && exists k :: 0 <= k <= |plan.forward| && IsPrefixHistory(plan, history, k)
  }

  ghost predicate IsPrefixHistory(plan: Plan, history: seq<string>, k: nat)
    requires k <= |plan.forward|
  {
    forall x :: x in history <==> x in plan.baseline || x in plan.forward[..k]
  }

  method ValidateExistingMigrationHistory(history: seq<string>, plan: Plan) returns (r: Option<MigrationError>)
    requires Sorted(plan.forward) && forall x | x in plan.forward :: x !in plan.baseline
    ensures r == None <==> Accepts(plan, history)
    ensures r == Some(DuplicateHistory) <==> !Distinct(history)
    ensures r == Some(UnknownHistory) <==> Distinct(history) && exists x :: x in history && x !in plan.baseline && x !in plan.forward
    ensures r.Some? ==> r.value in {DuplicateHistory, UnknownHistory, IncompleteBaseline, HistoryGap}
    ensures r == Some(IncompleteBaseline) ==> exists x :: x in plan.baseline && x !in history
    ensures r == Some(HistoryGap) ==> exists i, j :: 0 <= i < j < |plan.forward| && plan.forward[i] !in history && plan.forward[j] in history
  {
    DistinctBySize(history);
    if |Elements(history)| != |history| { return Some(DuplicateHistory); }
    if exists name :: name in history && name !in plan.baseline && name !in plan.forward { return Some(UnknownHistory); }
    if exists name :: name in plan.baseline && name !in history { return Some(IncompleteBaseline); }
    var pendingSeen := false;
    ghost var k := 0;
    for i := 0 to |plan.forward|
      invariant k <= i && (pendingSeen <==> k < i)
      invariant forall j | 0 <= j < i :: plan.forward[j] in history <==> j < k
    {
      if plan.forward[i] !in history {
        pendingSeen := true;
      } else if pendingSeen {
        GapIsRefused(plan, history, k, i);
        return Some(HistoryGap);
      } else {
        k := k + 1;
      }
    }
    PrefixAccepted(plan, history, k);
    r := None;
  }

  lemma EarlierToo(plan: Plan, history: seq<string>, k: nat, i: nat, j: nat)
    requires Sorted(plan.forward) && forall x | x in plan.forward :: x !in plan.baseline
    requires i < j < |plan.forward| && k <= |plan.forward|
    ensures IsPrefixHistory(plan, history, k) && plan.forward[j] in history ==> plan.forward[i] in history
  {
    SortedIsDistinct(plan.forward);
    if IsPrefixHistory(plan, history, k) && plan.forward[j] in history {
      assert plan.forward[j] in plan.forward;
      var m :| 0 <= m < k && plan.forward[m] == plan.forward[j];
      assert plan.forward[..k][i] == plan.forward[i];
    }
  }

  lemma GapIsRefused(plan: Plan, history: seq<string>, i: nat, j: nat)
    requires Sorted(plan.forward) && forall x | x in plan.forward :: x !in plan.baseline
    requires i < j < |plan.forward| && plan.forward[i] !in history && plan.forward[j] in history
    ensures !Accepts(plan, history)
  {
    forall k | 0 <= k <= |plan.forward| ensures !IsPrefixHistory(plan, history, k) {
      EarlierToo(plan, history, k, i, j);
    }
  }

  lemma PrefixAccepted(plan: Plan, history: seq<string>, k: nat)
    requires k <= |plan.forward| && Distinct(history)
    requires forall x | x in history :: x in plan.baseline || x in plan.forward
    requires forall x | x in plan.baseline :: x in history
    requires forall j | 0 <= j < |plan.forward| :: plan.forward[j] in history <==> j < k
    ensures Accepts(plan, history)
  {
    assert IsPrefixHistory(plan, history, k);
  }

  /** Without counting: nothing unknown, the whole baseline, and no forward migration before one it follows. */
  ghost predicate DownClosed(plan: Plan, history: seq<string>) {
    && Distinct(history)
    && (forall x | x in history :: x in plan.baseline || x in plan.forward)
    && (forall x | x in plan.baseline :: x in history)
    && forall x, a | x in plan.forward && a in plan.forward && a in history && Less(x, a) :: x in history
  }

  lemma AcceptsIsDownClosed(plan: Plan, history: seq<string>)
    requires Sorted(plan.forward) && forall x | x in plan.forward :: x !in plan.baseline
    ensures Accepts(plan, history) <==> DownClosed(plan, history)
  {
    if Accepts(plan, history) {
      var k :| 0 <= k <= |plan.forward| && IsPrefixHistory(plan, history, k);
      forall x, a | x in plan.forward && a in plan.forward && a in history && Less(x, a) ensures x in history {
        var i :| 0 <= i < k && plan.forward[i] == a;
        var j :| 0 <= j < |plan.forward| && plan.forward[j] == x;
        LessIsTotal(x, a);
        assert plan.forward[..k][j] == x;
      }
    }
    if DownClosed(plan, history) {
      var k := AppliedPrefix(plan.forward, history);
      PrefixAccepted(plan, history, k);
    }
  }

  lemma {:induction false} AppliedPrefix(forward: seq<string>, history: seq<string>) returns (k: nat)
    requires Sorted(forward)
    requires forall x, a | x in forward && a in forward && a in history && Less(x, a) :: x in history
    ensures k <= |forward| && forall j | 0 <= j < |forward| :: forward[j] in history <==> j < k
  {
    if forward == [] {
      k := 0;
    } else {
      var init, last := forward[..|forward| - 1], forward[|forward| - 1];
      assert forward == init + [last];
      k := AppliedPrefix(init, history);
      if last in history {
        forall j | 0 <= j < |init| ensures init[j] in history { assert Less(forward[j], last) && forward[j] in forward; }
        k := |forward|;
      }
    }
  }

  /** `q` plans the files of `p` and more. */
  ghost predicate Extends(p: Plan, q: Plan, added: set<string>) {
    && p.baseline == q.baseline
    && (forall x :: x in q.forward <==> x in p.forward || x in added)
    && (forall x | x in added :: x !in p.forward && x !in p.baseline)
    && (forall x | x in q.forward :: x !in q.baseline)
  }

  ghost predicate AllAfter(p: Plan, history: seq<string>, added: set<string>) {
    forall a, x | a in history && a in p.forward && x in added :: Less(a, x)
  }

  lemma StillDownClosed(p: Plan, q: Plan, added: set<string>, history: seq<string>)
    requires Extends(p, q, added) && DownClosed(p, history) && AllAfter(p, history, added)
    ensures DownClosed(q, history)
  {
    forall x, a | x in q.forward && a in q.forward && a in history && Less(x, a) ensures x in history {
      assert a in p.forward;
      if x in added { LessIsTotal(a, x); }
    }
  }

  lemma AddedAreAfter(p: Plan, q: Plan, added: set<string>, history: seq<string>)
    requires Extends(p, q, added) && DownClosed(p, history) && DownClosed(q, history)
    ensures AllAfter(p, history, added)
  {
    forall a, x | a in history && a in p.forward && x in added ensures Less(a, x) {
      assert x in q.forward && a in q.forward && x !in history;
      LessIsTotal(a, x);
    }
  }

  /**
   An accepted history stays accepted under a larger file set exactly when every new file sorts after
   every forward migration already applied.
   */
  lemma AcceptanceIsStable(frozen: seq<string>, files: seq<string>, more: seq<string>, history: seq<string>)
    requires PlanMigrations(frozen, files).Ok? && PlanMigrations(frozen, more).Ok?
    requires forall x | x in files :: x in more
    requires Accepts(PlanMigrations(frozen, files).value, history)
    ensures Accepts(PlanMigrations(frozen, more).value, history)
       <==> AllAfter(PlanMigrations(frozen, files).value, history, Elements(more) - Elements(files))
  {
    var p, q, added := PlanMigrations(frozen, files).value, PlanMigrations(frozen, more).value, Elements(more) - Elements(files);
    PlanExists(frozen, files);
    PlanExists(frozen, more);
    assert Extends(p, q, added);
    AcceptsIsDownClosed(p, history);
    AcceptsIsDownClosed(q, history);
    if DownClosed(q, history) { AddedAreAfter(p, q, added, history); }
    if AllAfter(p, history, added) { StillDownClosed(p, q, added, history); }
  }

  // ----- starts

  /** What one start finds: its files, those that opt out of transactions, and those that fail when applied. */
  datatype Start = Start(files: seq<string>, untransacted: set<string>, failing: set<string>)

  /** The ledger is missing until the schema is bootstrapped; `occupied` is whether anything else is there. */
  class Database {
    var ledger: Option<seq<string>>
    var occupied: bool

    constructor (ledger: Option<seq<string>>, occupied: bool)
      ensures this.ledger == ledger && this.occupied == occupied
    {
      this.ledger, this.occupied := ledger, occupied;
    }

    /** One start, holding the lock that serializes starts; a failure leaves the ledger as it was. */
    method RunSafeMigrations(frozen: seq<string>, start: Start) returns (r: Result<seq<string>, MigrationError>)
      modifies this`ledger
      ensures ledger == Started(frozen, old(ledger), occupied, start)
      ensures r.Err? ==> ledger == old(ledger)
      ensures r.Ok? ==> ledger.Some? && PlanMigrations(frozen, start.files).Ok?
      ensures r.Ok? ==> r.value == Pending(PlanMigrations(frozen, start.files).value.forward, old(ledger).GetOr(frozen))
    {
      var plan := PlanMigrations(frozen, start.files);
      PlanExists(frozen, start.files);
      if plan.Err? { return Err(plan.error); }
      if exists name :: name in plan.value.forward && name in start.untransacted { return Err(NotTransactional); }
      var history := plan.value.baseline;
      if ledger.Some? {
        history := ledger.value;
        var refusal := ValidateExistingMigrationHistory(history, plan.value);
        if refusal.Some? { return Err(refusal.value); }
      } else if occupied {
        return Err(SchemaOccupied);
      }
      var pending := Pending(plan.value.forward, history);
      if exists name :: name in pending && name in start.failing { return Err(MigrationFailed); }
      ledger := Some(history + pending);
      r := Ok(pending);
    }
  }

  /** What Knex applies: the planned files that the history does not name, in their order. */
  function Pending(forward: seq<string>, history: seq<string>): seq<string> {
    Without(forward, Elements(history))
  }

  /** The ledger after a start. */
  ghost function Started(frozen: seq<string>, ledger: Option<seq<string>>, occupied: bool, start: Start): Option<seq<string>> {
    var plan := PlanMigrations(frozen, start.files);
    if plan.Err? then ledger
    else if exists name :: name in plan.value.forward && name in start.untransacted then ledger
    else if ledger.None? && occupied then ledger
    else if ledger.Some? && !Accepts(plan.value, ledger.value) then ledger
    else
      var history := ledger.GetOr(frozen);
      var pending := Pending(plan.value.forward, history);
      if exists name :: name in pending && name in start.failing then ledger else Some(history + pending)
  }

  ghost function StartedAll(frozen: seq<string>, ledger: Option<seq<string>>, occupied: bool, starts: seq<Start>): Option<seq<string>> {
    if starts == [] then ledger
    else Started(frozen, StartedAll(frozen, ledger, occupied, starts[..|starts| - 1]), occupied, starts[|starts| - 1])
  }

  /** The baseline in its order, then further migrations in theirs, each once. */
  ghost predicate OrderedLedger(frozen: seq<string>, ledger: seq<string>) {
    frozen <= ledger && Distinct(ledger) && Sorted(ledger[|frozen|..])
  }

  lemma {:induction false} PendingAfterPrefix(forward: seq<string>, history: seq<string>, k: nat)
    requires k <= |forward| && forall j | 0 <= j < |forward| :: forward[j] in history <==> j < k
    ensures Pending(forward, history) == forward[k..]
  {
    if forward != [] {
      var init, last := forward[..|forward| - 1], forward[|forward| - 1];
      if k == |forward| {
        PendingAfterPrefix(init, history, k - 1);
      } else {
        PendingAfterPrefix(init, history, k);
        assert forward[k..] == init[k..] + [last];
      }
    }
  }

  lemma PrefixIsLedgerTail(frozen: seq<string>, plan: Plan, ledger: seq<string>, k: nat)
    requires OrderedLedger(frozen, ledger) && plan.baseline == frozen && Sorted(plan.forward) && forall x | x in plan.forward :: x !in frozen
    requires k <= |plan.forward| && IsPrefixHistory(plan, ledger, k)
    ensures ledger[|frozen|..] == plan.forward[..k]
  {
    var tail := ledger[|frozen|..];
    forall x ensures x in tail <==> x in plan.forward[..k] { TailElements(frozen, ledger, x); }
    SortedIsUnique(tail, plan.forward[..k]);
  }

  lemma TailElements(frozen: seq<string>, ledger: seq<string>, x: string)
    requires frozen <= ledger && Distinct(ledger)
    ensures x in ledger[|frozen|..] <==> x in ledger && x !in frozen
  {
    assert ledger == frozen + ledger[|frozen|..];
    if x in ledger[|frozen|..] {
      var i :| 0 <= i < |ledger| - |frozen| && ledger[|frozen|..][i] == x;
      forall j | 0 <= j < |frozen| ensures frozen[j] != x {
        assert ledger[j] == frozen[j] && ledger[|frozen| + i] == x;
      }
    }
  }

  lemma LedgerPlusPending(frozen: seq<string>, plan: Plan, ledger: seq<string>)
    requires OrderedLedger(frozen, ledger) && plan.baseline == frozen && Sorted(plan.forward) && forall x | x in plan.forward :: x !in frozen
    requires Accepts(plan, ledger)
    ensures ledger + Pending(plan.forward, ledger) == frozen + plan.forward
  {
    var k :| 0 <= k <= |plan.forward| && IsPrefixHistory(plan, ledger, k);
    PrefixIsLedgerTail(frozen, plan, ledger, k);
    PrefixMembers(plan, ledger, k);
    PendingAfterPrefix(plan.forward, ledger, k);
    JoinAtCut(frozen, plan.forward, ledger, k);
  }

  lemma JoinAtCut(frozen: seq<string>, forward: seq<string>, ledger: seq<string>, k: nat)
    requires k <= |forward| && frozen <= ledger && ledger[|frozen|..] == forward[..k]
    ensures ledger + forward[k..] == frozen + forward
  {
    assert ledger == frozen + forward[..k];
    assert forward[..k] + forward[k..] == forward;
  }

  lemma PrefixMembers(plan: Plan, history: seq<string>, k: nat)
    requires Sorted(plan.forward) && forall x | x in plan.forward :: x !in plan.baseline
    requires k <= |plan.forward| && IsPrefixHistory(plan, history, k)
    ensures forall j | 0 <= j < |plan.forward| :: plan.forward[j] in history <==> j < k
  {
    SortedIsDistinct(plan.forward);
    forall j | 0 <= j < |plan.forward| ensures plan.forward[j] in history <==> j < k {
      assert plan.forward[j] in plan.forward;
      if j < k { assert plan.forward[..k][j] == plan.forward[j]; }
      if plan.forward[j] in plan.forward[..k] {
        var m :| 0 <= m < k && plan.forward[m] == plan.forward[j];
      }
    }
  }

  lemma DistinctWithTail(history: seq<string>, forward: seq<string>, k: nat)
    requires Distinct(history) && Sorted(forward) && k <= |forward| && forall j | 0 <= j < |forward| :: forward[j] in history <==> j < k
    ensures Distinct(history + forward[k..])
    ensures forall x :: x in history + forward[k..] <==> x in history || x in forward
  {
    SortedIsDistinct(forward);
    var after := history + forward[k..];
    forall i, j | 0 <= i < j < |after| ensures after[i] != after[j] {
      if i < |history| <= j { assert after[j] == forward[k + j - |history|] && after[i] in history; }
    }
    assert forward == forward[..k] + forward[k..];
    forall x | x in forward[..k] ensures x in history {
      var j :| 0 <= j < k && forward[j] == x;
    }
  }

  /** How much of the forward list a ledger that a start accepts already names; a new ledger starts with the baseline. */
  lemma AppliedSoFar(frozen: seq<string>, ledger: Option<seq<string>>, plan: Plan) returns (k: nat)
    requires Distinct(frozen) && Sorted(plan.forward) && plan.baseline == frozen && forall x | x in plan.forward :: x !in frozen
    requires ledger.Some? ==> Accepts(plan, ledger.value)
    ensures k <= |plan.forward| && IsPrefixHistory(plan, ledger.GetOr(frozen), k) && Distinct(ledger.GetOr(frozen))
    ensures forall j | 0 <= j < |plan.forward| :: plan.forward[j] in ledger.GetOr(frozen) <==> j < k
  {
    if ledger.Some? {
      k :| 0 <= k <= |plan.forward| && IsPrefixHistory(plan, ledger.value, k);
    } else {
      k := 0;
    }
    PrefixMembers(plan, ledger.GetOr(frozen), k);
  }

  /** A start only appends: the migrations that the ledger, in whatever order, does not name yet. */
  lemma StartAppends(frozen: seq<string>, ledger: Option<seq<string>>, occupied: bool, start: Start) returns (k: nat)
    requires Distinct(frozen) && Started(frozen, ledger, occupied, start) != ledger
    ensures PlanMigrations(frozen, start.files).Ok? && GoodPlan(frozen, start.files, PlanMigrations(frozen, start.files).value)
    ensures var forward, history := PlanMigrations(frozen, start.files).value.forward, ledger.GetOr(frozen);
            && k <= |forward| && Distinct(history)
            && (ledger.Some? ==> Accepts(PlanMigrations(frozen, start.files).value, history))
            && (forall j | 0 <= j < |forward| :: forward[j] in history <==> j < k)
            && (forall x :: x in history <==> x in frozen || x in forward[..k])
            && Started(frozen, ledger, occupied, start) == Some(history + forward[k..])
  {
    var plan := PlanMigrations(frozen, start.files).value;
    PlanExists(frozen, start.files);
    k := AppliedSoFar(frozen, ledger, plan);
    PendingAfterPrefix(plan.forward, ledger.GetOr(frozen), k);
  }

  /**
   A start that changes the ledger, whatever accepted history it found and in whatever order: afterwards
   the ledger names the baseline and every forward file, each once, after all that it named before. If
   it was in order, or missing, it is now the baseline followed by the sorted forward files.
   */
  lemma StartLeavesThePlan(frozen: seq<string>, ledger: Option<seq<string>>, occupied: bool, start: Start)
    requires Distinct(frozen) && Started(frozen, ledger, occupied, start) != ledger
    ensures PlanMigrations(frozen, start.files).Ok? && Started(frozen, ledger, occupied, start).Some?
    ensures var forward, after := PlanMigrations(frozen, start.files).value.forward, Started(frozen, ledger, occupied, start).value;
            && ledger.GetOr(frozen) <= after && Distinct(after)
            && (forall x :: x in after <==> x in frozen || x in forward)
            && ((ledger.Some? ==> OrderedLedger(frozen, ledger.value)) ==> after == frozen + forward)
  {
    var plan := PlanMigrations(frozen, start.files).value;
    var k := StartAppends(frozen, ledger, occupied, start);
    DistinctWithTail(ledger.GetOr(frozen), plan.forward, k);
    assert plan.forward == plan.forward[..k] + plan.forward[k..];
    if ledger.None? {
      FreshLedger(frozen, plan.forward, k);
    } else if OrderedLedger(frozen, ledger.value) {
      LedgerPlusPending(frozen, plan, ledger.value);
      PendingAfterPrefix(plan.forward, ledger.value, k);
    }
  }

  lemma FreshLedger(frozen: seq<string>, forward: seq<string>, k: nat)
    requires k <= |forward| && (forall x | x in forward :: x !in frozen) && forall j | 0 <= j < |forward| :: forward[j] in frozen <==> j < k
    ensures forward[k..] == forward
  {
    assert |forward| > 0 ==> forward[0] in forward;
  }

  lemma PlanIsOrdered(frozen: seq<string>, forward: seq<string>)
    requires Distinct(frozen) && Sorted(forward) && forall x | x in forward :: x !in frozen
    ensures OrderedLedger(frozen, frozen + forward)
  {
    SortedIsDistinct(forward);
    var ledger := frozen + forward;
    assert ledger[|frozen|..] == forward;
    forall i, j | 0 <= i < j < |ledger| ensures ledger[i] != ledger[j] {
      if i < |frozen| <= j { assert ledger[j] in forward && ledger[i] in frozen; }
    }
  }

  /** What a start keeps of the ledger it finds. */
  ghost predicate Keeps(frozen: seq<string>, first: Option<seq<string>>, ledger: Option<seq<string>>) {
    && (first.Some? ==> ledger.Some? && first.value <= ledger.value)
    && (first.Some? && !Distinct(first.value) ==> ledger == first)
    && (ledger.Some? && (first.Some? ==> Distinct(first.value)) ==> Distinct(ledger.value))
    && (ledger.Some? && (first.Some? ==> OrderedLedger(frozen, first.value)) ==> OrderedLedger(frozen, ledger.value))
  }

  lemma StartKeeps(frozen: seq<string>, ledger: Option<seq<string>>, occupied: bool, start: Start)
    requires Distinct(frozen)
    ensures Keeps(frozen, ledger, Started(frozen, ledger, occupied, start))
  {
    var after := Started(frozen, ledger, occupied, start);
    if after != ledger {
      var k := StartAppends(frozen, ledger, occupied, start);
      StartLeavesThePlan(frozen, ledger, occupied, start);
      PlanIsOrdered(frozen, PlanMigrations(frozen, start.files).value.forward);
    }
  }

  /**
   However many starts there are, with whatever files and failures, one after the other and from any
   ledger or none: nothing that the ledger names is ever removed or moved, each migration is recorded
   once if it was so at first, and the baseline followed by later migrations in order stays that. A
   ledger with duplicates is never touched.
   */
  lemma {:induction false} LedgerStaysOrdered(frozen: seq<string>, first: Option<seq<string>>, occupied: bool, starts: seq<Start>)
    requires Distinct(frozen)
    ensures Keeps(frozen, first, StartedAll(frozen, first, occupied, starts))
  {
    if starts != [] {
      var init, last := starts[..|starts| - 1], starts[|starts| - 1];
      LedgerStaysOrdered(frozen, first, occupied, init);
      StartKeeps(frozen, StartedAll(frozen, first, occupied, init), occupied, last);
    }
  }

  /** Starting again with the same files changes nothing. */
  lemma StartIsIdempotent(frozen: seq<string>, ledger: Option<seq<string>>, occupied: bool, start: Start)
    requires Distinct(frozen)
    ensures Started(frozen, Started(frozen, ledger, occupied, start), occupied, start) == Started(frozen, ledger, occupied, start)
  {
    var after := Started(frozen, ledger, occupied, start);
    if after != ledger {
      var forward := PlanMigrations(frozen, start.files).value.forward;
      StartLeavesThePlan(frozen, ledger, occupied, start);
      PendingAfterPrefix(forward, after.value, |forward|);
      assert after.value + forward[|forward|..] == after.value;
    }
  }
}
