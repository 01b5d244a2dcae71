/** Payment plans: what falls due when, and when goods may leave. Amounts are whole minor units. */
module Payments {
  import opened Outcomes
  import opened Money

  datatype PaymentPlan = PayBeforeDispatch | DepositBalance | BankSecured | DocumentaryCollection | PayAfterDelivery

  datatype InstallmentKind = Deposit | Balance | Full

  datatype DueTrigger = TermsAgreed | DocumentsPresented | Delivery

  datatype InstallmentStatus = Due | AwaitingTrigger

  datatype Installment = Installment(kind: InstallmentKind, sequence: nat, amountDue: nat, trigger: DueTrigger, status: InstallmentStatus)

  /** The amount that a printed text carries. */
  function AmountOf(text: string, scale: nat): nat {
    var units := DecimalUnits(text, scale);
    if units.Ok? then units.value else 0
  }

  function DepositAndBalance(deposit: nat, balance: nat, minorUnits: nat): Result<seq<Installment>, MoneyError> {
    if minorUnits == 0 && (deposit == 0 || balance == 0) then Err(ZeroInstallment)
    else Ok([Installment(Deposit, 1, deposit, TermsAgreed, Due), Installment(Balance, 2, balance, DocumentsPresented, AwaitingTrigger)])
  }

  function BuildInstallments(plan: PaymentPlan, total: string, percentage: string, minorUnits: nat): Result<seq<Installment>, MoneyError> {
    var exact := ExactInstallmentAmounts(total, percentage, minorUnits);
    if exact.Err? then Err(exact.error)
    else
      var amount := AmountOf(exact.value.total, minorUnits);
      match plan
      case DepositBalance =>
        DepositAndBalance(AmountOf(exact.value.deposit, minorUnits), AmountOf(exact.value.balance, minorUnits), minorUnits)
      case PayBeforeDispatch => Ok([Installment(Full, 1, amount, TermsAgreed, Due)])
      case PayAfterDelivery => Ok([Installment(Full, 1, amount, Delivery, AwaitingTrigger)])
      case _ => Ok([Installment(Full, 1, amount, DocumentsPresented, AwaitingTrigger)])
  }

  function RequiredBeforeDispatch(plan: PaymentPlan, total: string, percentage: string, minorUnits: nat): Result<nat, MoneyError> {
    match plan
    case PayBeforeDispatch =>
      var exact := ExactInstallmentAmounts(total, percentage, minorUnits);
      if exact.Err? then Err(exact.error) else Ok(AmountOf(exact.value.total, minorUnits))
    case DepositBalance =>
      var exact := ExactInstallmentAmounts(total, percentage, minorUnits);
      if exact.Err? then Err(exact.error) else Ok(AmountOf(exact.value.deposit, minorUnits))
    case _ => Ok(0)
  }

  datatype Decision = Allowed | TermsNotAgreed | SecurityNotVerified | PaymentBelowRequirement

  function DispatchDecision(plan: PaymentPlan, agreed: bool, confirmed: string, required: string, verified: bool, minorUnits: nat)
    : Result<Decision, MoneyError>
  {
    if !agreed then Ok(TermsNotAgreed)
    else if plan.BankSecured? && !verified then Ok(SecurityNotVerified)
    else
      var paid := DecimalUnits(confirmed, minorUnits);
      if paid.Err? then Err(paid.error)
      else
        var needed := DecimalUnits(required, minorUnits);
        if needed.Err? then Err(needed.error)
        else if paid.value < needed.value then Ok(PaymentBelowRequirement)
        else Ok(Allowed)
  }

  // ----- sums of installments

  function TotalDue(installments: seq<Installment>): nat {
    if installments == [] then 0
    else TotalDue(installments[..|installments| - 1]) + installments[|installments| - 1].amountDue
  }

  function DueAt(installments: seq<Installment>, trigger: DueTrigger): nat {
    if installments == [] then 0
    else
      var last := installments[|installments| - 1];
      DueAt(installments[..|installments| - 1], trigger) + if last.trigger == trigger then last.amountDue else 0
  }

  lemma SumsOfOne(a: Installment, trigger: DueTrigger)
    ensures TotalDue([a]) == a.amountDue
    ensures DueAt([a], trigger) == if a.trigger == trigger then a.amountDue else 0
  {
    assert [a][..0] == [];
  }

  lemma SumsOfTwo(a: Installment, b: Installment, trigger: DueTrigger)
    ensures TotalDue([a, b]) == a.amountDue + b.amountDue
    ensures DueAt([a, b], trigger) == (if a.trigger == trigger then a.amountDue else 0) + if b.trigger == trigger then b.amountDue else 0
  {
    assert [a, b][..1] == [a];
    SumsOfOne(a, trigger);
  }

  lemma AmountsOfSplit(total: string, percentage: string, minorUnits: nat)
    requires ExactInstallmentAmounts(total, percentage, minorUnits).Ok?
    ensures var s := ExactInstallmentAmounts(total, percentage, minorUnits).value;
            && DecimalUnits(total, minorUnits) == Ok(AmountOf(s.total, minorUnits))
            && AmountOf(s.deposit, minorUnits) + AmountOf(s.balance, minorUnits) == AmountOf(s.total, minorUnits)
  {
    var deposit := SplitIsExact(total, percentage, minorUnits, DecimalUnits(total, minorUnits).value, DecimalUnits(percentage, 2).value);
  }

  lemma PlanAmountOfParts(plan: PaymentPlan, s: Split, minorUnits: nat)
    requires AmountOf(s.deposit, minorUnits) + AmountOf(s.balance, minorUnits) == AmountOf(s.total, minorUnits)
    ensures PlanAmount(plan, s, minorUnits) == AmountOf(s.total, minorUnits)
  {
  }

  lemma PlanAmountIsTotal(plan: PaymentPlan, total: string, percentage: string, minorUnits: nat)
    requires ExactInstallmentAmounts(total, percentage, minorUnits).Ok?
    ensures DecimalUnits(total, minorUnits) == Ok(PlanAmount(plan, ExactInstallmentAmounts(total, percentage, minorUnits).value, minorUnits))
  {
    AmountsOfSplit(total, percentage, minorUnits);
    PlanAmountOfParts(plan, ExactInstallmentAmounts(total, percentage, minorUnits).value, minorUnits);
  }

  /** Whatever the plan, the installments add up exactly to the total. */
  lemma InstallmentsAddUp(plan: PaymentPlan, total: string, percentage: string, minorUnits: nat)
    requires BuildInstallments(plan, total, percentage, minorUnits).Ok?
    ensures DecimalUnits(total, minorUnits) == Ok(TotalDue(BuildInstallments(plan, total, percentage, minorUnits).value))
  {
    PlanTotal(plan, total, percentage, minorUnits);
    PlanAmountIsTotal(plan, total, percentage, minorUnits);
  }

  function PlanAmount(plan: PaymentPlan, s: Split, minorUnits: nat): nat {
    if plan.DepositBalance? then AmountOf(s.deposit, minorUnits) + AmountOf(s.balance, minorUnits) else AmountOf(s.total, minorUnits)
  }

  lemma PlanTotal(plan: PaymentPlan, total: string, percentage: string, minorUnits: nat)
    requires BuildInstallments(plan, total, percentage, minorUnits).Ok?
    ensures ExactInstallmentAmounts(total, percentage, minorUnits).Ok?
    ensures TotalDue(BuildInstallments(plan, total, percentage, minorUnits).value)
         == PlanAmount(plan, ExactInstallmentAmounts(total, percentage, minorUnits).value, minorUnits)
  {
    var due := BuildInstallments(plan, total, percentage, minorUnits).value;
    if plan.DepositBalance? { SumsOfTwo(due[0], due[1], TermsAgreed); } else { SumsOfOne(due[0], TermsAgreed); }
  }

  /** They are numbered from one, and exactly those that wait for nothing are due at once. */
  lemma InstallmentsAreNumbered(plan: PaymentPlan, total: string, percentage: string, minorUnits: nat, k: nat)
    requires BuildInstallments(plan, total, percentage, minorUnits).Ok?
    requires k < |BuildInstallments(plan, total, percentage, minorUnits).value|
    ensures var line := BuildInstallments(plan, total, percentage, minorUnits).value[k];
            line.sequence == k + 1 && (line.status.Due? <==> line.trigger.TermsAgreed?)
  {
  }

  /** What falls due when the terms are agreed is what dispatch requires. */
  lemma DueAtTermsIsRequired(plan: PaymentPlan, total: string, percentage: string, minorUnits: nat)
    requires BuildInstallments(plan, total, percentage, minorUnits).Ok?
    ensures RequiredBeforeDispatch(plan, total, percentage, minorUnits)
         == Ok(DueAt(BuildInstallments(plan, total, percentage, minorUnits).value, TermsAgreed))
  {
    var due := BuildInstallments(plan, total, percentage, minorUnits).value;
    if |due| == 1 {
      assert due == [due[0]];
      SumsOfOne(due[0], TermsAgreed);
    } else {
      assert due == [due[0], due[1]];
      SumsOfTwo(due[0], due[1], TermsAgreed);
    }
  }

  /**
   For every accepted plan and every record of the required amount that reads as that amount: dispatch is
   allowed exactly when the terms are agreed, a security the plan needs is verified, and the confirmed
   payments cover what was due at the agreement.
   */
  lemma DispatchIffCovered(plan: PaymentPlan, total: string, percentage: string, minorUnits: nat,
                           agreed: bool, verified: bool, confirmed: string, required: string, paid: nat)
    requires BuildInstallments(plan, total, percentage, minorUnits).Ok?
    requires RequiredBeforeDispatch(plan, total, percentage, minorUnits) == DecimalUnits(required, minorUnits)
    requires DecimalUnits(confirmed, minorUnits) == Ok(paid)
    ensures DispatchDecision(plan, agreed, confirmed, required, verified, minorUnits) == Ok(Allowed)
       <==> && agreed && (plan.BankSecured? ==> verified)
            && paid >= DueAt(BuildInstallments(plan, total, percentage, minorUnits).value, TermsAgreed)
    ensures DispatchDecision(plan, agreed, confirmed, required, verified, minorUnits).Ok?
  {
    DueAtTermsIsRequired(plan, total, percentage, minorUnits);
  }

  // ----- installments of nothing

  lemma RoundsToZero(c: nat, h: nat)
    requires h <= 10_000
    ensures var d := RoundRatio(Times(c, h), 10_000).value;
            && d <= c
            && (d == 0 <==> 2 * Times(c, h) < 10_000)
            && (d == c <==> 2 * Times(c, h) + 10_000 >= 20_000 * c)
  {
    DepositWithinTotal(c, h);
    var d := RoundRatio(Times(c, h), 10_000).value;
    RoundIsNearest(Times(c, h), 10_000, d);
    assert Times(d, 20_000) == 20_000 * d;
  }

  lemma DepositBalanceBuilds(total: string, percentage: string, minorUnits: nat, s: Split, d: nat, b: nat)
    requires ExactInstallmentAmounts(total, percentage, minorUnits) == Ok(s)
    requires AmountOf(s.deposit, minorUnits) == d && AmountOf(s.balance, minorUnits) == b
    ensures BuildInstallments(DepositBalance, total, percentage, minorUnits) == DepositAndBalance(d, b, minorUnits) && minorUnits in {0, 2}
  {
  }

  lemma DepositAndBalanceLines(d: nat, b: nat, minorUnits: nat)
    requires minorUnits in {0, 2}
    ensures var built := DepositAndBalance(d, b, minorUnits);
            && (built.Ok? <==> minorUnits == 2 || (d > 0 && b > 0))
            && (built.Ok? ==> ((forall k | 0 <= k < |built.value| :: built.value[k].amountDue > 0) <==> d > 0 && b > 0))
  {
    var built := DepositAndBalance(d, b, minorUnits);
    if built.Ok? {
      assert built.value[0].amountDue == d && built.value[1].amountDue == b;
    }
  }

  lemma TwoLines(total: string, percentage: string, minorUnits: nat, s: Split, d: nat, b: nat)
    requires ExactInstallmentAmounts(total, percentage, minorUnits) == Ok(s)
    requires AmountOf(s.deposit, minorUnits) == d && AmountOf(s.balance, minorUnits) == b
    ensures var built := BuildInstallments(DepositBalance, total, percentage, minorUnits);
            && (built.Ok? <==> minorUnits == 2 || (d > 0 && b > 0))
            && (built.Ok? ==> ((forall k | 0 <= k < |built.value| :: built.value[k].amountDue > 0) <==> d > 0 && b > 0))
  {
    DepositBalanceBuilds(total, percentage, minorUnits, s, d, b);
    DepositAndBalanceLines(d, b, minorUnits);
  }

  lemma SplitAmounts(total: string, percentage: string, minorUnits: nat, c: nat, h: nat)
    requires ExactInstallmentAmounts(total, percentage, minorUnits).Ok?
    requires DecimalUnits(total, minorUnits) == Ok(c) && DecimalUnits(percentage, 2) == Ok(h)
    ensures h <= 10_000
    ensures var s := ExactInstallmentAmounts(total, percentage, minorUnits).value;
            var d := RoundRatio(Times(c, h), 10_000).value;
            AmountOf(s.deposit, minorUnits) == d <= c && AmountOf(s.balance, minorUnits) == c - d
  {
    var d := SplitIsExact(total, percentage, minorUnits, c, h);
    NearestIsRounded(Times(c, h), d);
  }

  lemma NearestIsRounded(n: nat, d: nat)
    requires -10_000 <= 2 * n - 20_000 * d < 10_000
    ensures RoundRatio(n, 10_000) == Ok(d)
  {
    assert Times(d, 20_000) == 20_000 * d;
    RoundIsNearest(n, 10_000, d);
  }

  /**
   A deposit plan has two positive installments exactly when its deposit rounds to at least one unit and
   leaves at least one. Only currencies without decimals refuse the rest; elsewhere a zero line is issued.
   */
  lemma WhenSplitsArePositive(total: string, percentage: string, minorUnits: nat, c: nat, h: nat)
    requires ExactInstallmentAmounts(total, percentage, minorUnits).Ok?
    requires DecimalUnits(total, minorUnits) == Ok(c) && DecimalUnits(percentage, 2) == Ok(h)
    ensures var built := BuildInstallments(DepositBalance, total, percentage, minorUnits);
            var positive := 10_000 <= 2 * Times(c, h) && 2 * Times(c, h) + 10_000 < 20_000 * c;
            && (built.Ok? <==> minorUnits == 2 || positive)
            && (built.Ok? ==> ((forall k | 0 <= k < |built.value| :: built.value[k].amountDue > 0) <==> positive))
  {
    SplitAmounts(total, percentage, minorUnits, c, h);
    RoundsToZero(c, h);
    var d := RoundRatio(Times(c, h), 10_000).value;
    TwoLines(total, percentage, minorUnits, ExactInstallmentAmounts(total, percentage, minorUnits).value, d, c - d);
  }

  lemma OneCent()
    ensures DecimalUnits("0.01", 2) == Ok(1)
  {
    var text := "0.01";
    assert text[1..][0] == '.' && PointAt(text) == 1;
    assert Whole(text) == "0" && Fraction(text) == "01";
    assert "01"[..1] == "0" && "0"[..0] == "" && Value("0") == 0 && Value("01") == 1;
    assert PadEnd("01", 2) == "01";
  }

  lemma TwentyPercent()
    ensures DecimalUnits("20", 2) == Ok(2_000)
  {
    var text := "20";
    assert text[1..] == "0" && "0"[1..] == "" && PointAt(text) == 2;
    assert Whole(text) == "20" && Fraction(text) == "";
    assert "20"[..1] == "2" && "2"[..0] == "" && Value("2") == 2 && Value("20") == 20;
    assert PadEnd("", 2) == Zeros(2);
    ZerosAreZero(2);
    assert Pow10(2) == 100;
  }

  /** Any way of writing a cent and twenty percent. */
  lemma FifthOfACent(total: string, percentage: string)
    requires DecimalUnits(total, 2) == Ok(1) && DecimalUnits(percentage, 2) == Ok(2_000)
    ensures var built := BuildInstallments(DepositBalance, total, percentage, 2);
            built.Ok? && |built.value| == 2 && built.value[0].amountDue == 0 && built.value[1].amountDue == 1
  {
    SplitAmounts(total, percentage, 2, 1, 2_000);
    NearestIsRounded(2_000, 0);
    assert Times(1, 2_000) == 2_000;
  }

  /** A fifth of a cent rounds to a deposit of nothing, and the plan is issued with it. */
  lemma ZeroInstallmentIsIssued()
    ensures var built := BuildInstallments(DepositBalance, "0.01", "20", 2);
            built.Ok? && |built.value| == 2 && built.value[0].amountDue == 0 && built.value[1].amountDue == 1
  {
    OneCent();
    TwentyPercent();
    FifthOfACent("0.01", "20");
  }
}
