/**
 Exact money: plain decimal texts, whole minor units, and half-up rounding of exact ratios. No
 floating-point arithmetic takes part.
 */
module Money {
  import opened Outcomes
  import opened DecimalDigits

  datatype MoneyError =
    | NotPlainDecimal | TooManyPlaces | InvalidRatio | UnsupportedPrecision
    | ValueOutOfRange | PercentageTooHigh | ZeroInstallment

  // ----- products and quotients, by name

  function Times(a: int, b: int): (p: int)
    ensures a >= 0 && b >= 0 ==> p >= 0
    ensures a > 0 && b > 0 ==> p > 0
  {
    a * b
  }

  function Quotient(a: nat, b: nat): (q: nat)
    requires b > 0
    ensures a == Times(q, b) + Remainder(a, b)
  {
    a / b
  }

  function Remainder(a: nat, b: nat): (r: nat)
    requires b > 0
    ensures r < b
  {
    a % b
  }

  lemma QuotientIs(a: nat, b: nat, q: nat)
    requires b > 0 && Times(q, b) <= a < Times(q, b) + b
    ensures Quotient(a, b) == q
  {
    var r := Quotient(a, b);
    if q < r { TimesSteps(q, r, b); }
    if r < q { TimesSteps(r, q, b); }
  }

  lemma TimesAssociates(a: int, b: int, c: int)
    ensures Times(Times(a, b), c) == Times(a, Times(b, c))
  {
  }

  lemma TimesCommutes(a: int, b: int)
    ensures Times(a, b) == Times(b, a)
  {
  }

  lemma TimesAdds(a: int, b: int, c: int)
    ensures Times(a + b, c) == Times(a, c) + Times(b, c)
  {
  }

  lemma TimesSteps(a: int, b: int, c: int)
    requires c >= 0 && a < b
    ensures Times(a, c) + c <= Times(b, c)
  {
    assert (b - a - 1) * c >= 0;
  }

  lemma Cancel(a: int, b: int, c: int)
    requires c > 0 && Times(a, c) == Times(b, c)
    ensures a == b
  {
    if a < b { TimesSteps(a, b, c); }
    if b < a { TimesSteps(b, a, c); }
  }

  // ----- powers of ten

  function Pow10(n: nat): (p: nat)
    ensures p > 0
  {
    if n == 0 then 1 else 10 * Pow10(n - 1)
  }

  lemma {:induction false} PowAdd(a: nat, b: nat)
    ensures Pow10(a + b) == Times(Pow10(a), Pow10(b))
  {
    if a > 0 {
      PowAdd(a - 1, b);
      TimesAssociates(10, Pow10(a - 1), Pow10(b));
    }
  }

  // ----- digits

  predicate AllDigits(s: string) {
    forall i | 0 <= i < |s| :: IsDigit(s[i])
  }

  /** The number a digit string writes. */
  function Value(s: string): nat
    requires AllDigits(s)
  {
    if s == [] then 0 else Value(s[..|s| - 1]) * 10 + DigitValue(s[|s| - 1])
  }

  /** A number without leading zeros. */
  function Digits(n: nat): (s: string)
    ensures AllDigits(s) && s != []
  {
    if n < 10 then [DigitOf(n)] else Digits(n / 10) + [DigitOf(n % 10)]
  }

  function Zeros(n: nat): (s: string)
    ensures |s| == n && AllDigits(s)
  {
    seq(n, _ => '0')
  }

  function PadEnd(s: string, n: nat): string {
    if |s| < n then s + Zeros(n - |s|) else s
  }

  function PadStart(s: string, n: nat): string {
    if |s| < n then Zeros(n - |s|) + s else s
  }

  lemma {:induction false} ValueConcat(a: string, b: string)
    requires AllDigits(a) && AllDigits(b)
    ensures AllDigits(a + b) && Value(a + b) == Times(Value(a), Pow10(|b|)) + Value(b)
  {
    if b == [] {
      assert a + b == a;
    } else {
      var init := b[..|b| - 1];
      ValueConcat(a, init);
      assert (a + b)[..|a + b| - 1] == a + init;
      TimesByTen(Value(a), Pow10(|init|));
    }
  }

  lemma TimesByTen(a: int, p: int)
    ensures Times(a, 10 * p) == 10 * Times(a, p)
  {
  }

  lemma LastDigit(s: string)
    requires AllDigits(s) && s != []
    ensures 0 <= DigitValue(s[|s| - 1]) <= 9
    ensures DigitValue(s[|s| - 1]) == 0 <==> s[|s| - 1] == '0'
  {
  }

  lemma {:induction false} ValueBound(s: string)
    requires AllDigits(s)
    ensures Value(s) < Pow10(|s|)
  {
    if s != [] {
      LastDigit(s);
      ValueBound(s[..|s| - 1]);
    }
  }

  predicate AllZeros(s: string) {
    forall i | 0 <= i < |s| :: s[i] == '0'
  }

  lemma AllZerosSnoc(s: string)
    requires s != []
    ensures AllZeros(s) <==> AllZeros(s[..|s| - 1]) && s[|s| - 1] == '0'
  {
  }

  lemma {:induction false} ValueZero(s: string)
    requires AllDigits(s)
    ensures Value(s) == 0 <==> AllZeros(s)
  {
    if s != [] {
      LastDigit(s);
      AllZerosSnoc(s);
      ValueZero(s[..|s| - 1]);
    }
  }

  lemma {:induction false} ValueDigits(n: nat)
    ensures Value(Digits(n)) == n
  {
    if n < 10 {
      assert [DigitOf(n)][..0] == [];
    } else {
      ValueDigits(n / 10);
      var s := Digits(n);
      assert s[..|s| - 1] == Digits(n / 10);
    }
  }

  lemma {:induction false} DigitsLength(n: nat, k: nat)
    requires 0 < k && n < Pow10(k)
    ensures |Digits(n)| <= k
  {
    if n >= 10 { DigitsLength(n / 10, k - 1); }
  }

  // ----- parsing

  /** Where the decimal point is, or the length of the text. */
  function PointAt(text: string): (k: nat)
    ensures k <= |text|
    ensures k < |text| ==> text[k] == '.'
    ensures forall j | 0 <= j < k :: text[j] != '.'
  {
    if text == [] || text[0] == '.' then 0 else 1 + PointAt(text[1..])
  }

  function Whole(text: string): string { text[..PointAt(text)] }

  function Fraction(text: string): string {
    if PointAt(text) < |text| then text[PointAt(text) + 1..] else ""
  }

  /** Digits, and after a point at least one more digit. */
  predicate IsDecimal(text: string) {
    && Whole(text) != "" && AllDigits(Whole(text))
    && AllDigits(Fraction(text)) && (PointAt(text) < |text| ==> Fraction(text) != "")
  }

  predicate HasNonZero(s: string) {
    !AllZeros(s)
  }

  /** The units of ten to the minus `scale` that a text writes. */
  function DecimalUnits(text: string, scale: nat): Result<nat, MoneyError> {
    if !IsDecimal(text) then Err(NotPlainDecimal)
    else
      var fraction := Fraction(text);
      if |fraction| > scale && HasNonZero(fraction[scale..]) then Err(TooManyPlaces)
      else Ok(Times(Value(Whole(text)), Pow10(scale)) + Value(PadEnd(if |fraction| > scale then fraction[..scale] else fraction, scale)))
  }

  /** All its digits as one number; the text writes this number divided by a power of ten. */
  function AllDigitsValue(text: string): nat
    requires IsDecimal(text)
  {
    Value(Whole(text) + Fraction(text))
  }

  lemma ZerosAreZero(n: nat)
    ensures Value(Zeros(n)) == 0
  {
    ValueZero(Zeros(n));
  }

  lemma PaddedFraction(f: string, scale: nat)
    requires AllDigits(f) && |f| <= scale
    ensures AllDigits(PadEnd(f, scale)) && Value(PadEnd(f, scale)) == Times(Value(f), Pow10(scale - |f|))
  {
    var rest := scale - |f|;
    ValueConcat(f, Zeros(rest));
    ZerosAreZero(rest);
    assert f + Zeros(0) == f;
    assert PadEnd(f, scale) == f + Zeros(rest);
  }

  lemma ShortFraction(text: string, scale: nat)
    requires IsDecimal(text) && |Fraction(text)| <= scale
    ensures DecimalUnits(text, scale) == Ok(Times(AllDigitsValue(text), Pow10(scale - |Fraction(text)|)))
  {
    var w, f := Whole(text), Fraction(text);
    var rest := scale - |f|;
    ValueConcat(w, f);
    PaddedFraction(f, scale);
    PowAdd(|f|, rest);
    TimesAssociates(Value(w), Pow10(|f|), Pow10(rest));
    TimesAdds(Times(Value(w), Pow10(|f|)), Value(f), Pow10(rest));
  }

  /** The units a text would have if the digits beyond `scale` were dropped. */
  function Truncated(text: string, scale: nat): nat
    requires IsDecimal(text) && |Fraction(text)| > scale
  {
    Times(Value(Whole(text)), Pow10(scale)) + Value(Fraction(text)[..scale])
  }

  lemma LongFraction(text: string, scale: nat)
    requires IsDecimal(text) && |Fraction(text)| > scale
    ensures var tail := Fraction(text)[scale..];
            && AllDigitsValue(text) == Times(Truncated(text, scale), Pow10(|tail|)) + Value(tail)
            && Value(tail) < Pow10(|tail|)
            && DecimalUnits(text, scale) == if Value(tail) == 0 then Ok(Truncated(text, scale)) else Err(TooManyPlaces)
  {
    var w, f := Whole(text), Fraction(text);
    var head, tail := f[..scale], f[scale..];
    assert f == head + tail;
    ValueConcat(w, f);
    ValueConcat(head, tail);
    PowAdd(scale, |tail|);
    TimesAssociates(Value(w), Pow10(scale), Pow10(|tail|));
    TimesAdds(Times(Value(w), Pow10(scale)), Value(head), Pow10(|tail|));
    ValueBound(tail);
    ValueZero(tail);
    assert PadEnd(head, scale) == head;
  }

  lemma ScaleUp(v: int, a: nat, b: nat)
    ensures Times(Times(v, Pow10(a)), Pow10(b)) == Times(v, Pow10(a + b))
  {
    PowAdd(a, b);
    TimesAssociates(v, Pow10(a), Pow10(b));
  }

  lemma ShortIsExact(v: nat, f: nat, scale: nat, u: nat)
    requires f <= scale && u == Times(v, Pow10(scale - f))
    ensures Times(u, Pow10(f)) == Times(v, Pow10(scale))
  {
    ScaleUp(v, scale - f, f);
    assert scale - f + f == scale;
  }

  lemma LongIsExact(v: nat, f: nat, scale: nat, u: nat)
    requires f > scale && v == Times(u, Pow10(f - scale))
    ensures Times(u, Pow10(f)) == Times(v, Pow10(scale))
  {
    ScaleUp(u, f - scale, scale);
    assert f - scale + scale == f;
  }

  lemma ShortUnits(text: string, scale: nat, u: nat)
    requires IsDecimal(text) && |Fraction(text)| <= scale && DecimalUnits(text, scale) == Ok(u)
    ensures Times(u, Pow10(|Fraction(text)|)) == Times(AllDigitsValue(text), Pow10(scale))
  {
    ShortFraction(text, scale);
    ShortIsExact(AllDigitsValue(text), |Fraction(text)|, scale, u);
  }

  lemma NothingDropped(text: string, scale: nat, u: nat)
    requires IsDecimal(text) && |Fraction(text)| > scale && DecimalUnits(text, scale) == Ok(u)
    ensures AllDigitsValue(text) == Times(u, Pow10(|Fraction(text)| - scale))
  {
    LongFraction(text, scale);
  }

  lemma LongUnits(text: string, scale: nat, u: nat)
    requires IsDecimal(text) && |Fraction(text)| > scale && DecimalUnits(text, scale) == Ok(u)
    ensures Times(u, Pow10(|Fraction(text)|)) == Times(AllDigitsValue(text), Pow10(scale))
  {
    NothingDropped(text, scale, u);
    LongIsExact(AllDigitsValue(text), |Fraction(text)|, scale, u);
  }

  /** An accepted text has the units that it writes: no more, no less, nothing rounded. */
  lemma UnitsAreExact(text: string, scale: nat)
    requires DecimalUnits(text, scale).Ok?
    ensures IsDecimal(text)
    ensures Times(DecimalUnits(text, scale).value, Pow10(|Fraction(text)|)) == Times(AllDigitsValue(text), Pow10(scale))
  {
    if |Fraction(text)| <= scale {
      ShortUnits(text, scale, DecimalUnits(text, scale).value);
    } else {
      LongUnits(text, scale, DecimalUnits(text, scale).value);
    }
  }

  lemma NoMultiple(u: nat, q: nat, t: nat, k: nat)
    requires 0 < t < q
    ensures Times(k, q) != Times(u, q) + t
  {
    if k < u { TimesSteps(k, u, q); }
    if u < k { TimesSteps(u, k, q); }
  }

  lemma NotRepresentable(v: nat, u: nat, t: nat, q: nat, p: nat, k: nat)
    requires v == Times(u, q) + t && 0 < t < q && p > 0
    ensures Times(k, Times(q, p)) != Times(v, p)
  {
    TimesAssociates(k, q, p);
    if Times(Times(k, q), p) == Times(v, p) {
      Cancel(Times(k, q), v, p);
      NoMultiple(u, q, t, k);
    }
  }

  /** A plain decimal is accepted exactly when it writes a whole number of units. */
  lemma AcceptedIffRepresentable(text: string, scale: nat)
    requires IsDecimal(text)
    ensures DecimalUnits(text, scale).Ok? <==> exists u: nat :: Times(u, Pow10(|Fraction(text)|)) == Times(AllDigitsValue(text), Pow10(scale))
  {
    var v, f := AllDigitsValue(text), |Fraction(text)|;
    if DecimalUnits(text, scale).Ok? {
      UnitsAreExact(text, scale);
    } else {
      var u, t := RefusedTail(text, scale);
      forall k: nat ensures Times(k, Pow10(f)) != Times(v, Pow10(scale)) { NoUnits(v, u, t, f, scale, k); }
    }
  }

  lemma RefusedTail(text: string, scale: nat) returns (u: nat, t: nat)
    requires IsDecimal(text) && DecimalUnits(text, scale).Err?
    ensures |Fraction(text)| > scale
    ensures AllDigitsValue(text) == Times(u, Pow10(|Fraction(text)| - scale)) + t && 0 < t < Pow10(|Fraction(text)| - scale)
  {
    if |Fraction(text)| <= scale {
      ShortFraction(text, scale);
    } else {
      LongFraction(text, scale);
      u, t := Truncated(text, scale), Value(Fraction(text)[scale..]);
    }
  }

  lemma NoUnits(v: nat, u: nat, t: nat, f: nat, scale: nat, k: nat)
    requires f > scale && v == Times(u, Pow10(f - scale)) + t && 0 < t < Pow10(f - scale)
    ensures Times(k, Pow10(f)) != Times(v, Pow10(scale))
  {
    PowAdd(f - scale, scale);
    NotRepresentable(v, u, t, Pow10(f - scale), Pow10(scale), k);
  }

  lemma CrossSwap(u: int, v: int, p: int, q: int, s: int)
    requires Times(u, p) == Times(v, s)
    ensures Times(Times(v, q), s) == Times(u, Times(p, q))
  {
    TimesAssociates(v, q, s);
    TimesCommutes(q, s);
    TimesAssociates(v, s, q);
    TimesAssociates(u, p, q);
  }

  lemma CrossMultiply(ua: nat, ub: nat, va: nat, vb: nat, pa: nat, pb: nat, s: nat)
    requires pa > 0 && pb > 0 && s > 0 && Times(ua, pa) == Times(va, s) && Times(ub, pb) == Times(vb, s)
    ensures ua == ub <==> Times(va, pb) == Times(vb, pa)
  {
    CrossSwap(ua, va, pa, pb, s);
    CrossSwap(ub, vb, pb, pa, s);
    TimesCommutes(pa, pb);
    if Times(va, pb) == Times(vb, pa) { Cancel(ua, ub, Times(pa, pb)); }
    if ua == ub { Cancel(Times(va, pb), Times(vb, pa), s); }
  }

  /** Two accepted texts have the same units exactly when they write the same number. */
  lemma SameUnitsSameNumber(a: string, b: string, scale: nat)
    requires DecimalUnits(a, scale).Ok? && DecimalUnits(b, scale).Ok?
    ensures IsDecimal(a) && IsDecimal(b)
    ensures DecimalUnits(a, scale) == DecimalUnits(b, scale)
       <==> Times(AllDigitsValue(a), Pow10(|Fraction(b)|)) == Times(AllDigitsValue(b), Pow10(|Fraction(a)|))
  {
    UnitsAreExact(a, scale);
    UnitsAreExact(b, scale);
    CrossMultiply(DecimalUnits(a, scale).value, DecimalUnits(b, scale).value, AllDigitsValue(a), AllDigitsValue(b),
                  Pow10(|Fraction(a)|), Pow10(|Fraction(b)|), Pow10(scale));
  }

  // ----- printing

  function DecimalText(units: nat, scale: nat): string {
    if scale == 0 then Digits(units)
    else Digits(Quotient(units, Pow10(scale))) + "." + PadStart(Digits(Remainder(units, Pow10(scale))), scale)
  }

  lemma {:induction false} PointAfterDigits(s: string, rest: string)
    requires AllDigits(s) && (rest == [] || rest[0] == '.')
    ensures PointAt(s + rest) == |s|
  {
    if s == [] {
      assert s + rest == rest;
    } else {
      assert (s + rest)[1..] == s[1..] + rest;
      PointAfterDigits(s[1..], rest);
    }
  }

  lemma ZerosInFront(zeros: string, s: string)
    requires AllDigits(zeros) && Value(zeros) == 0 && AllDigits(s)
    ensures AllDigits(zeros + s) && Value(zeros + s) == Value(s)
  {
    ValueConcat(zeros, s);
  }

  lemma PaddedValue(s: string, n: nat)
    requires AllDigits(s) && |s| <= n
    ensures AllDigits(PadStart(s, n)) && |PadStart(s, n)| == n && Value(PadStart(s, n)) == Value(s)
  {
    if |s| < n {
      ZerosAreZero(n - |s|);
      ZerosInFront(Zeros(n - |s|), s);
    }
  }

  lemma PartsOf(w: string, f: string)
    requires AllDigits(w)
    ensures PointAt(w + "." + f) == |w| && Whole(w + "." + f) == w && Fraction(w + "." + f) == f
  {
    PointAfterDigits(w, "." + f);
    assert w + "." + f == w + ("." + f);
  }

  lemma PartsUnits(text: string, w: string, f: string, scale: nat)
    requires Whole(text) == w && Fraction(text) == f && AllDigits(w) && w != "" && AllDigits(f) && |f| == scale > 0
    ensures DecimalUnits(text, scale) == Ok(Times(Value(w), Pow10(scale)) + Value(f))
  {
    assert IsDecimal(text) && PadEnd(f, scale) == f;
  }

  lemma TextParts(w: string, f: string, scale: nat)
    requires AllDigits(w) && w != "" && AllDigits(f) && |f| == scale > 0
    ensures DecimalUnits(w + "." + f, scale) == Ok(Times(Value(w), Pow10(scale)) + Value(f))
  {
    PartsOf(w, f);
    PartsUnits(w + "." + f, w, f, scale);
  }

  lemma WholeTextParses(units: nat)
    ensures DecimalUnits(Digits(units), 0) == Ok(units)
  {
    var text := Digits(units);
    PointAfterDigits(text, "");
    assert text + "" == text && Whole(text) == text && Fraction(text) == "" && PadEnd("", 0) == "";
    ValueDigits(units);
  }

  /** Digits before and after the point, as printed. */
  lemma PrintedParts(w: nat, m: nat, scale: nat)
    requires scale > 0 && m < Pow10(scale)
    ensures var whole := Digits(w); AllDigits(whole) && whole != "" && Value(whole) == w
    ensures var fraction := PadStart(Digits(m), scale); AllDigits(fraction) && |fraction| == scale && Value(fraction) == m
  {
    DigitsLength(m, scale);
    PaddedValue(Digits(m), scale);
    ValueDigits(w);
    ValueDigits(m);
  }

  lemma PointTextIs(units: nat, scale: nat, w: nat, m: nat)
    requires scale > 0 && w == Quotient(units, Pow10(scale)) && m == Remainder(units, Pow10(scale))
    ensures DecimalText(units, scale) == Digits(w) + "." + PadStart(Digits(m), scale)
    ensures m < Pow10(scale) && units == Times(w, Pow10(scale)) + m
  {
  }

  lemma PrintedPoint(units: nat, scale: nat) returns (whole: string, fraction: string)
    requires scale > 0
    ensures DecimalText(units, scale) == whole + "." + fraction
    ensures AllDigits(whole) && whole != "" && AllDigits(fraction) && |fraction| == scale
    ensures units == Times(Value(whole), Pow10(scale)) + Value(fraction)
  {
    var w, m := Quotient(units, Pow10(scale)), Remainder(units, Pow10(scale));
    whole, fraction := Digits(w), PadStart(Digits(m), scale);
    PointTextIs(units, scale, w, m);
    PrintedParts(w, m, scale);
  }

  lemma PointPrintParse(units: nat, scale: nat)
    requires scale > 0
    ensures DecimalUnits(DecimalText(units, scale), scale) == Ok(units)
  {
    var whole, fraction := PrintedPoint(units, scale);
    TextParts(whole, fraction, scale);
  }

  /** What is printed reads back as the same amount. */
  lemma PrintParse(units: nat, scale: nat)
    ensures DecimalUnits(DecimalText(units, scale), scale) == Ok(units)
  {
    if scale == 0 {
      WholeTextParses(units);
    } else {
      PointPrintParse(units, scale);
    }
  }

  // ----- rounding

  /** The nearest integer to a ratio, halves up. */
  function RoundRatio(numerator: int, denominator: int): (r: Result<nat, MoneyError>)
    ensures r.Ok? <==> numerator >= 0 && denominator > 0
  {
    if numerator < 0 || denominator <= 0 then Err(InvalidRatio)
    else Ok(Quotient(numerator * 2 + denominator, denominator * 2))
  }

  /** Half-up rounding is the only integer within half a denominator, with ties above. */
  lemma RoundIsNearest(n: int, d: int, r: nat)
    requires n >= 0 && d > 0
    ensures RoundRatio(n, d) == Ok(r) <==> -d <= 2 * n - Times(r, 2 * d) < d
  {
    if -d <= 2 * n - Times(r, 2 * d) < d { QuotientIs(n * 2 + d, d * 2, r); }
  }

  // ----- trade totals

  predicate SupportedScale(scale: int) { scale == 0 || scale == 2 }

  const MAX_HUNDREDTHS := 99_999_999_999_999

  /** Quantity (to the gram) times price (to four places), rounded to the minor unit of the currency. */
  function TradeTotal(quantity: string, price: string, scale: int): Result<string, MoneyError> {
    if !SupportedScale(scale) then Err(UnsupportedPrecision)
    else
      var q := DecimalUnits(quantity, 3);
      if q.Err? then Err(q.error)
      else
        var p := DecimalUnits(price, 4);
        if p.Err? then Err(p.error)
        else
          var cents := RoundRatio(Times(q.value, p.value), Pow10(7 - scale)).value;
          if cents <= 0 || Times(cents, Pow10(2 - scale)) > MAX_HUNDREDTHS then Err(ValueOutOfRange)
          else Ok(DecimalText(cents, scale))
  }

  lemma TextIsInjective(a: nat, b: nat, scale: nat)
    requires DecimalText(a, scale) == DecimalText(b, scale)
    ensures a == b
  {
    PrintParse(a, scale);
    PrintParse(b, scale);
  }

  /** `t` minor units are the exact product to within half a unit, ties above, positive, and inside twelve digits and two places. */
  ghost predicate IsTotal(q: nat, p: nat, scale: nat, t: nat)
    requires scale <= 2
  {
    && 0 < Times(t, Pow10(2 - scale)) <= MAX_HUNDREDTHS
    && Times(t, 2 * Pow10(7 - scale)) <= 2 * Times(q, p) + Pow10(7 - scale) < Times(t, 2 * Pow10(7 - scale)) + 2 * Pow10(7 - scale)
  }

  lemma ProductRounds(q: nat, p: nat, scale: nat, t: nat)
    requires scale <= 2
    ensures var cents := RoundRatio(Times(q, p), Pow10(7 - scale)).value;
            IsTotal(q, p, scale, t) <==> t == cents && 0 < cents && Times(cents, Pow10(2 - scale)) <= MAX_HUNDREDTHS
  {
    RoundIsNearest(Times(q, p), Pow10(7 - scale), t);
  }

  /** The total of a trade is printed exactly when it is the rounded product and in range. */
  lemma TotalIsRoundedProduct(quantity: string, price: string, scale: nat, q: nat, p: nat, t: nat)
    requires scale == 0 || scale == 2
    requires DecimalUnits(quantity, 3) == Ok(q) && DecimalUnits(price, 4) == Ok(p)
    ensures TradeTotal(quantity, price, scale) == Ok(DecimalText(t, scale)) <==> IsTotal(q, p, scale, t)
    ensures TradeTotal(quantity, price, scale).Err? ==> TradeTotal(quantity, price, scale) == Err(ValueOutOfRange)
  {
    var cents := RoundRatio(Times(q, p), Pow10(7 - scale)).value;
    ProductRounds(q, p, scale, t);
    if DecimalText(t, scale) == DecimalText(cents, scale) { TextIsInjective(t, cents, scale); }
  }

  // ----- installments

  datatype Split = Split(total: string, deposit: string, balance: string)

  /** The percentage has two places; the deposit is rounded and the balance is the rest. */
  function ExactInstallmentAmounts(total: string, percentage: string, scale: int): Result<Split, MoneyError> {
    if !SupportedScale(scale) then Err(UnsupportedPrecision)
    else
      var cents := DecimalUnits(total, scale);
      if cents.Err? then Err(cents.error)
      else
        var hundredths := DecimalUnits(percentage, 2);
        if hundredths.Err? then Err(hundredths.error)
        else if hundredths.value > 10_000 then Err(PercentageTooHigh)
        else
          var deposit := RoundRatio(Times(cents.value, hundredths.value), 10_000).value;
          DepositWithinTotal(cents.value, hundredths.value);
          Ok(Split(DecimalText(cents.value, scale), DecimalText(deposit, scale), DecimalText(cents.value - deposit, scale)))
  }

  lemma DepositWithinTotal(cents: nat, hundredths: nat)
    requires hundredths <= 10_000
    ensures RoundRatio(Times(cents, hundredths), 10_000).value <= cents
  {
    var r := RoundRatio(Times(cents, hundredths), 10_000).value;
    RoundIsNearest(Times(cents, hundredths), 10_000, r);
    if hundredths < 10_000 { TimesSteps(hundredths, 10_000, cents); TimesCommutes(hundredths, cents); }
    if cents < r { TimesSteps(cents, r, 20_000); }
  }

  lemma SplitTexts(total: string, percentage: string, scale: int, c: nat, h: nat)
    requires SupportedScale(scale) && ExactInstallmentAmounts(total, percentage, scale).Ok?
    requires DecimalUnits(total, scale) == Ok(c) && DecimalUnits(percentage, 2) == Ok(h)
    ensures h <= 10_000
    ensures var d := RoundRatio(Times(c, h), 10_000).value;
            d <= c && ExactInstallmentAmounts(total, percentage, scale) == Ok(Split(DecimalText(c, scale), DecimalText(d, scale), DecimalText(c - d, scale)))
  {
    DepositWithinTotal(c, h);
  }

  /** The parts read back as amounts that add up exactly, and the deposit is the nearest minor unit to its share. */
  lemma SplitIsExact(total: string, percentage: string, scale: int, c: nat, h: nat) returns (deposit: nat)
    requires SupportedScale(scale) && ExactInstallmentAmounts(total, percentage, scale).Ok?
    requires DecimalUnits(total, scale) == Ok(c) && DecimalUnits(percentage, 2) == Ok(h)
    ensures deposit <= c && -10_000 <= 2 * Times(c, h) - 20_000 * deposit < 10_000
    ensures var s := ExactInstallmentAmounts(total, percentage, scale).value;
            && DecimalUnits(s.total, scale) == Ok(c)
            && DecimalUnits(s.deposit, scale) == Ok(deposit)
            && DecimalUnits(s.balance, scale) == Ok(c - deposit)
  {
    SplitTexts(total, percentage, scale, c, h);
    deposit := RoundRatio(Times(c, h), 10_000).value;
    RoundIsNearest(Times(c, h), 10_000, deposit);
    PrintParse(c, scale);
    PrintParse(deposit, scale);
    PrintParse(c - deposit, scale);
  }
}
