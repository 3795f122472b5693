/** The payout engine: the forward payout formula and its inverse, which solves for the
    hours needed to reach a target net payout. All amounts are exact reals. */
module Calculator {
  import opened Wrappers
  import opened Types

  /** The fraction of gross that is left after the service fee and the VAT charged on that
      fee: `1 - s(1 + v)` with `s` and `v` the two percentages as fractions. */
  function RetentionDivisor(serviceFeeRate: real, vatRate: real): real {
    1.0 - (serviceFeeRate / 100.0) * (1.0 + vatRate / 100.0)
  }

  function Max(a: real, b: real): real {
    if a >= b then a else b
  }

  /** `exchangeRate || 1`: a rate of zero is falsy and is replaced by 1. */
  function EffectiveExchangeRate(exchangeRate: real): (r: real)
    ensures r != 0.0
    ensures exchangeRate == 0.0 ==> r == 1.0
    ensures exchangeRate != 0.0 ==> r == exchangeRate
  {
    if exchangeRate == 0.0 then 1.0 else exchangeRate
  }

  /** The all-zero result the inverse returns when no number of hours can reach a target.
      Only the withdrawal fee is echoed; both hour fields are present and zero. */
  predicate IsUnreachableSentinel(r: CalculationResults, withdrawalFee: real) {
    r == CalculationResults(0.0, 0.0, 0.0, 0.0, withdrawalFee, 0.0, 0.0, 0.0, Some(0.0), Some(0.0))
  }

  /** The guard of the inverse: fees and VAT take all of gross, or the rate earns nothing. */
  predicate TargetUnreachable(inputs: CalculatorInputs) {
    RetentionDivisor(inputs.serviceFeeRate, inputs.vatRate) <= 0.0 || inputs.hourlyRate <= 0.0
  }

  /** An absent target counts as zero. */
  function TargetOf(inputs: CalculatorInputs): real {
    inputs.targetNet.GetOr(0.0)
  }

  /** Forward payout: what `hoursWorked` hours at `hourlyRate` pay out after the percentage
      service fee, VAT on that fee and the fixed withdrawal fee, in base and local currency. */
  function CalculatePayout(inputs: CalculatorInputs): (r: CalculationResults)
    ensures r.gross == inputs.hourlyRate * inputs.hoursWorked
    ensures r.serviceFeeAmount == r.gross * (inputs.serviceFeeRate / 100.0)
    ensures r.vatAmount == r.gross * (inputs.serviceFeeRate / 100.0) * (inputs.vatRate / 100.0)
    ensures r.subtotal == r.gross - r.serviceFeeAmount - r.vatAmount
    ensures r.subtotal == r.gross * RetentionDivisor(inputs.serviceFeeRate, inputs.vatRate)
    ensures r.net >= 0.0 && r.net >= r.subtotal - inputs.withdrawalFee
    ensures r.net == 0.0 || r.net == r.subtotal - inputs.withdrawalFee
    ensures r.totalDeductions == r.serviceFeeAmount + r.vatAmount + inputs.withdrawalFee
    ensures r.withdrawalFee == inputs.withdrawalFee
    ensures inputs.exchangeRate != 0.0 ==> r.netInLocalCurrency == r.net * inputs.exchangeRate
    ensures inputs.exchangeRate == 0.0 ==> r.netInLocalCurrency == r.net
    ensures r.hoursRequired.None? && r.hoursPerDay.None?
  {
    var gross := inputs.hourlyRate * inputs.hoursWorked;
    var serviceFeeAmount := gross * (inputs.serviceFeeRate / 100.0);
    var vatAmount := serviceFeeAmount * (inputs.vatRate / 100.0);
    var subtotal := gross - serviceFeeAmount - vatAmount;
    var net := Max(0.0, subtotal - inputs.withdrawalFee);
    var totalDeductions := serviceFeeAmount + vatAmount + inputs.withdrawalFee;
    var netInLocalCurrency := net * EffectiveExchangeRate(inputs.exchangeRate);
    CalculationResults(gross, serviceFeeAmount, vatAmount, subtotal, inputs.withdrawalFee,
                       totalDeductions, net, netInLocalCurrency, None, None)
  }

  /** Inverse payout: the gross and hours needed so that the net payout equals the target,
      with the breakdown obtained by running the forward formula on those hours. */
  function CalculateTargetHours(inputs: CalculatorInputs): (r: CalculationResults)
    ensures r.withdrawalFee == inputs.withdrawalFee
    ensures r.hoursRequired.Some? && r.hoursPerDay.Some?
    ensures r.net >= 0.0
    ensures TargetUnreachable(inputs) ==> IsUnreachableSentinel(r, inputs.withdrawalFee)
  {
    var targetNet := TargetOf(inputs);
    var divisor := RetentionDivisor(inputs.serviceFeeRate, inputs.vatRate);
    if divisor <= 0.0 || inputs.hourlyRate <= 0.0 then
      CalculationResults(0.0, 0.0, 0.0, 0.0, inputs.withdrawalFee, 0.0, 0.0, 0.0, Some(0.0), Some(0.0))
    else
      var grossRequired := (targetNet + inputs.withdrawalFee) / divisor;
      var hoursRequired := grossRequired / inputs.hourlyRate;
      var hoursPerDay :=
        if inputs.workingDaysPerWeek > 0.0 then hoursRequired / inputs.workingDaysPerWeek else 0.0;
      var breakdown := CalculatePayout(inputs.(hoursWorked := hoursRequired));
      breakdown.(hoursRequired := Some(hoursRequired), hoursPerDay := Some(hoursPerDay))
  }

  // ---------------------------------------------------------------------------------------
  // Forward formula

  /** Net is the withdrawal-fee-reduced subtotal floored at zero; when the fixed fee is larger
      than the subtotal the payout is zero, yet the full fee is still reported as a deduction. */
  lemma NetClamp(inputs: CalculatorInputs)
    ensures var r := CalculatePayout(inputs);
      (r.subtotal >= inputs.withdrawalFee ==> r.net == r.subtotal - inputs.withdrawalFee) &&
      (r.subtotal <= inputs.withdrawalFee ==>
         r.net == 0.0 && r.totalDeductions == r.serviceFeeAmount + r.vatAmount + inputs.withdrawalFee)
  {
  }

  /** The deductions are nominal: net plus deductions equals gross exactly when the clamp did
      not bite, and exceeds gross by the part of the withdrawal fee the clamp absorbed. */
  lemma DeductionsReconcile(inputs: CalculatorInputs)
    ensures var r := CalculatePayout(inputs);
      r.net + r.totalDeductions == r.gross + Max(0.0, inputs.withdrawalFee - r.subtotal)
  {
  }

  /** With a non-negative rate and fees, more hours never pay out less. */
  lemma NetMonotoneInHours(inputs: CalculatorInputs, h1: real, h2: real)
    requires inputs.hourlyRate >= 0.0 && RetentionDivisor(inputs.serviceFeeRate, inputs.vatRate) >= 0.0
    requires h1 <= h2
    ensures CalculatePayout(inputs.(hoursWorked := h1)).net <= CalculatePayout(inputs.(hoursWorked := h2)).net
  {
    var d := RetentionDivisor(inputs.serviceFeeRate, inputs.vatRate);
    var k := inputs.hourlyRate * d;
    assert k >= 0.0 by { NonNegProduct(inputs.hourlyRate, d); }
    assert inputs.hourlyRate * h1 * d == k * h1;
    assert inputs.hourlyRate * h2 * d == k * h2;
    assert k * h2 - k * h1 == k * (h2 - h1);
    NonNegProduct(k, h2 - h1);
  }

  lemma NonNegProduct(a: real, b: real)
    requires a >= 0.0 && b >= 0.0
    ensures a * b >= 0.0
  {
  }

  // ---------------------------------------------------------------------------------------
  // Inverse solve

  /** Round trip: when a solution exists, the solved gross pays back the target and the
      withdrawal fee after fee and VAT, the solved hours earn exactly that gross, and the
      net payout is the target (or zero for a negative target). */
  lemma TargetRoundTrip(inputs: CalculatorInputs)
    requires !TargetUnreachable(inputs)
    ensures var r := CalculateTargetHours(inputs);
      var d := RetentionDivisor(inputs.serviceFeeRate, inputs.vatRate);
      r.gross == (TargetOf(inputs) + inputs.withdrawalFee) / d &&
      r.gross == inputs.hourlyRate * r.hoursRequired.value &&
      r.subtotal == TargetOf(inputs) + inputs.withdrawalFee &&
      r.net == Max(0.0, TargetOf(inputs)) &&
      (TargetOf(inputs) >= 0.0 ==> r.net == TargetOf(inputs))
  {
    var r := CalculateTargetHours(inputs);
    var d := RetentionDivisor(inputs.serviceFeeRate, inputs.vatRate);
    var t := TargetOf(inputs) + inputs.withdrawalFee;
    var g := t / d;
    var h := g / inputs.hourlyRate;
    assert inputs.hourlyRate * h == g;
    assert g * d == t;
  }

  /** The breakdown of a solved target is the forward breakdown for the solved hours: the two
      modes never drift apart. */
  lemma TargetAgreesWithForward(inputs: CalculatorInputs)
    requires !TargetUnreachable(inputs)
    ensures var r := CalculateTargetHours(inputs);
      r.(hoursRequired := None, hoursPerDay := None) ==
      CalculatePayout(inputs.(hoursWorked := r.hoursRequired.value))
  {
  }

  /** The solved hours are the fewest that reach a positive target: any number of hours pays
      out at least the target exactly when it is at least `hoursRequired`. */
  lemma TargetHoursMinimal(inputs: CalculatorInputs, h: real)
    requires !TargetUnreachable(inputs) && TargetOf(inputs) > 0.0
    ensures CalculatePayout(inputs.(hoursWorked := h)).net >= TargetOf(inputs)
        <==> h >= CalculateTargetHours(inputs).hoursRequired.value
  {
    var d := RetentionDivisor(inputs.serviceFeeRate, inputs.vatRate);
    var t := TargetOf(inputs) + inputs.withdrawalFee;
    var k := inputs.hourlyRate * d;
    var hr := CalculateTargetHours(inputs).hoursRequired.value;
    assert hr == t / d / inputs.hourlyRate;
    assert hr == t / k;
    assert k > 0.0;
    var sub := CalculatePayout(inputs.(hoursWorked := h)).subtotal;
    assert sub == k * h;
    ScaleOrder(k, h, t);
  }

  /** For a positive factor `k`, `k * h >= t` exactly when `h >= t / k`. */
  lemma ScaleOrder(k: real, h: real, t: real)
    requires k > 0.0
    ensures k * h >= t <==> h >= t / k
  {
    assert k * (t / k) == t;
    if h >= t / k {
      assert k * h - t == k * (h - t / k);
      NonNegProduct(k, h - t / k);
    } else {
      assert t - k * h == k * (t / k - h);
      assert k * (t / k - h) > 0.0;
    }
  }

  /** Hours per day spread the solved hours over the working days; with no working days the
      daily figure is zero. */
  lemma HoursPerDaySplit(inputs: CalculatorInputs)
    ensures var r := CalculateTargetHours(inputs);
      (inputs.workingDaysPerWeek > 0.0 ==>
         r.hoursPerDay.value * inputs.workingDaysPerWeek == r.hoursRequired.value) &&
      (inputs.workingDaysPerWeek <= 0.0 ==> r.hoursPerDay.value == 0.0)
  {
  }

  /** The guard is justified: when fees and VAT take all of gross, or the rate is zero, no
      non-negative number of hours pays out anything (for a non-negative rate and fee). */
  lemma UnreachableEarnsNothing(inputs: CalculatorInputs, h: real)
    requires inputs.hourlyRate >= 0.0 && inputs.withdrawalFee >= 0.0 && h >= 0.0
    requires TargetUnreachable(inputs)
    ensures CalculatePayout(inputs.(hoursWorked := h)).net == 0.0
  {
    var d := RetentionDivisor(inputs.serviceFeeRate, inputs.vatRate);
    var g := inputs.hourlyRate * h;
    NonNegProduct(inputs.hourlyRate, h);
    if d <= 0.0 {
      NonNegProduct(g, -d);
      assert g * d == -(g * -d);
    } else {
      assert inputs.hourlyRate == 0.0;
    }
  }

  /** The solved gross is positive exactly when a solution exists and the target plus the
      withdrawal fee is positive. */
  lemma TargetGrossPositive(inputs: CalculatorInputs)
    ensures CalculateTargetHours(inputs).gross > 0.0
        <==> !TargetUnreachable(inputs) && TargetOf(inputs) + inputs.withdrawalFee > 0.0
  {
    if !TargetUnreachable(inputs) {
      TargetRoundTrip(inputs);
      var d := RetentionDivisor(inputs.serviceFeeRate, inputs.vatRate);
      var t := TargetOf(inputs) + inputs.withdrawalFee;
      assert (t / d) * d == t;
    }
  }

  // ---------------------------------------------------------------------------------------
  // Worked examples

  /** 40 hours at 50 with a 10% fee, 20% VAT on the fee and a 30 withdrawal fee. */
  lemma ForwardExample()
    ensures var r := CalculatePayout(DefaultInputs);
      r.gross == 2000.0 && r.serviceFeeAmount == 200.0 && r.vatAmount == 40.0 &&
      r.subtotal == 1760.0 && r.net == 1730.0 && r.netInLocalCurrency == 1730.0 &&
      r.totalDeductions == 270.0
  {
  }

  /** A target of 1000 with the same fees: gross 1030/0.88, about 23.41 hours, 4.68 a day. */
  lemma TargetExample()
    ensures var r := CalculateTargetHours(DefaultInputs);
      r.gross == 12875.0 / 11.0 && r.hoursRequired == Some(515.0 / 22.0) &&
      r.hoursPerDay == Some(103.0 / 22.0) && r.net == 1000.0
  {
  }

  /** A 100% service fee with no VAT leaves a divisor of zero, so the inverse gives up. */
  lemma FullFeeExample(inputs: CalculatorInputs)
    requires inputs.serviceFeeRate == 100.0 && inputs.vatRate == 0.0
    ensures RetentionDivisor(inputs.serviceFeeRate, inputs.vatRate) == 0.0
    ensures IsUnreachableSentinel(CalculateTargetHours(inputs), inputs.withdrawalFee)
  {
  }
}
