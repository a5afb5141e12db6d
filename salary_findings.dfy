/** The semi-monthly conversion of `amounts`. `getSalaryResults` counts 24
    half-months a year, but the `when` dispatch divides a semi-monthly amount
    by the monthly hours and then scales it by 12/24, so the amount stands for
    four half-months at once. Here the dispatch is modelled both as written
    (`Salary.HourlyRate`, `Salary.Compute`) and as evidently intended. */
module SalaryFindings {
  import opened Wrappers
  import opened Salary
  import opened SalaryLaws

  /** The `when` dispatch with a semi-monthly amount read as one of 24
      half-months a year; the other seven periods are converted as written. */
  function IntendedHourlyRate(p: PerAmount, amount: real, b: Basis): (h: real)
    requires b.Valid()
    ensures p == SemiMonthly ==> HourlyRate(p, amount, b) == h / 4.0
  {
    if p == SemiMonthly then
      assert b.monthlyHours != 0.0;
      QuarterRate(amount, b.monthlyHours);
      amount * 24.0 / MonthsPerYear / b.monthlyHours
    else HourlyRate(p, amount, b)
  }

  lemma QuarterRate(a: real, m: real)
    requires m != 0.0
    ensures a / m * MonthsPerYear / 24.0 == a * 24.0 / MonthsPerYear / m / 4.0
  {
  }

  /** `amounts` with the intended semi-monthly conversion. */
  function ComputeIntended(input: SalaryInput): (r: SalaryResults)
    requires Computable(input)
    ensures Validate(input).None? ==> r == ZeroResults()
  {
    match Validate(input)
    case None => ZeroResults()
    case Some(f) =>
      var b := BasisOf(f);
      GetSalaryResults(IntendedHourlyRate(input.perAmount, f.amount, b), b)
  }

  /** With the intended conversion a semi-monthly result converts back to
      the hourly rate it came from. */
  lemma IntendedSemiMonthlyRate(h: real, b: Basis)
    requires b.Valid()
    ensures IntendedHourlyRate(SemiMonthly, GetSalaryResults(h, b).semiMonthly.unadjusted, b) == h
  {
    assert b.monthlyHours != 0.0;
    HalfMonthsBack(h, b.monthlyHours);
  }

  lemma HalfMonthsBack(h: real, m: real)
    requires m != 0.0
    ensures h * m * MonthsPerYear / 24.0 * 24.0 / MonthsPerYear / m == h
  {
    Undo(h * m, MonthsPerYear / 24.0);
    Undo(h, m);
  }

  /** With the intended conversion a semi-monthly amount comes back
      unchanged. */
  lemma IntendedSemiMonthlyAmount(a: real, b: Basis)
    requires b.Valid()
    ensures GetSalaryResults(IntendedHourlyRate(SemiMonthly, a, b), b).semiMonthly.unadjusted == a
  {
    assert b.monthlyHours != 0.0;
    Undo(a * 24.0 / MonthsPerYear, b.monthlyHours);
  }

  /** Corrected: every period, the semi-monthly one included, shows the
      entered amount again. */
  lemma IntendedRoundTrip(input: SalaryInput)
    requires Computable(input) && Validate(input).Some?
    ensures ComputeIntended(input).Of(input.perAmount).unadjusted == input.amount.value
  {
    var f := Validate(input).value;
    var b := BasisOf(f);
    if input.perAmount == SemiMonthly {
      IntendedSemiMonthlyAmount(f.amount, b);
    } else {
      AmountRoundTrip(input.perAmount, f.amount, b);
    }
  }

  /** The two definitions differ only for a semi-monthly amount, where the
      results as written are a quarter of the intended ones. */
  lemma IntendedAgrees(input: SalaryInput)
    requires Computable(input)
    ensures input.perAmount != SemiMonthly ==> ComputeIntended(input) == Compute(input)
    ensures input.perAmount == SemiMonthly ==> Compute(input) == Scale(ComputeIntended(input), 0.25)
  {
    if Validate(input).Some? && input.perAmount == SemiMonthly {
      var f := Validate(input).value;
      var b := BasisOf(f);
      var h := HourlyRate(SemiMonthly, f.amount, b);
      var hi := IntendedHourlyRate(SemiMonthly, f.amount, b);
      ScaledRateResults(hi, h, 0.25, b);
    }
  }

  /** As written, a semi-monthly amount shows a quarter of itself as the
      semi-monthly result; the intended conversion shows the amount. */
  lemma SemiMonthlyAsWritten(input: SalaryInput)
    requires Computable(input) && Validate(input).Some? && input.perAmount == SemiMonthly
    ensures Compute(input).semiMonthly.unadjusted == input.amount.value / 4.0
    ensures ComputeIntended(input).semiMonthly.unadjusted == input.amount.value
  {
    RoundTrip(input);
    IntendedRoundTrip(input);
  }

  /** A semi-monthly amount of 1000 at 40 hours over 5 days and no time off. */
  function SemiMonthlyExample(): (input: SalaryInput)
    ensures Computable(input) && Validate(input).Some? && input.perAmount == SemiMonthly
    ensures input.amount == Some(1000.0)
  {
    SalaryInput(SemiMonthly, Some(1000.0), Some(40.0), Some(5), Some(0), Some(0))
  }

  /** Entered as the semi-monthly amount, 1000 shows a semi-monthly result
      of 250; the intended conversion shows 1000. */
  lemma SemiMonthlyCounterexample()
    ensures Compute(SemiMonthlyExample()).semiMonthly.unadjusted == 250.0
    ensures ComputeIntended(SemiMonthlyExample()).semiMonthly.unadjusted == 1000.0
  {
    SemiMonthlyAsWritten(SemiMonthlyExample());
  }
}
