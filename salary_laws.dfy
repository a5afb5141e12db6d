/** What the conversion engine promises: how the eight periods relate, what
    time off changes, the round trip from the entered amount, linearity in the
    amount, the fallback and the default scenario. */
module SalaryLaws {
  import opened Wrappers
  import opened Salary

  /** The unadjusted values all come from the nominal hours: two weeks make a
      bi-week, and 52 weeks, 12 months, 4 quarters and 24 half-months each
      make a year. */
  lemma UnadjustedRelations(h: real, b: Basis)
    requires b.Valid()
    ensures var r := GetSalaryResults(h, b);
      r.biWeekly.unadjusted == 2.0 * r.weekly.unadjusted &&
      r.yearly.unadjusted == 52.0 * r.weekly.unadjusted &&
      r.yearly.unadjusted == 12.0 * r.monthly.unadjusted &&
      r.yearly.unadjusted == 4.0 * r.quarterly.unadjusted &&
      r.yearly.unadjusted == 24.0 * r.semiMonthly.unadjusted
  {
  }

  /** A day's unadjusted pay, over the days of the week, makes the week's. */
  lemma DailyTimesDays(h: real, f: Fields)
    requires f.hoursPerWeek != 0.0 && f.daysPerWeek != 0
    ensures var r := GetSalaryResults(h, BasisOf(f));
      r.daily.unadjusted * f.daysPerWeek as real == r.weekly.unadjusted
  {
    var b := BasisOf(f);
    var r := GetSalaryResults(h, b);
    calc {
      r.daily.unadjusted * f.daysPerWeek as real;
      (h * b.dailyHours) * f.daysPerWeek as real;
      h * (b.dailyHours * f.daysPerWeek as real);
      h * b.weeklyHours;
    }
  }

  /** The adjusted values all spread `adjustedYear` evenly: over 12 months,
      4 quarters, 24 half-months, 52 weeks and 260 working days, and a working
      day over its hours. */
  lemma AdjustedRelations(h: real, b: Basis)
    requires b.Valid()
    ensures var r := GetSalaryResults(h, b);
      r.yearly.adjusted == AdjustedYear(h, b) &&
      r.monthly.adjusted * 12.0 == r.yearly.adjusted &&
      r.quarterly.adjusted * 4.0 == r.yearly.adjusted &&
      r.semiMonthly.adjusted * 24.0 == r.yearly.adjusted &&
      r.weekly.adjusted * 52.0 == r.yearly.adjusted &&
      r.biWeekly.adjusted == 2.0 * r.weekly.adjusted &&
      r.daily.adjusted * 260.0 == r.yearly.adjusted &&
      r.hourly.adjusted * b.dailyHours == r.daily.adjusted
  {
  }

  /** In `r` the adjusted year is the unadjusted year scaled by the share
      of the 52 weeks that are not among the `offWeeks` off-weeks. */
  predicate YearShare(r: SalaryResults, offWeeks: int) {
    r.yearly.adjusted == r.yearly.unadjusted * (WeeksPerYear - offWeeks as real) / WeeksPerYear
  }

  /** The adjusted year is the unadjusted year scaled by the share of the
      52 weeks that are not off-weeks. */
  lemma AdjustedYearShare(h: real, b: Basis)
    requires b.Valid()
    ensures YearShare(GetSalaryResults(h, b), OffWeeks(b.offDays))
  {
  }

  // The closed form of `getSalaryResults`

  /** Per period, the hours it pays for before time off (`unadjusted`) and
      its share of the adjusted year (`adjusted`): the results for an hourly
      rate of one and an adjusted year of one. */
  function Coefficients(b: Basis): SalaryResults
    requires b.dailyHours != 0.0
  {
    SalaryResults(
      hourly := Adjustments(1.0, 1.0 / (WorkDaysPerYear * b.dailyHours)),
      daily := Adjustments(b.dailyHours, 1.0 / WorkDaysPerYear),
      weekly := Adjustments(b.weeklyHours, 1.0 / WeeksPerYear),
      biWeekly := Adjustments(2.0 * b.weeklyHours, 2.0 / WeeksPerYear),
      semiMonthly := Adjustments(b.monthlyHours / 2.0, 1.0 / 24.0),
      monthly := Adjustments(b.monthlyHours, 1.0 / MonthsPerYear),
      quarterly := Adjustments(b.quarterlyHours, 1.0 / QuartersPerYear),
      yearly := Adjustments(WeeksPerYear * b.weeklyHours, 1.0))
  }

  /** One period's values for the rate `h` and adjusted year `y`, from the
      period's hours and share of the year in `c`. */
  function Mix(h: real, y: real, c: Adjustments): Adjustments {
    Adjustments(h * c.unadjusted, y * c.adjusted)
  }

  /** The results for the rate `h` and adjusted year `y`, period by period. */
  function Closed(h: real, y: real, c: SalaryResults): (r: SalaryResults)
    ensures forall p :: r.Of(p) == Mix(h, y, c.Of(p))
  {
    SalaryResults(Mix(h, y, c.hourly), Mix(h, y, c.daily), Mix(h, y, c.weekly), Mix(h, y, c.biWeekly),
                  Mix(h, y, c.semiMonthly), Mix(h, y, c.monthly), Mix(h, y, c.quarterly), Mix(h, y, c.yearly))
  }

  /** `getSalaryResults` in closed form: every unadjusted value is the
      hourly rate times the hours its period pays for, and every adjusted
      value a fixed share of `adjustedYear`. */
  lemma ResultsFormula(h: real, b: Basis)
    requires b.dailyHours != 0.0
    ensures GetSalaryResults(h, b) == Closed(h, AdjustedYear(h, b), Coefficients(b))
  {
    var r, c := GetSalaryResults(h, b), Coefficients(b);
    var y := AdjustedYear(h, b);
    HoursShares(h, b.weeklyHours, b.monthlyHours);
    YearShares(y, b.dailyHours);
    assert r.hourly == Mix(h, y, c.hourly) && r.daily == Mix(h, y, c.daily);
    assert r.weekly == Mix(h, y, c.weekly) && r.biWeekly == Mix(h, y, c.biWeekly);
    assert r.semiMonthly == Mix(h, y, c.semiMonthly) && r.monthly == Mix(h, y, c.monthly);
    assert r.quarterly == Mix(h, y, c.quarterly) && r.yearly == Mix(h, y, c.yearly);
  }

  /** The unadjusted values of `getSalaryResults` against the hours of
      `Coefficients`. */
  lemma HoursShares(h: real, w: real, m: real)
    ensures h * w * 2.0 == h * (2.0 * w)
    ensures h * m * MonthsPerYear / 24.0 == h * (m / 2.0)
    ensures h * w * WeeksPerYear == h * (WeeksPerYear * w)
  {
  }

  /** The adjusted values of `getSalaryResults` against the shares of the
      year in `Coefficients`. */
  lemma YearShares(y: real, d: real)
    requires d != 0.0
    ensures y / WorkDaysPerYear / d == y * (1.0 / (WorkDaysPerYear * d))
    ensures y / WorkDaysPerYear == y * (1.0 / WorkDaysPerYear)
    ensures y / WeeksPerYear == y * (1.0 / WeeksPerYear)
    ensures y / WeeksPerYear * 2.0 == y * (2.0 / WeeksPerYear)
    ensures y / 24.0 == y * (1.0 / 24.0)
    ensures y / MonthsPerYear == y * (1.0 / MonthsPerYear)
    ensures y / QuartersPerYear == y * (1.0 / QuartersPerYear)
  {
  }

  /** For a positive week and day, every period pays for positive hours and
      a positive share of the year. */
  lemma CoefficientsPositive(b: Basis)
    requires b.Valid() && b.weeklyHours > 0.0 && b.dailyHours > 0.0
    ensures forall p :: Coefficients(b).Of(p).unadjusted > 0.0 && Coefficients(b).Of(p).adjusted > 0.0
  {
    assert WorkDaysPerYear * b.dailyHours > 0.0;
  }

  /** Holidays and vacation days change no hours of the schedule. */
  lemma CoefficientsIgnoreTimeOff(b1: Basis, b2: Basis)
    requires b1.dailyHours != 0.0 && b2 == b1.(offDays := b2.offDays)
    ensures Coefficients(b1) == Coefficients(b2)
  {
  }

  /** Two results for one schedule, whatever the rates and the days off,
      share their coefficients. The coefficients are returned rather than
      named, so that callers reason about them abstractly. */
  lemma SharedForm(h1: real, b1: Basis, h2: real, b2: Basis) returns (c: SalaryResults)
    requires b1.dailyHours != 0.0 && b2 == b1.(offDays := b2.offDays)
    ensures GetSalaryResults(h1, b1) == Closed(h1, AdjustedYear(h1, b1), c)
    ensures GetSalaryResults(h2, b2) == Closed(h2, AdjustedYear(h2, b2), c)
    ensures b1.Valid() && b1.weeklyHours > 0.0 && b1.dailyHours > 0.0 ==> forall p :: c.Of(p).adjusted > 0.0
  {
    c := Coefficients(b1);
    CoefficientsIgnoreTimeOff(b1, b2);
    ResultsFormula(h1, b1);
    ResultsFormula(h2, b2);
    if b1.Valid() && b1.weeklyHours > 0.0 && b1.dailyHours > 0.0 {
      CoefficientsPositive(b1);
    }
  }

  /** Two result records that agree on every period are the same record. */
  lemma ResultsExtensional(r1: SalaryResults, r2: SalaryResults)
    requires forall p :: r1.Of(p) == r2.Of(p)
    ensures r1 == r2
  {
    assert r1.hourly == r2.Of(Hourly) && r1.daily == r2.Of(Daily) && r1.weekly == r2.Of(Weekly);
    assert r1.biWeekly == r2.Of(BiWeekly) && r1.semiMonthly == r2.Of(SemiMonthly);
    assert r1.monthly == r2.Of(Monthly) && r1.quarterly == r2.Of(Quarterly) && r1.yearly == r2.Of(Yearly);
  }

  /** The hourly rate is the entered amount over the hours it stands for. */
  lemma RateFormula(p: PerAmount, a: real, b: Basis)
    requires b.Valid()
    ensures RateHours(p, b) != 0.0
    ensures HourlyRate(p, a, b) == a / RateHours(p, b)
  {
    match p
    case BiWeekly => DivTwice(a, 2.0, b.weeklyHours);
    case SemiMonthly =>
      assert b.monthlyHours != 0.0;
      DivTwice(a, b.monthlyHours, 2.0);
    case Monthly => assert b.monthlyHours != 0.0;
    case Quarterly => assert b.quarterlyHours != 0.0;
    case Yearly => DivTwice(a, b.weeklyHours, WeeksPerYear);
    case _ =>
  }

  /** Dividing twice is dividing by the product. */
  lemma DivTwice(a: real, x: real, y: real)
    requires x != 0.0 && y != 0.0
    ensures a / x / y == a / (x * y) == a / (y * x)
    ensures a / x * MonthsPerYear / 24.0 == a / x / 2.0
  {
  }

  lemma Undo(x: real, n: real)
    requires n != 0.0
    ensures x * n / n == x
    ensures x / n * n == x
  {
  }

  /* Per period, the hours of `getSalaryResults` against the conversion of
     the `when` dispatch, in both directions, with `u` the period's unadjusted
     value for the hourly rate `h`. */

  lemma DailyInverse(h: real, u: real, a: real, b: Basis)
    requires b.Valid()
    ensures u == h * b.dailyHours ==> HourlyRate(Daily, u, b) == h
    ensures HourlyRate(Daily, a, b) * b.dailyHours == a
  {
    Undo(h, b.dailyHours);
    Undo(a, b.dailyHours);
  }

  lemma WeeklyInverse(h: real, u: real, a: real, b: Basis)
    requires b.Valid()
    ensures u == h * b.weeklyHours ==> HourlyRate(Weekly, u, b) == h
    ensures HourlyRate(Weekly, a, b) * b.weeklyHours == a
  {
    Undo(h, b.weeklyHours);
    Undo(a, b.weeklyHours);
  }

  lemma BiWeeklyInverse(h: real, u: real, a: real, b: Basis)
    requires b.Valid()
    ensures u == h * b.weeklyHours * 2.0 ==> HourlyRate(BiWeekly, u, b) == h
    ensures HourlyRate(BiWeekly, a, b) * b.weeklyHours * 2.0 == a
  {
    Undo(h, b.weeklyHours);
    Undo(a / 2.0, b.weeklyHours);
  }

  lemma SemiMonthlyInverse(h: real, u: real, a: real, b: Basis)
    requires b.Valid()
    ensures u == h * b.monthlyHours * MonthsPerYear / 24.0 ==> HourlyRate(SemiMonthly, u, b) == h / 4.0
    ensures HourlyRate(SemiMonthly, a, b) * b.monthlyHours * MonthsPerYear / 24.0 == a / 4.0
  {
    assert b.monthlyHours != 0.0;
    Undo(h / 2.0, b.monthlyHours);
    assert b.monthlyHours != 0.0;
    Undo(a, b.monthlyHours);
  }

  lemma MonthlyInverse(h: real, u: real, a: real, b: Basis)
    requires b.Valid()
    ensures u == h * b.monthlyHours ==> HourlyRate(Monthly, u, b) == h
    ensures HourlyRate(Monthly, a, b) * b.monthlyHours == a
  {
    assert b.monthlyHours != 0.0;
    Undo(h, b.monthlyHours);
    assert b.monthlyHours != 0.0;
    Undo(a, b.monthlyHours);
  }

  lemma QuarterlyInverse(h: real, u: real, a: real, b: Basis)
    requires b.Valid()
    ensures u == h * b.quarterlyHours ==> HourlyRate(Quarterly, u, b) == h
    ensures HourlyRate(Quarterly, a, b) * b.quarterlyHours == a
  {
    assert b.quarterlyHours != 0.0;
    Undo(h, b.quarterlyHours);
    assert b.quarterlyHours != 0.0;
    Undo(a, b.quarterlyHours);
  }

  lemma YearlyInverse(h: real, u: real, a: real, b: Basis)
    requires b.Valid()
    ensures u == h * b.weeklyHours * WeeksPerYear ==> HourlyRate(Yearly, u, b) == h
    ensures HourlyRate(Yearly, a, b) * b.weeklyHours * WeeksPerYear == a
  {
    Undo(h * 52.0, b.weeklyHours);
    Undo(a, b.weeklyHours);
  }

  lemma DailyRateRoundTrip(h: real, b: Basis)
    requires b.Valid()
    ensures HourlyRate(Daily, GetSalaryResults(h, b).daily.unadjusted, b) == h
  {
    DailyInverse(h, GetSalaryResults(h, b).daily.unadjusted, 0.0, b);
  }

  lemma DailyAmountRoundTrip(a: real, b: Basis)
    requires b.Valid()
    ensures GetSalaryResults(HourlyRate(Daily, a, b), b).daily.unadjusted == a
  {
    DailyInverse(0.0, 0.0, a, b);
  }

  lemma WeeklyRateRoundTrip(h: real, b: Basis)
    requires b.Valid()
    ensures HourlyRate(Weekly, GetSalaryResults(h, b).weekly.unadjusted, b) == h
  {
    WeeklyInverse(h, GetSalaryResults(h, b).weekly.unadjusted, 0.0, b);
  }

  lemma WeeklyAmountRoundTrip(a: real, b: Basis)
    requires b.Valid()
    ensures GetSalaryResults(HourlyRate(Weekly, a, b), b).weekly.unadjusted == a
  {
    WeeklyInverse(0.0, 0.0, a, b);
  }

  lemma BiWeeklyRateRoundTrip(h: real, b: Basis)
    requires b.Valid()
    ensures HourlyRate(BiWeekly, GetSalaryResults(h, b).biWeekly.unadjusted, b) == h
  {
    BiWeeklyInverse(h, GetSalaryResults(h, b).biWeekly.unadjusted, 0.0, b);
  }

  lemma BiWeeklyAmountRoundTrip(a: real, b: Basis)
    requires b.Valid()
    ensures GetSalaryResults(HourlyRate(BiWeekly, a, b), b).biWeekly.unadjusted == a
  {
    BiWeeklyInverse(0.0, 0.0, a, b);
  }

  lemma SemiMonthlyRateRoundTrip(h: real, b: Basis)
    requires b.Valid()
    ensures HourlyRate(SemiMonthly, GetSalaryResults(h, b).semiMonthly.unadjusted, b) == h / 4.0
  {
    SemiMonthlyInverse(h, GetSalaryResults(h, b).semiMonthly.unadjusted, 0.0, b);
  }

  lemma SemiMonthlyAmountRoundTrip(a: real, b: Basis)
    requires b.Valid()
    ensures GetSalaryResults(HourlyRate(SemiMonthly, a, b), b).semiMonthly.unadjusted == a / 4.0
  {
    SemiMonthlyInverse(0.0, 0.0, a, b);
  }

  lemma MonthlyRateRoundTrip(h: real, b: Basis)
    requires b.Valid()
    ensures HourlyRate(Monthly, GetSalaryResults(h, b).monthly.unadjusted, b) == h
  {
    MonthlyInverse(h, GetSalaryResults(h, b).monthly.unadjusted, 0.0, b);
  }

  lemma MonthlyAmountRoundTrip(a: real, b: Basis)
    requires b.Valid()
    ensures GetSalaryResults(HourlyRate(Monthly, a, b), b).monthly.unadjusted == a
  {
    MonthlyInverse(0.0, 0.0, a, b);
  }

  lemma QuarterlyRateRoundTrip(h: real, b: Basis)
    requires b.Valid()
    ensures HourlyRate(Quarterly, GetSalaryResults(h, b).quarterly.unadjusted, b) == h
  {
    QuarterlyInverse(h, GetSalaryResults(h, b).quarterly.unadjusted, 0.0, b);
  }

  lemma QuarterlyAmountRoundTrip(a: real, b: Basis)
    requires b.Valid()
    ensures GetSalaryResults(HourlyRate(Quarterly, a, b), b).quarterly.unadjusted == a
  {
    QuarterlyInverse(0.0, 0.0, a, b);
  }

  lemma YearlyRateRoundTrip(h: real, b: Basis)
    requires b.Valid()
    ensures HourlyRate(Yearly, GetSalaryResults(h, b).yearly.unadjusted, b) == h
  {
    YearlyInverse(h, GetSalaryResults(h, b).yearly.unadjusted, 0.0, b);
  }

  lemma YearlyAmountRoundTrip(a: real, b: Basis)
    requires b.Valid()
    ensures GetSalaryResults(HourlyRate(Yearly, a, b), b).yearly.unadjusted == a
  {
    YearlyInverse(0.0, 0.0, a, b);
  }

  /** Entering the amount shown for a period under that period gives back the
      same hourly rate, except for the semi-monthly period, whose conversion
      divides by two where the semi-monthly value multiplies by one half. */
  lemma RateRoundTrip(p: PerAmount, h: real, b: Basis)
    requires b.Valid()
    ensures p != SemiMonthly ==> HourlyRate(p, GetSalaryResults(h, b).Of(p).unadjusted, b) == h
    ensures p == SemiMonthly ==> HourlyRate(p, GetSalaryResults(h, b).Of(p).unadjusted, b) == h / 4.0
  {
    match p
    case Hourly =>
    case Daily => DailyRateRoundTrip(h, b);
    case Weekly => WeeklyRateRoundTrip(h, b);
    case BiWeekly => BiWeeklyRateRoundTrip(h, b);
    case SemiMonthly => SemiMonthlyRateRoundTrip(h, b);
    case Monthly => MonthlyRateRoundTrip(h, b);
    case Quarterly => QuarterlyRateRoundTrip(h, b);
    case Yearly => YearlyRateRoundTrip(h, b);
  }

  /** Converting an amount to the hourly rate and back to its own period gives
      the amount again, except for the semi-monthly period, which gives a
      quarter of it. */
  lemma AmountRoundTrip(p: PerAmount, a: real, b: Basis)
    requires b.Valid()
    ensures p != SemiMonthly ==> GetSalaryResults(HourlyRate(p, a, b), b).Of(p).unadjusted == a
    ensures p == SemiMonthly ==> GetSalaryResults(HourlyRate(p, a, b), b).Of(p).unadjusted == a / 4.0
  {
    match p
    case Hourly =>
    case Daily => DailyAmountRoundTrip(a, b);
    case Weekly => WeeklyAmountRoundTrip(a, b);
    case BiWeekly => BiWeeklyAmountRoundTrip(a, b);
    case SemiMonthly => SemiMonthlyAmountRoundTrip(a, b);
    case Monthly => MonthlyAmountRoundTrip(a, b);
    case Quarterly => QuarterlyAmountRoundTrip(a, b);
    case Yearly => YearlyAmountRoundTrip(a, b);
  }

  /** The result for the period the amount was entered in shows that amount
      again, except the semi-monthly result, which shows a quarter of it. */
  lemma RoundTrip(input: SalaryInput)
    requires Computable(input) && Validate(input).Some?
    ensures input.perAmount != SemiMonthly ==>
      Compute(input).Of(input.perAmount).unadjusted == input.amount.value
    ensures input.perAmount == SemiMonthly ==>
      Compute(input).Of(input.perAmount).unadjusted == input.amount.value / 4.0
  {
    var f := Validate(input).value;
    AmountRoundTrip(input.perAmount, f.amount, BasisOf(f));
  }

  // Linearity in the amount

  /** Scaling the hourly rate scales the adjusted year alike. */
  lemma AdjustedYearLinear(h: real, k: real, b: Basis)
    ensures AdjustedYear(k * h, b) == k * AdjustedYear(h, b)
  {
    var c := b.weeklyHours * (WeeksPerYear - OffWeeks(b.offDays) as real);
    assert AdjustedYear(h, b) == h * c;
    assert AdjustedYear(k * h, b) == (k * h) * c;
  }

  /** One period's values scale with the rate and the adjusted year. */
  lemma MixLinear(h: real, k: real, y: real, a: Adjustments)
    ensures Mix(k * h, k * y, a) == Scaled(Mix(h, y, a), k)
  {
    assert (k * h) * a.unadjusted == k * (h * a.unadjusted);
    assert (k * y) * a.adjusted == k * (y * a.adjusted);
  }

  /** The closed form is linear: scaling both the rate and the adjusted
      year scales every value. */
  lemma ClosedLinear(h: real, k: real, y: real, c: SalaryResults)
    ensures Closed(k * h, k * y, c) == Scale(Closed(h, y, c), k)
  {
    MixLinear(h, k, y, c.hourly);
    MixLinear(h, k, y, c.daily);
    MixLinear(h, k, y, c.weekly);
    MixLinear(h, k, y, c.biWeekly);
    MixLinear(h, k, y, c.semiMonthly);
    MixLinear(h, k, y, c.monthly);
    MixLinear(h, k, y, c.quarterly);
    MixLinear(h, k, y, c.yearly);
  }

  /** Records in closed form for the rate `h` and the year `y1`, and for
      the rate `k * h` and the year `k * y1`, differ by the factor `k`. */
  lemma FormsLinear(r1: SalaryResults, r2: SalaryResults, h: real, k: real, y1: real, y2: real, c: SalaryResults)
    ensures r1 == Closed(h, y1, c) && r2 == Closed(k * h, y2, c) && y2 == k * y1 ==> r2 == Scale(r1, k)
  {
    ClosedLinear(h, k, y1, c);
  }

  /** `ResultsLinear` for the two records named. */
  lemma ResultsLinearOf(h: real, k: real, b: Basis, r1: SalaryResults, r2: SalaryResults)
    requires b.dailyHours != 0.0 && r1 == GetSalaryResults(h, b) && r2 == GetSalaryResults(k * h, b)
    ensures r2 == Scale(r1, k)
  {
    var c := SharedForm(h, b, k * h, b);
    AdjustedYearLinear(h, k, b);
    FormsLinear(r1, r2, h, k, AdjustedYear(h, b), AdjustedYear(k * h, b), c);
  }

  /** Scaling the hourly rate scales all sixteen results alike. */
  lemma ResultsLinear(h: real, k: real, b: Basis)
    requires b.dailyHours != 0.0
    ensures GetSalaryResults(k * h, b) == Scale(GetSalaryResults(h, b), k)
  {
    ResultsLinearOf(h, k, b, GetSalaryResults(h, b), GetSalaryResults(k * h, b));
  }

  lemma DivLinear(x: real, k: real, y: real)
    requires y != 0.0
    ensures (k * x) / y == k * (x / y)
  {
  }

  lemma DivTwiceLinear(x: real, k: real, y: real, z: real)
    requires y != 0.0 && z != 0.0
    ensures (k * x) / y / z == k * (x / y / z)
  {
    DivLinear(x, k, y);
    DivLinear(x / y, k, z);
  }

  lemma HalfMonthLinear(x: real, k: real, m: real)
    requires m != 0.0
    ensures (k * x) / m * MonthsPerYear / 24.0 == k * (x / m * MonthsPerYear / 24.0)
  {
    DivLinear(x, k, m);
  }

  /** Scaling the entered amount scales the hourly rate alike. */
  lemma RateLinear(p: PerAmount, a: real, k: real, b: Basis)
    requires b.Valid()
    ensures HourlyRate(p, k * a, b) == k * HourlyRate(p, a, b)
  {
    match p
    case Hourly =>
    case Daily => DailyRateLinear(a, k, b);
    case Weekly => WeeklyRateLinear(a, k, b);
    case BiWeekly => BiWeeklyRateLinear(a, k, b);
    case SemiMonthly => SemiMonthlyRateLinear(a, k, b);
    case Monthly => MonthlyRateLinear(a, k, b);
    case Quarterly => QuarterlyRateLinear(a, k, b);
    case Yearly => YearlyRateLinear(a, k, b);
  }

  /* `RateLinear` period by period. */

  lemma DailyRateLinear(a: real, k: real, b: Basis)
    requires b.Valid()
    ensures HourlyRate(Daily, k * a, b) == k * HourlyRate(Daily, a, b)
  {
    DivLinear(a, k, b.dailyHours);
  }

  lemma WeeklyRateLinear(a: real, k: real, b: Basis)
    requires b.Valid()
    ensures HourlyRate(Weekly, k * a, b) == k * HourlyRate(Weekly, a, b)
  {
    DivLinear(a, k, b.weeklyHours);
  }

  lemma BiWeeklyRateLinear(a: real, k: real, b: Basis)
    requires b.Valid()
    ensures HourlyRate(BiWeekly, k * a, b) == k * HourlyRate(BiWeekly, a, b)
  {
    DivTwiceLinear(a, k, 2.0, b.weeklyHours);
  }

  lemma SemiMonthlyRateLinear(a: real, k: real, b: Basis)
    requires b.Valid()
    ensures HourlyRate(SemiMonthly, k * a, b) == k * HourlyRate(SemiMonthly, a, b)
  {
    assert b.monthlyHours != 0.0;
    HalfMonthLinear(a, k, b.monthlyHours);
  }

  lemma MonthlyRateLinear(a: real, k: real, b: Basis)
    requires b.Valid()
    ensures HourlyRate(Monthly, k * a, b) == k * HourlyRate(Monthly, a, b)
  {
    assert b.monthlyHours != 0.0;
    DivLinear(a, k, b.monthlyHours);
  }

  lemma QuarterlyRateLinear(a: real, k: real, b: Basis)
    requires b.Valid()
    ensures HourlyRate(Quarterly, k * a, b) == k * HourlyRate(Quarterly, a, b)
  {
    assert b.quarterlyHours != 0.0;
    DivLinear(a, k, b.quarterlyHours);
  }

  lemma YearlyRateLinear(a: real, k: real, b: Basis)
    requires b.Valid()
    ensures HourlyRate(Yearly, k * a, b) == k * HourlyRate(Yearly, a, b)
  {
    DivTwiceLinear(a, k, b.weeklyHours, WeeksPerYear);
  }

  /** `ResultsLinear` for a rate already scaled. */
  lemma ScaledRateResults(h: real, h2: real, k: real, b: Basis)
    requires b.dailyHours != 0.0 && h2 == k * h
    ensures GetSalaryResults(h2, b) == Scale(GetSalaryResults(h, b), k)
  {
    ResultsLinear(h, k, b);
  }

  /** `RateLinear` for rates already computed. */
  lemma RateScaled(p: PerAmount, a: real, k: real, b: Basis, a2: real, h: real, h2: real)
    requires b.Valid() && a2 == k * a && h == HourlyRate(p, a, b) && h2 == HourlyRate(p, a2, b)
    ensures h2 == k * h
  {
    RateLinear(p, a, k, b);
  }

  // Holidays and vacation days

  /** In the closed form the adjusted year touches no unadjusted value. */
  lemma ClosedUnadjusted(h: real, y1: real, y2: real, c: SalaryResults)
    ensures forall p :: Closed(h, y1, c).Of(p).unadjusted == Closed(h, y2, c).Of(p).unadjusted
  {
  }

  /** `TimeOffKeepsUnadjusted` for the two records named. */
  lemma TimeOffKeepsUnadjustedOf(h: real, b1: Basis, b2: Basis, r1: SalaryResults, r2: SalaryResults)
    requires b1.dailyHours != 0.0 && b2 == b1.(offDays := b2.offDays)
    requires r1 == GetSalaryResults(h, b1) && r2 == GetSalaryResults(h, b2)
    ensures forall p :: r1.Of(p).unadjusted == r2.Of(p).unadjusted
  {
    var c := SharedForm(h, b1, h, b2);
    ClosedUnadjusted(h, AdjustedYear(h, b1), AdjustedYear(h, b2), c);
  }

  /** Holidays and vacation days never change an unadjusted value. */
  lemma TimeOffKeepsUnadjusted(h: real, b1: Basis, b2: Basis)
    requires b1.dailyHours != 0.0 && b2 == b1.(offDays := b2.offDays)
    ensures forall p :: GetSalaryResults(h, b1).Of(p).unadjusted == GetSalaryResults(h, b2).Of(p).unadjusted
  {
    TimeOffKeepsUnadjustedOf(h, b1, b2, GetSalaryResults(h, b1), GetSalaryResults(h, b2));
  }

  /** Days off that leave `offDays / 5` unchanged leave the adjusted year
      unchanged. */
  lemma SameOffWeeksSameYear(h: real, b1: Basis, b2: Basis)
    requires b2 == b1.(offDays := b2.offDays) && OffWeeks(b1.offDays) == OffWeeks(b2.offDays)
    ensures AdjustedYear(h, b1) == AdjustedYear(h, b2)
  {
  }

  /** `SameOffWeeksSameResults` for the two records named. */
  lemma SameOffWeeksSameResultsOf(h: real, b1: Basis, b2: Basis, r1: SalaryResults, r2: SalaryResults)
    requires b1.dailyHours != 0.0 && b2 == b1.(offDays := b2.offDays)
    requires OffWeeks(b1.offDays) == OffWeeks(b2.offDays)
    requires r1 == GetSalaryResults(h, b1) && r2 == GetSalaryResults(h, b2)
    ensures r1 == r2
  {
    var c := SharedForm(h, b1, h, b2);
    SameOffWeeksSameYear(h, b1, b2);
  }

  /** Days off that leave `offDays / 5` unchanged leave every result
      unchanged. */
  lemma SameOffWeeksSameResults(h: real, b1: Basis, b2: Basis)
    requires b1.dailyHours != 0.0 && b2 == b1.(offDays := b2.offDays)
    requires OffWeeks(b1.offDays) == OffWeeks(b2.offDays)
    ensures GetSalaryResults(h, b1) == GetSalaryResults(h, b2)
  {
    SameOffWeeksSameResultsOf(h, b1, b2, GetSalaryResults(h, b1), GetSalaryResults(h, b2));
  }

  /** For one hourly rate, holidays and vacation days never change an
      unadjusted value, and leave every result unchanged when they leave
      `offDays / 5` unchanged. */
  lemma TimeOffOnlyAdjusts(h: real, b1: Basis, b2: Basis)
    requires b1.dailyHours != 0.0 && b2 == b1.(offDays := b2.offDays)
    ensures forall p :: GetSalaryResults(h, b1).Of(p).unadjusted == GetSalaryResults(h, b2).Of(p).unadjusted
    ensures OffWeeks(b1.offDays) == OffWeeks(b2.offDays) ==> GetSalaryResults(h, b1) == GetSalaryResults(h, b2)
  {
    TimeOffKeepsUnadjusted(h, b1, b2);
    if OffWeeks(b1.offDays) == OffWeeks(b2.offDays) {
      SameOffWeeksSameResults(h, b1, b2);
    }
  }

  lemma ProductsDiffer(c: real, w1: real, w2: real)
    requires c != 0.0 && w1 != w2
    ensures c * w1 != c * w2
  {
  }

  /** With a non-zero rate, a change in `offDays / 5` changes the adjusted year. */
  lemma OffWeeksChangeAdjustedYear(h: real, b1: Basis, b2: Basis)
    requires b1.Valid() && b2 == b1.(offDays := b2.offDays) && h != 0.0
    requires OffWeeks(b1.offDays) != OffWeeks(b2.offDays)
    ensures GetSalaryResults(h, b1).yearly.adjusted != GetSalaryResults(h, b2).yearly.adjusted
  {
    AdjustedYearsDiffer(h, b1, b2);
    assert GetSalaryResults(h, b1).yearly.adjusted == AdjustedYear(h, b1);
    assert GetSalaryResults(h, b2).yearly.adjusted == AdjustedYear(h, b2);
  }

  lemma AdjustedYearsDiffer(h: real, b1: Basis, b2: Basis)
    requires b1.weeklyHours != 0.0 && b2.weeklyHours == b1.weeklyHours && h != 0.0
    requires OffWeeks(b1.offDays) != OffWeeks(b2.offDays)
    ensures AdjustedYear(h, b1) != AdjustedYear(h, b2)
  {
    ProductsDiffer(h * b1.weeklyHours, WeeksPerYear - OffWeeks(b1.offDays) as real,
                   WeeksPerYear - OffWeeks(b2.offDays) as real);
  }

  /** Holidays and vacation days change the results exactly when they change
      `offDays / 5`, for a non-zero rate. */
  lemma ResultsTrackOffWeeks(h: real, b1: Basis, b2: Basis)
    requires b1.Valid() && b2 == b1.(offDays := b2.offDays) && h != 0.0
    ensures GetSalaryResults(h, b1) == GetSalaryResults(h, b2) <==> OffWeeks(b1.offDays) == OffWeeks(b2.offDays)
  {
    if OffWeeks(b1.offDays) == OffWeeks(b2.offDays) {
      TimeOffOnlyAdjusts(h, b1, b2);
    } else {
      OffWeeksChangeAdjustedYear(h, b1, b2);
    }
  }

  /** `offDays / 5` never decreases as `offDays` grows. */
  lemma OffWeeksMonotone(d1: int32, d2: int32)
    requires d1 <= d2
    ensures OffWeeks(d1) <= OffWeeks(d2)
  {
  }

  /** More days off never raise the adjusted year of a positive rate, and
      another whole week off lowers it. */
  lemma AdjustedYearMonotone(h: real, b1: Basis, b2: Basis)
    requires h > 0.0 && b1.weeklyHours > 0.0 && b2 == b1.(offDays := b2.offDays) && b1.offDays <= b2.offDays
    ensures AdjustedYear(h, b2) <= AdjustedYear(h, b1)
    ensures OffWeeks(b1.offDays) < OffWeeks(b2.offDays) ==> AdjustedYear(h, b2) < AdjustedYear(h, b1)
  {
    OffWeeksMonotone(b1.offDays, b2.offDays);
    var c := h * b1.weeklyHours;
    assert c > 0.0;
    assert AdjustedYear(h, b1) - AdjustedYear(h, b2) == c * (OffWeeks(b2.offDays) - OffWeeks(b1.offDays)) as real;
  }

  lemma MulMonotone(x: real, y: real, c: real)
    requires c > 0.0 && x <= y
    ensures x * c <= y * c
    ensures x < y ==> x * c < y * c
  {
  }

  /** In the closed form with positive shares, a smaller adjusted year gives
      no larger adjusted value, and a strictly smaller one gives strictly
      smaller values. */
  lemma ClosedMonotone(h: real, y1: real, y2: real, c: SalaryResults)
    requires y2 <= y1 && forall p :: c.Of(p).adjusted > 0.0
    ensures forall p :: Closed(h, y2, c).Of(p).adjusted <= Closed(h, y1, c).Of(p).adjusted
    ensures y2 < y1 ==> forall p :: Closed(h, y2, c).Of(p).adjusted < Closed(h, y1, c).Of(p).adjusted
  {
    forall p ensures Closed(h, y2, c).Of(p).adjusted <= Closed(h, y1, c).Of(p).adjusted &&
                     (y2 < y1 ==> Closed(h, y2, c).Of(p).adjusted < Closed(h, y1, c).Of(p).adjusted) {
      MixMonotone(h, y1, y2, c.Of(p));
    }
  }

  /** One period's adjusted value grows with the adjusted year when its
      share is positive. */
  lemma MixMonotone(h: real, y1: real, y2: real, a: Adjustments)
    requires y2 <= y1 && a.adjusted > 0.0
    ensures Mix(h, y2, a).adjusted <= Mix(h, y1, a).adjusted
    ensures y2 < y1 ==> Mix(h, y2, a).adjusted < Mix(h, y1, a).adjusted
  {
    MulMonotone(y2, y1, a.adjusted);
  }

  /** For a positive rate and schedule, more time off never raises an
      adjusted value, and every adjusted value drops once another whole
      five-day week is off. */
  lemma AdjustedMonotone(h: real, b1: Basis, b2: Basis)
    requires h > 0.0 && b1.Valid() && b1.weeklyHours > 0.0 && b1.dailyHours > 0.0
    requires b2 == b1.(offDays := b2.offDays) && b1.offDays <= b2.offDays
    ensures forall p :: GetSalaryResults(h, b2).Of(p).adjusted <= GetSalaryResults(h, b1).Of(p).adjusted
    ensures OffWeeks(b1.offDays) < OffWeeks(b2.offDays) ==>
      forall p :: GetSalaryResults(h, b2).Of(p).adjusted < GetSalaryResults(h, b1).Of(p).adjusted
  {
    var c := SharedForm(h, b1, h, b2);
    AdjustedYearMonotone(h, b1, b2);
    ClosedMonotone(h, AdjustedYear(h, b1), AdjustedYear(h, b2), c);
  }

  /** With fewer than five days off, nothing is taken off the weekly and
      longer periods: each adjusted value equals the unadjusted one. */
  lemma NoOffWeeksNoAdjustment(h: real, b: Basis)
    requires b.Valid() && OffWeeks(b.offDays) == 0
    ensures forall p :: p != Hourly && p != Daily ==>
      GetSalaryResults(h, b).Of(p).adjusted == GetSalaryResults(h, b).Of(p).unadjusted
  {
    assert AdjustedYear(h, b) == h * b.weeklyHours * 52.0;
  }

  /** The day's values with no whole week off, over abstract hours: the
      adjusted day is a fifth of the week, the unadjusted one a
      `days`-th of it. */
  lemma DayShares(h: real, w: real, d: real, days: real)
    requires h != 0.0 && w != 0.0 && d * days == w
    ensures h * w * 52.0 / 260.0 == h * d <==> days == 5.0
    ensures h * w * 52.0 / 260.0 / d == h <==> days == 5.0
  {
    assert d != 0.0;
    assert h * w * 52.0 / 260.0 == h * d * days / 5.0;
    if days != 5.0 {
      assert h * d * days / 5.0 != h * d by {
        assert h * d != 0.0;
        ProductsDiffer(h * d, days / 5.0, 1.0);
      }
    }
  }

  /** With fewer than five days off, the adjusted daily and hourly values
      still differ from the unadjusted ones unless the week has five working
      days, since the adjusted ones always assume 260 working days a year. */
  lemma NoOffWeeksDailyHourly(h: real, f: Fields)
    requires f.hoursPerWeek != 0.0 && f.daysPerWeek != 0 && h != 0.0
    requires OffWeeks(BasisOf(f).offDays) == 0
    ensures var r := GetSalaryResults(h, BasisOf(f));
      r.daily.adjusted == r.daily.unadjusted <==> f.daysPerWeek == 5
    ensures var r := GetSalaryResults(h, BasisOf(f));
      r.hourly.adjusted == r.hourly.unadjusted <==> f.daysPerWeek == 5
  {
    var b := BasisOf(f);
    DayShares(h, b.weeklyHours, b.dailyHours, f.daysPerWeek as real);
    assert AdjustedYear(h, b) == h * b.weeklyHours * 52.0;
  }

  // The model at the level of the six fields

  /** A complete, computable input gives `getSalaryResults` at the hourly
      rate of its `when` dispatch and the basis of its fields. */
  lemma ComputeForm(input: SalaryInput) returns (h: real, b: Basis)
    requires Computable(input) && Validate(input).Some?
    ensures b == BasisOf(Validate(input).value) && b.Valid()
    ensures h == HourlyRate(input.perAmount, input.amount.value, b)
    ensures Compute(input) == GetSalaryResults(h, b)
  {
    b := BasisOf(Validate(input).value);
    h := HourlyRate(input.perAmount, input.amount.value, b);
  }

  /** With the schedule fields fixed, scaling the entered amount by `k`
      scales all sixteen results by `k`. */
  lemma ComputeLinear(input: SalaryInput, k: real)
    requires Computable(input) && Validate(input).Some?
    ensures Computable(input.(amount := Some(k * input.amount.value)))
    ensures Compute(input.(amount := Some(k * input.amount.value))) == Scale(Compute(input), k)
  {
    var scaled := input.(amount := Some(k * input.amount.value));
    assert Validate(scaled).value == Validate(input).value.(amount := k * input.amount.value);
    var h, b := ComputeForm(input);
    var h2, b2 := ComputeForm(scaled);
    ScaledInputRate(input, k, h, b, h2, b2);
    ScaledRateResults(h, h2, k, b);
  }

  /** Scaling the entered amount keeps the basis and scales the hourly rate. */
  lemma ScaledInputRate(input: SalaryInput, k: real, h: real, b: Basis, h2: real, b2: Basis)
    requires Validate(input).Some? && Validate(input).value.daysPerWeek != 0
    requires b == BasisOf(Validate(input).value) && b.Valid()
    requires h == HourlyRate(input.perAmount, input.amount.value, b)
    requires b2 == BasisOf(Validate(input.(amount := Some(k * input.amount.value))).value)
    requires h2 == HourlyRate(input.perAmount, k * input.amount.value, b2)
    ensures b2 == b && h2 == k * h
  {
    var scaled := input.(amount := Some(k * input.amount.value));
    assert Validate(scaled).value == Validate(input).value.(amount := k * input.amount.value);
    RateScaled(input.perAmount, input.amount.value, k, b, k * input.amount.value, h, h2);
  }

  /** Every one of the sixteen results is the entered amount times what
      the same fields give for an amount of one. */
  lemma ComputeProportional(input: SalaryInput)
    requires Computable(input) && Validate(input).Some?
    ensures Computable(input.(amount := Some(1.0)))
    ensures Compute(input) == Scale(Compute(input.(amount := Some(1.0))), input.amount.value)
  {
    var unit := input.(amount := Some(1.0));
    ComputeLinear(unit, input.amount.value);
    assert unit.(amount := Some(input.amount.value * 1.0)) == input;
  }

  // Growth with the amount

  /** Over a positive week and day, a larger amount gives a larger hourly
      rate, for every period. */
  lemma RateMonotone(p: PerAmount, a1: real, a2: real, b: Basis)
    requires b.Valid() && b.weeklyHours > 0.0 && b.dailyHours > 0.0 && a1 < a2
    ensures HourlyRate(p, a1, b) < HourlyRate(p, a2, b)
  {
    RateFormula(p, a1, b);
    RateFormula(p, a2, b);
    RateHoursPositive(p, b);
    DivMonotone(a1, a2, RateHours(p, b));
  }

  lemma RateHoursPositive(p: PerAmount, b: Basis)
    requires b.Valid() && b.weeklyHours > 0.0 && b.dailyHours > 0.0
    ensures RateHours(p, b) > 0.0
  {
    assert b.monthlyHours > 0.0 && b.quarterlyHours > 0.0;
  }

  lemma DivMonotone(x: real, y: real, d: real)
    requires d > 0.0 && x < y
    ensures x / d < y / d
  {
  }

  /** One period's values grow with the rate, and the adjusted one with the
      adjusted year, when its hours and share are positive. */
  lemma MixRateMonotone(h1: real, h2: real, y1: real, y2: real, a: Adjustments)
    requires h1 < h2 && a.unadjusted > 0.0 && a.adjusted > 0.0
    ensures Mix(h1, y1, a).unadjusted < Mix(h2, y2, a).unadjusted
    ensures y1 < y2 ==> Mix(h1, y1, a).adjusted < Mix(h2, y2, a).adjusted
  {
    MulMonotone(h1, h2, a.unadjusted);
    if y1 < y2 {
      MulMonotone(y1, y2, a.adjusted);
    }
  }

  /** In the closed form with positive hours and shares, a larger rate gives
      larger unadjusted values, and a larger year larger adjusted ones. */
  lemma ClosedRateMonotone(h1: real, h2: real, y1: real, y2: real, c: SalaryResults)
    requires h1 < h2 && forall p :: c.Of(p).unadjusted > 0.0 && c.Of(p).adjusted > 0.0
    ensures forall p :: Closed(h1, y1, c).Of(p).unadjusted < Closed(h2, y2, c).Of(p).unadjusted
    ensures y1 < y2 ==> forall p :: Closed(h1, y1, c).Of(p).adjusted < Closed(h2, y2, c).Of(p).adjusted
  {
    forall p ensures Closed(h1, y1, c).Of(p).unadjusted < Closed(h2, y2, c).Of(p).unadjusted &&
                     (y1 < y2 ==> Closed(h1, y1, c).Of(p).adjusted < Closed(h2, y2, c).Of(p).adjusted) {
      MixRateMonotone(h1, h2, y1, y2, c.Of(p));
    }
  }

  /** While fewer than 52 weeks are off, a larger rate gives a larger
      adjusted year. */
  lemma AdjustedYearRateMonotone(h1: real, h2: real, b: Basis)
    requires h1 < h2 && b.weeklyHours > 0.0 && OffWeeks(b.offDays) < 52
    ensures AdjustedYear(h1, b) < AdjustedYear(h2, b)
  {
    MulMonotone(h1, h2, b.weeklyHours);
    MulMonotone(h1 * b.weeklyHours, h2 * b.weeklyHours, WeeksPerYear - OffWeeks(b.offDays) as real);
  }

  /** Over a positive schedule, a larger hourly rate raises every unadjusted
      value, and every adjusted value while fewer than 52 weeks are off. */
  lemma ResultsRateMonotone(h1: real, h2: real, b: Basis)
    requires b.Valid() && b.weeklyHours > 0.0 && b.dailyHours > 0.0 && h1 < h2
    ensures forall p :: GetSalaryResults(h1, b).Of(p).unadjusted < GetSalaryResults(h2, b).Of(p).unadjusted
    ensures OffWeeks(b.offDays) < 52 ==>
      forall p :: GetSalaryResults(h1, b).Of(p).adjusted < GetSalaryResults(h2, b).Of(p).adjusted
  {
    CoefficientsPositive(b);
    ResultsFormula(h1, b);
    ResultsFormula(h2, b);
    if OffWeeks(b.offDays) < 52 {
      AdjustedYearRateMonotone(h1, h2, b);
    }
    ClosedRateMonotone(h1, h2, AdjustedYear(h1, b), AdjustedYear(h2, b), Coefficients(b));
  }

  /** Over positive hours and days, a larger amount raises every unadjusted
      value, and every adjusted value while fewer than 52 weeks are off. */
  lemma ComputeAmountMonotone(input: SalaryInput, a2: real)
    requires Computable(input) && Validate(input).Some?
    requires input.hoursPerWeek.value > 0.0 && input.daysPerWeek.value > 0 && input.amount.value < a2
    ensures Computable(input.(amount := Some(a2)))
    ensures forall p :: Compute(input).Of(p).unadjusted < Compute(input.(amount := Some(a2))).Of(p).unadjusted
    ensures OffWeeks(AddInt(input.holidaysPerYear.value, input.vacationDaysPerYear.value)) < 52 ==>
      forall p :: Compute(input).Of(p).adjusted < Compute(input.(amount := Some(a2))).Of(p).adjusted
  {
    var raised := input.(amount := Some(a2));
    assert Validate(raised).value == Validate(input).value.(amount := a2);
    var h1, b := ComputeForm(input);
    var h2, b2 := ComputeForm(raised);
    assert b2 == b;
    PositiveQuotient(b.dailyHours, input.daysPerWeek.value as real, input.hoursPerWeek.value);
    RateMonotone(input.perAmount, input.amount.value, a2, b);
    ResultsRateMonotone(h1, h2, b);
  }

  /** With 260 days off the year has no weeks left: every adjusted value is
      0 at an amount of 50 and at 100, so the adjusted values do not grow
      with the amount. */
  lemma AllYearOff()
    ensures var input1 := Defaults().(holidaysPerYear := Some(260), vacationDaysPerYear := Some(0));
            var input2 := input1.(amount := Some(100.0));
      Computable(input1) && Computable(input2) &&
      (forall p :: Compute(input1).Of(p).adjusted == 0.0 && Compute(input2).Of(p).adjusted == 0.0)
  {
    var input1 := Defaults().(holidaysPerYear := Some(260), vacationDaysPerYear := Some(0));
    var input2 := input1.(amount := Some(100.0));
    var b := BasisOf(Validate(input1).value);
    assert BasisOf(Validate(input2).value) == b;
    assert b.offDays == 260 && OffWeeks(b.offDays) == 52;
    assert Compute(input1) == GetSalaryResults(50.0, b);
    assert Compute(input2) == GetSalaryResults(100.0, b);
    NoYearNoAdjusted(50.0, b);
    NoYearNoAdjusted(100.0, b);
  }

  /** With 52 weeks off every adjusted value is 0. */
  lemma NoYearNoAdjusted(h: real, b: Basis)
    requires b.dailyHours != 0.0 && OffWeeks(b.offDays) == 52
    ensures forall p :: GetSalaryResults(h, b).Of(p).adjusted == 0.0
  {
    assert AdjustedYear(h, b) == 0.0;
  }

  /** Two inputs that differ at most in the holidays and vacation days. */
  predicate OnlyTimeOffDiffers(input1: SalaryInput, input2: SalaryInput) {
    input2 == input1.(holidaysPerYear := input2.holidaysPerYear,
                      vacationDaysPerYear := input2.vacationDaysPerYear)
  }

  /** Holidays and vacation days leave the hourly rate unchanged. */
  lemma RateIgnoresTimeOff(p: PerAmount, a: real, b1: Basis, b2: Basis)
    requires b1.Valid() && b2 == b1.(offDays := b2.offDays)
    ensures b2.Valid()
    ensures HourlyRate(p, a, b1) == HourlyRate(p, a, b2)
  {
  }

  /** No unadjusted value depends on the holidays or vacation days, and the
      results are the same whenever `(holidays + vacation) / 5` is. */
  lemma TimeOffIndependence(input1: SalaryInput, input2: SalaryInput)
    requires Computable(input1) && Validate(input1).Some?
    requires OnlyTimeOffDiffers(input1, input2)
    requires input2.holidaysPerYear.Some? && input2.vacationDaysPerYear.Some?
    ensures Computable(input2)
    ensures forall p :: Compute(input1).Of(p).unadjusted == Compute(input2).Of(p).unadjusted
    ensures OffWeeks(AddInt(input1.holidaysPerYear.value, input1.vacationDaysPerYear.value)) ==
            OffWeeks(AddInt(input2.holidaysPerYear.value, input2.vacationDaysPerYear.value)) ==>
      Compute(input1) == Compute(input2)
  {
    var f1, f2 := Validate(input1).value, Validate(input2).value;
    var b1, b2 := BasisOf(f1), BasisOf(f2);
    assert b2 == b1.(offDays := b2.offDays);
    var h := HourlyRate(input1.perAmount, f1.amount, b1);
    RateIgnoresTimeOff(input1.perAmount, f1.amount, b1, b2);
    TimeOffOnlyAdjusts(h, b1, b2);
  }

  /** The adjusted year shown is the unadjusted year times the share of the
      52 weeks left after `(holidays + vacation) / 5` off-weeks. */
  lemma ComputeAdjustedYear(input: SalaryInput)
    requires Computable(input) && Validate(input).Some?
    ensures YearShare(Compute(input), OffWeeks(AddInt(input.holidaysPerYear.value, input.vacationDaysPerYear.value)))
  {
    var h, b := ComputeForm(input);
    AdjustedYearShare(h, b);
  }

  /** For a positive amount, week and working day, more holidays and
      vacation days never raise an adjusted value, and every adjusted value
      drops once another whole five-day week is off. The two sums of days
      off must fit in a Kotlin `Int`; `TimeOffWraps` shows why. */
  lemma ComputeAdjustedMonotone(input1: SalaryInput, input2: SalaryInput)
    requires Computable(input1) && Validate(input1).Some?
    requires OnlyTimeOffDiffers(input1, input2)
    requires input2.holidaysPerYear.Some? && input2.vacationDaysPerYear.Some?
    requires input1.amount.value > 0.0 && input1.hoursPerWeek.value > 0.0 && input1.daysPerWeek.value > 0
    requires -0x8000_0000 <= input1.holidaysPerYear.value as int + input1.vacationDaysPerYear.value as int
    requires input1.holidaysPerYear.value as int + input1.vacationDaysPerYear.value as int <=
             input2.holidaysPerYear.value as int + input2.vacationDaysPerYear.value as int
    requires input2.holidaysPerYear.value as int + input2.vacationDaysPerYear.value as int < 0x8000_0000
    ensures Computable(input2)
    ensures forall p :: Compute(input2).Of(p).adjusted <= Compute(input1).Of(p).adjusted
    ensures OffWeeks(AddInt(input1.holidaysPerYear.value, input1.vacationDaysPerYear.value)) <
            OffWeeks(AddInt(input2.holidaysPerYear.value, input2.vacationDaysPerYear.value)) ==>
      forall p :: Compute(input2).Of(p).adjusted < Compute(input1).Of(p).adjusted
  {
    var h1, b1 := ComputeForm(input1);
    assert Validate(input2).Some?;
    var h2, b2 := ComputeForm(input2);
    assert b2 == b1.(offDays := b2.offDays);
    RateIgnoresTimeOff(input1.perAmount, input1.amount.value, b1, b2);
    PositiveQuotient(b1.dailyHours, input1.daysPerWeek.value as real, input1.hoursPerWeek.value);
    AdjustedMonotone(h1, b1, b2);
  }

  lemma PositiveQuotient(q: real, n: real, w: real)
    requires q * n == w && n > 0.0 && w > 0.0
    ensures q > 0.0
  {
  }

  /** Without the bound on the sums the order fails: one more vacation day
      on top of `Int.MAX_VALUE` holidays wraps the days off to
      `Int.MIN_VALUE`, and the adjusted year rises. */
  lemma TimeOffWraps()
    ensures var input1 := Defaults().(holidaysPerYear := Some(0x7FFF_FFFF), vacationDaysPerYear := Some(0));
            var input2 := input1.(vacationDaysPerYear := Some(1));
      Computable(input1) && Computable(input2) && OnlyTimeOffDiffers(input1, input2) &&
      Compute(input1).yearly.adjusted < Compute(input2).yearly.adjusted
  {
    var input1 := Defaults().(holidaysPerYear := Some(0x7FFF_FFFF), vacationDaysPerYear := Some(0));
    var input2 := input1.(vacationDaysPerYear := Some(1));
    var b1 := BasisOf(Validate(input1).value);
    var b2 := BasisOf(Validate(input2).value);
    assert b1.offDays == 0x7FFF_FFFF && b2.offDays == -0x8000_0000;
    assert OffWeeks(b1.offDays) == 429496729 && OffWeeks(b2.offDays) == -429496729;
    assert AdjustedYear(50.0, b1) < 0.0 < AdjustedYear(50.0, b2);
    assert Compute(input1) == GetSalaryResults(50.0, b1);
    assert Compute(input2) == GetSalaryResults(50.0, b2);
  }

  /** The default fields give 2000 a week and 104000 a year, and 94000 a
      year once the five off-weeks of 25 days off are taken out. */
  lemma DefaultScenario()
    ensures Compute(Defaults()).hourly.unadjusted == 50.0
    ensures Compute(Defaults()).weekly.unadjusted == 2000.0
    ensures Compute(Defaults()).yearly.unadjusted == 104000.0
    ensures Compute(Defaults()).yearly.adjusted == 94000.0
    ensures Compute(Defaults()).monthly.adjusted == 94000.0 / 12.0
  {
    var f := Validate(Defaults()).value;
    var b := BasisOf(f);
    assert b.weeklyHours == 40.0 && b.offDays == 25;
    assert OffWeeks(b.offDays) == 5;
    assert Compute(Defaults()) == GetSalaryResults(50.0, b);
  }

  /** Entering any result other than the semi-monthly one under its own
      period reproduces every result. */
  lemma Reenter(input: SalaryInput, q: PerAmount)
    requires Computable(input) && Validate(input).Some? && q != SemiMonthly
    ensures Computable(input.(perAmount := q, amount := Some(Compute(input).Of(q).unadjusted)))
    ensures Compute(input.(perAmount := q, amount := Some(Compute(input).Of(q).unadjusted))) == Compute(input)
  {
    var f := Validate(input).value;
    var b := BasisOf(f);
    var h := HourlyRate(input.perAmount, f.amount, b);
    var u := GetSalaryResults(h, b).Of(q).unadjusted;
    var again := input.(perAmount := q, amount := Some(u));
    assert Validate(again) == Some(f.(amount := u));
    assert BasisOf(f.(amount := u)) == b;
    RateRoundTrip(q, h, b);
  }

  /** Entering the semi-monthly result under the semi-monthly period gives a
      quarter of every result. */
  lemma ReenterSemiMonthly(input: SalaryInput)
    requires Computable(input) && Validate(input).Some?
    ensures Computable(input.(perAmount := SemiMonthly, amount := Some(Compute(input).semiMonthly.unadjusted)))
    ensures Compute(input.(perAmount := SemiMonthly, amount := Some(Compute(input).semiMonthly.unadjusted))) ==
      Scale(Compute(input), 0.25)
  {
    var f := Validate(input).value;
    var b := BasisOf(f);
    var h := HourlyRate(input.perAmount, f.amount, b);
    var u := GetSalaryResults(h, b).semiMonthly.unadjusted;
    var again := input.(perAmount := SemiMonthly, amount := Some(u));
    assert Validate(again) == Some(f.(amount := u));
    assert BasisOf(f.(amount := u)) == b;
    SemiMonthlyRateRoundTrip(h, b);
    ResultsLinear(h, 0.25, b);
  }

  // `infoMap`

  /** Each period sits at its ordinal in `infoMap`, paired with its result,
      and at no other position. */
  lemma InfoMapLookup(r: SalaryResults, p: PerAmount)
    ensures r.InfoMap()[Ordinal(p)] == (p, r.Of(p))
    ensures forall i :: 0 <= i < |r.InfoMap()| && r.InfoMap()[i].0 == p ==> i == Ordinal(p)
  {
    forall i | 0 <= i < |r.InfoMap()| && r.InfoMap()[i].0 == p
      ensures i == Ordinal(p)
    {
      assert Entries[i] == p;
    }
  }
}
