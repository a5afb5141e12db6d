/** The salary conversion engine of the calculator: the `amounts` derivation of
    `SalaryData`, its local `getSalaryResults`, the per-period dispatch that
    turns the entered amount into an hourly rate, and the `SalaryResults`,
    `Adjustments` and `PerAmount` types it returns.

    Kotlin `Double` values are modelled as `real`, so every relation holds
    exactly rather than within a rounding tolerance. Kotlin `Int` values are
    `int32`, with the wrap-around of `+` and the truncation of `/` written out. */
module Salary {
  import opened Wrappers

  /** Kotlin `Int`: a 32-bit two's-complement integer. */
  newtype int32 = x: int | -0x8000_0000 <= x < 0x8000_0000

  /** Kotlin `Int + Int`: the mathematical sum, wrapped into 32 bits. */
  function AddInt(a: int32, b: int32): (r: int32)
    ensures -0x8000_0000 <= a as int + b as int < 0x8000_0000 ==> r as int == a as int + b as int
    ensures (r as int - (a as int + b as int)) % 0x1_0000_0000 == 0
  {
    ((a as int + b as int + 0x8000_0000) % 0x1_0000_0000 - 0x8000_0000) as int32
  }

  /** The pay periods, in declaration order. */
  datatype PerAmount = Hourly | Daily | Weekly | BiWeekly | SemiMonthly | Monthly | Quarterly | Yearly

  /** `PerAmount.entries`. */
  const Entries: seq<PerAmount> :=
    [Hourly, Daily, Weekly, BiWeekly, SemiMonthly, Monthly, Quarterly, Yearly]

  /** The position of a period in declaration order (Kotlin's `ordinal`). */
  function Ordinal(p: PerAmount): (i: nat)
    ensures i < |Entries| && Entries[i] == p
  {
    match p
    case Hourly => 0
    case Daily => 1
    case Weekly => 2
    case BiWeekly => 3
    case SemiMonthly => 4
    case Monthly => 5
    case Quarterly => 6
    case Yearly => 7
  }

  /** The pay for one period, ignoring time off and spread over the time worked. */
  datatype Adjustments = Adjustments(unadjusted: real, adjusted: real)

  /** `Adjustments(u)`: the default argument makes `adjusted` equal `unadjusted`. */
  function Unadjusted(u: real): (a: Adjustments)
    ensures a.adjusted == a.unadjusted == u
  {
    Adjustments(u, u)
  }

  /** One `Adjustments` per pay period. */
  datatype SalaryResults = SalaryResults(
    hourly: Adjustments,
    daily: Adjustments,
    weekly: Adjustments,
    biWeekly: Adjustments,
    semiMonthly: Adjustments,
    monthly: Adjustments,
    quarterly: Adjustments,
    yearly: Adjustments)
  {
    /** The field that holds the pay for period `p`. */
    function Of(p: PerAmount): Adjustments {
      match p
      case Hourly => hourly
      case Daily => daily
      case Weekly => weekly
      case BiWeekly => biWeekly
      case SemiMonthly => semiMonthly
      case Monthly => monthly
      case Quarterly => quarterly
      case Yearly => yearly
    }

    /** `ps.map { it to <field for it> }`. */
    function Pairs(ps: seq<PerAmount>): (m: seq<(PerAmount, Adjustments)>)
      ensures |m| == |ps|
      ensures forall i :: 0 <= i < |ps| ==> m[i] == (ps[i], Of(ps[i]))
    {
      if ps == [] then [] else [(ps[0], Of(ps[0]))] + Pairs(ps[1..])
    }

    /** Every period in declaration order, paired with its result. */
    function InfoMap(): (m: seq<(PerAmount, Adjustments)>)
      ensures |m| == 8
      ensures forall i :: 0 <= i < |m| ==> m[i] == (Entries[i], Of(Entries[i]))
    {
      Pairs(Entries)
    }
  }

  /** Both values of one period multiplied by `k`. */
  function Scaled(a: Adjustments, k: real): Adjustments {
    Adjustments(k * a.unadjusted, k * a.adjusted)
  }

  /** Every one of the sixteen values multiplied by `k`. */
  function Scale(r: SalaryResults, k: real): (s: SalaryResults)
    ensures forall p :: s.Of(p) == Scaled(r.Of(p), k)
  {
    SalaryResults(Scaled(r.hourly, k), Scaled(r.daily, k), Scaled(r.weekly, k), Scaled(r.biWeekly, k),
                  Scaled(r.semiMonthly, k), Scaled(r.monthly, k), Scaled(r.quarterly, k), Scaled(r.yearly, k))
  }

  /** The six fields of `SalaryData`, with the two text fields already parsed. */
  datatype SalaryInput = SalaryInput(
    perAmount: PerAmount,
    amount: Option<real>,
    hoursPerWeek: Option<real>,
    daysPerWeek: Option<int32>,
    holidaysPerYear: Option<int32>,
    vacationDaysPerYear: Option<int32>)

  /** The field values once all five are present. */
  datatype Fields = Fields(
    amount: real,
    hoursPerWeek: real,
    daysPerWeek: int32,
    holidaysPerYear: int32,
    vacationDaysPerYear: int32)

  /** The `requireNotNull` checks: all five values, or none when any is missing. */
  function Validate(input: SalaryInput): (r: Option<Fields>)
    ensures r.Some? <==>
      input.amount.Some? && input.hoursPerWeek.Some? && input.daysPerWeek.Some? &&
      input.holidaysPerYear.Some? && input.vacationDaysPerYear.Some?
    ensures r.Some? ==>
      r.value.amount == input.amount.value && r.value.hoursPerWeek == input.hoursPerWeek.value &&
      r.value.daysPerWeek == input.daysPerWeek.value &&
      r.value.holidaysPerYear == input.holidaysPerYear.value &&
      r.value.vacationDaysPerYear == input.vacationDaysPerYear.value
  {
    match (input.amount, input.hoursPerWeek, input.daysPerWeek, input.holidaysPerYear, input.vacationDaysPerYear)
    case (Some(a), Some(h), Some(d), Some(hol), Some(vac)) => Some(Fields(a, h, d, hol, vac))
    case _ => None
  }

  /** The values `getSalaryResults` captures from the enclosing block: the
      hours of each period before time off, and the days off per year. */
  datatype Basis = Basis(
    weeklyHours: real,
    dailyHours: real,
    monthlyHours: real,
    quarterlyHours: real,
    offDays: int32)
  {
    /** The hours are those of one schedule with a non-zero week: a month is
        52/12 weeks and a quarter 52/4 weeks. Neither divisor of the source is
        then zero. */
    predicate Valid() {
      weeklyHours != 0.0 && dailyHours != 0.0 &&
      monthlyHours * MonthsPerYear == weeklyHours * WeeksPerYear &&
      quarterlyHours * QuartersPerYear == weeklyHours * WeeksPerYear
    }
  }

  const WeeksPerYear: real := 52.0
  const MonthsPerYear: real := 12.0
  const QuartersPerYear: real := 4.0
  /** The fixed count of working days per year behind every adjusted daily and hourly value. */
  const WorkDaysPerYear: real := 260.0

  /** The local values of `amounts` once the fields are read. `offDays` is a
      Kotlin `Int` sum, and `hoursPerWeek / daysPerWeek` is taken unguarded. */
  function BasisOf(f: Fields): (b: Basis)
    requires f.daysPerWeek != 0
    ensures b.weeklyHours == f.hoursPerWeek
    ensures b.dailyHours * f.daysPerWeek as real == f.hoursPerWeek
    ensures b.monthlyHours * MonthsPerYear == f.hoursPerWeek * WeeksPerYear
    ensures b.quarterlyHours * QuartersPerYear == f.hoursPerWeek * WeeksPerYear
    ensures b.offDays == AddInt(f.holidaysPerYear, f.vacationDaysPerYear)
    ensures f.hoursPerWeek != 0.0 ==> b.Valid()
  {
    var weeklyHours := f.hoursPerWeek;
    Basis(
      weeklyHours := weeklyHours,
      dailyHours := f.hoursPerWeek / f.daysPerWeek as real,
      monthlyHours := weeklyHours * WeeksPerYear / MonthsPerYear,
      quarterlyHours := weeklyHours * WeeksPerYear / QuartersPerYear,
      offDays := AddInt(f.holidaysPerYear, f.vacationDaysPerYear))
  }

  /** The inputs for which `amounts` yields finite numbers: either some field
      is missing, or neither divisor is zero. */
  predicate Computable(input: SalaryInput) {
    match Validate(input)
    case None => true
    case Some(f) => f.hoursPerWeek != 0.0 && f.daysPerWeek != 0
  }

  /** Kotlin `offDays / 5`: whole five-day weeks of time off, the quotient
      rounded toward zero as Kotlin `Int` division does. */
  function OffWeeks(offDays: int32): (w: int)
    ensures offDays >= 0 ==> 0 <= 5 * w <= offDays as int < 5 * w + 5
    ensures offDays < 0 ==> w <= 0 && 5 * w - 5 < offDays as int <= 5 * w
  {
    if offDays >= 0 then offDays as int / 5 else -((-(offDays as int)) / 5)
  }

  /** `adjustedYear`: the year's pay with the off-weeks removed. */
  function AdjustedYear(hourlyAmount: real, b: Basis): real {
    hourlyAmount * b.weeklyHours * (WeeksPerYear - OffWeeks(b.offDays) as real)
  }

  /** `getSalaryResults`: every period from one hourly rate. */
  function GetSalaryResults(hourlyAmount: real, b: Basis): SalaryResults
    requires b.dailyHours != 0.0
  {
    var adjustedYear := AdjustedYear(hourlyAmount, b);
    SalaryResults(
      hourly := Adjustments(hourlyAmount, adjustedYear / WorkDaysPerYear / b.dailyHours),
      daily := Adjustments(hourlyAmount * b.dailyHours, adjustedYear / WorkDaysPerYear),
      weekly := Adjustments(hourlyAmount * b.weeklyHours, adjustedYear / WeeksPerYear),
      biWeekly := Adjustments(hourlyAmount * b.weeklyHours * 2.0, adjustedYear / WeeksPerYear * 2.0),
      semiMonthly := Adjustments(hourlyAmount * b.monthlyHours * MonthsPerYear / 24.0, adjustedYear / 24.0),
      monthly := Adjustments(hourlyAmount * b.monthlyHours, adjustedYear / MonthsPerYear),
      quarterly := Adjustments(hourlyAmount * b.quarterlyHours, adjustedYear / QuartersPerYear),
      yearly := Adjustments(hourlyAmount * b.weeklyHours * WeeksPerYear, adjustedYear))
  }

  /** The hours the entered amount is divided by to give the hourly rate.
      For the semi-monthly period this is twice the monthly hours, where the
      semi-monthly value covers half of them. */
  function RateHours(p: PerAmount, b: Basis): real {
    match p
    case Hourly => 1.0
    case Daily => b.dailyHours
    case Weekly => b.weeklyHours
    case BiWeekly => 2.0 * b.weeklyHours
    case SemiMonthly => 2.0 * b.monthlyHours
    case Monthly => b.monthlyHours
    case Quarterly => b.quarterlyHours
    case Yearly => WeeksPerYear * b.weeklyHours
  }

  /** The `when (perAmount)` dispatch: the entered amount as an hourly rate.
      Over a positive week and day the rate has the sign of the amount. */
  function HourlyRate(p: PerAmount, amount: real, b: Basis): (h: real)
    requires b.Valid()
    ensures b.weeklyHours > 0.0 && b.dailyHours > 0.0 ==> (h > 0.0 <==> amount > 0.0) && (h == 0.0 <==> amount == 0.0)
  {
    match p
    case Hourly => amount
    case Daily => amount / b.dailyHours
    case Weekly => amount / b.weeklyHours
    case BiWeekly => amount / 2.0 / b.weeklyHours
    case SemiMonthly => amount / b.monthlyHours * MonthsPerYear / 24.0
    case Monthly => amount / b.monthlyHours
    case Quarterly => amount / b.quarterlyHours
    case Yearly => amount / b.weeklyHours / WeeksPerYear
  }

  /** `getOrDefault`: the result shown when some field is missing. */
  function ZeroResults(): (r: SalaryResults)
    ensures forall p :: r.Of(p).unadjusted == 0.0 && r.Of(p).adjusted == 0.0
  {
    SalaryResults(Unadjusted(0.0), Unadjusted(0.0), Unadjusted(0.0), Unadjusted(0.0),
                  Unadjusted(0.0), Unadjusted(0.0), Unadjusted(0.0), Unadjusted(0.0))
  }

  /** `SalaryData.amounts`. */
  function Compute(input: SalaryInput): (r: SalaryResults)
    requires Computable(input)
    ensures Validate(input).None? ==> r == ZeroResults()
    ensures Validate(input).None? ==> forall p :: r.Of(p).unadjusted == 0.0 && r.Of(p).adjusted == 0.0
  {
    match Validate(input)
    case None => ZeroResults()
    case Some(f) =>
      var b := BasisOf(f);
      GetSalaryResults(HourlyRate(input.perAmount, f.amount, b), b)
  }

  /** The initial field values of `SalaryData`. */
  function Defaults(): (input: SalaryInput)
    ensures Computable(input)
  {
    SalaryInput(Hourly, Some(50.0), Some(40.0), Some(5), Some(10), Some(15))
  }
}
