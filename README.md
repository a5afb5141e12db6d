# Salary conversion engine

A Dafny model of the salary calculator's conversion engine, in `App.kt`.
`SalaryData` holds six fields: a pay period, an amount, hours per week, days
per week, holidays per year and vacation days per year. From them it derives
`amounts`, a `SalaryResults` record with one `Adjustments` per `PerAmount`
period. The unadjusted value is the period's pay at the nominal hours. The
adjusted value spreads a year with the off-weeks (`(holidays + vacation) / 5`)
taken out.

`amounts` works in three steps:

1. It checks that every field is present; otherwise it falls back to zeros.
2. It turns the amount into an hourly rate with the per-period `when` dispatch.
3. It expands that rate with the local `getSalaryResults`.

The model has four modules, one file each, plus an `Option` type
(`wrappers.dfy`):

- `salary.dfy`, module `Salary`: the data types and the derivation.
  - Kotlin `Double` is `real`, so relations hold exactly.
  - Kotlin `Int` is `int32`. The sum `holidays + vacation` wraps around
    (`AddInt`), and `offDays / 5` truncates toward zero (`OffWeeks`).
  - The two text fields are held as what parsing them gives: `None` for text
    that is not a number.
  - `Basis` holds the locals that `getSalaryResults` captures.
  - `HourlyRate` is the `when` dispatch, `GetSalaryResults` the local
    function, and `Compute` is `amounts`.
- `salary_laws.dfy`, module `SalaryLaws`: what the engine promises.
  - the relations between periods;
  - a closed form of `getSalaryResults`;
  - the round trip from the entered amount;
  - linearity in the amount;
  - what holidays and vacation days change;
  - the default scenario and the order of `infoMap`.
- `salary_findings.dfy`, module `SalaryFindings`: the semi-monthly
  conversion as written and as evidently intended.
- `salary_data.dfy`, module `SalaryState`: `SalaryData` as a class. Its
  setter methods model the UI callbacks that reassign one field each.

## Model

| member | source | states |
|---|---|---|
| `Salary.AddInt` | composeApp/src/commonMain/kotlin/com/programmersbox/salarycalculator/App.kt:243 | `holidays + vacation` is the 32-bit Kotlin `Int` sum: the exact sum when it fits, and congruent to it modulo 2^32 always |
| `Salary.Ordinal` | composeApp/src/commonMain/kotlin/com/programmersbox/salarycalculator/App.kt:370-379 | each period has its declaration position in `PerAmount.entries` |
| `Salary.Unadjusted` | composeApp/src/commonMain/kotlin/com/programmersbox/salarycalculator/App.kt:365-368 | `Adjustments(u)` has `adjusted` equal to `unadjusted` |
| `Salary.SalaryResults.Pairs` | composeApp/src/commonMain/kotlin/com/programmersbox/salarycalculator/App.kt:349-362 | mapping a list of periods pairs each one, in order, with its own field |
| `Salary.SalaryResults.InfoMap` | composeApp/src/commonMain/kotlin/com/programmersbox/salarycalculator/App.kt:349-362 | `infoMap` has exactly eight pairs, the i-th being the i-th period of `PerAmount` with its field |
| `Salary.Scale` | composeApp/src/commonMain/kotlin/com/programmersbox/salarycalculator/App.kt:253-310 | specification helper, not a part of the source: scaling a results record scales both values of every period, used to state linearity |
| `Salary.Validate` | composeApp/src/commonMain/kotlin/com/programmersbox/salarycalculator/App.kt:237-241 | the five `requireNotNull` checks pass exactly when all five fields are present, and then carry their values |
| `Salary.BasisOf` | composeApp/src/commonMain/kotlin/com/programmersbox/salarycalculator/App.kt:243-251 | the captured locals: weekly hours are the hours entered, daily hours times the days give the week, a month is 52/12 weeks and a quarter 52/4, `offDays` is the wrapped sum |
| `Salary.OffWeeks` | composeApp/src/commonMain/kotlin/com/programmersbox/salarycalculator/App.kt:254 | `offDays / 5` is Kotlin `Int` division: the quotient truncated toward zero, for negative sums too |
| `Salary.HourlyRate` | composeApp/src/commonMain/kotlin/com/programmersbox/salarycalculator/App.kt:291-310 | over a positive week and working day the hourly rate is positive exactly when the amount is, and zero exactly when the amount is; `SalaryLaws.RateFormula` gives its value |
| `Salary.ZeroResults` | composeApp/src/commonMain/kotlin/com/programmersbox/salarycalculator/App.kt:312-323 | the `getOrDefault` record has all sixteen values 0 |
| `Salary.Compute` | composeApp/src/commonMain/kotlin/com/programmersbox/salarycalculator/App.kt:235-324 | fallback: a missing field gives the all-zero record |
| `Salary.Defaults` | composeApp/src/commonMain/kotlin/com/programmersbox/salarycalculator/App.kt:228-233 | the initial fields can be computed |
| `SalaryLaws.UnadjustedRelations` | composeApp/src/commonMain/kotlin/com/programmersbox/salarycalculator/App.kt:257-285 | bi-weekly is twice weekly; yearly is 52 weeks, 12 months, 4 quarters and 24 half-months |
| `SalaryLaws.DailyTimesDays` | composeApp/src/commonMain/kotlin/com/programmersbox/salarycalculator/App.kt:249-261 | daily unadjusted pay times the days per week gives the weekly |
| `SalaryLaws.AdjustedRelations` | composeApp/src/commonMain/kotlin/com/programmersbox/salarycalculator/App.kt:254-286 | yearly adjusted is `adjustedYear`; month, quarter, half-month, week, bi-week, day and hour take 1/12, 1/4, 1/24, 1/52, 2/52, 1/260 and 1/260 per daily hour of it |
| `SalaryLaws.AdjustedYearShare` | composeApp/src/commonMain/kotlin/com/programmersbox/salarycalculator/App.kt:254-286 | the adjusted year is the unadjusted year times (52 - off-weeks)/52 |
| `SalaryLaws.ResultsFormula` | composeApp/src/commonMain/kotlin/com/programmersbox/salarycalculator/App.kt:253-289 | `getSalaryResults` is the rate times fixed hours and `adjustedYear` times fixed shares, period by period |
| `SalaryLaws.Closed` | composeApp/src/commonMain/kotlin/com/programmersbox/salarycalculator/App.kt:253-289 | specification helper, not a part of the source: the closed-form reference record has, per period, the rate times its hours and the year times its share |
| `SalaryLaws.CoefficientsPositive` | composeApp/src/commonMain/kotlin/com/programmersbox/salarycalculator/App.kt:248-251 | with a positive week and day every period has positive hours and a positive share of the year |
| `SalaryLaws.CoefficientsIgnoreTimeOff` | composeApp/src/commonMain/kotlin/com/programmersbox/salarycalculator/App.kt:248-251 | the hours and shares do not depend on the days off |
| `SalaryLaws.SharedForm` | composeApp/src/commonMain/kotlin/com/programmersbox/salarycalculator/App.kt:253-289 | two result records for one schedule share their hours and shares, whatever the rates and days off |
| `SalaryLaws.ResultsExtensional` | composeApp/src/commonMain/kotlin/com/programmersbox/salarycalculator/App.kt:339-348 | specification helper: two results records (a Kotlin data class, compared by its fields) that agree on every period are equal |
| `SalaryLaws.RateFormula` | composeApp/src/commonMain/kotlin/com/programmersbox/salarycalculator/App.kt:291-310 | the `when` dispatch divides the amount by a non-zero number of hours per period (twice the monthly hours for semi-monthly) |
| `SalaryLaws.DailyInverse` | composeApp/src/commonMain/kotlin/com/programmersbox/salarycalculator/App.kt:294 | the daily conversion and the daily hours undo each other |
| `SalaryLaws.WeeklyInverse` | composeApp/src/commonMain/kotlin/com/programmersbox/salarycalculator/App.kt:296 | the weekly conversion and the weekly hours undo each other |
| `SalaryLaws.BiWeeklyInverse` | composeApp/src/commonMain/kotlin/com/programmersbox/salarycalculator/App.kt:298 | the bi-weekly conversion and twice the weekly hours undo each other |
| `SalaryLaws.SemiMonthlyInverse` | composeApp/src/commonMain/kotlin/com/programmersbox/salarycalculator/App.kt:300-303 | the semi-monthly conversion followed by the semi-monthly hours gives a quarter, both ways |
| `SalaryLaws.MonthlyInverse` | composeApp/src/commonMain/kotlin/com/programmersbox/salarycalculator/App.kt:305 | the monthly conversion and the monthly hours undo each other |
| `SalaryLaws.QuarterlyInverse` | composeApp/src/commonMain/kotlin/com/programmersbox/salarycalculator/App.kt:307 | the quarterly conversion and the quarterly hours undo each other |
| `SalaryLaws.YearlyInverse` | composeApp/src/commonMain/kotlin/com/programmersbox/salarycalculator/App.kt:309 | the yearly conversion and 52 weeks of hours undo each other |
| `SalaryLaws.RateRoundTrip` | composeApp/src/commonMain/kotlin/com/programmersbox/salarycalculator/App.kt:256-310 | converting a period's result back to an hourly rate gives the rate, a quarter of it for semi-monthly |
| `SalaryLaws.AmountRoundTrip` | composeApp/src/commonMain/kotlin/com/programmersbox/salarycalculator/App.kt:256-310 | converting an amount to the rate and back to its period gives the amount, a quarter of it for semi-monthly |
| `SalaryLaws.RoundTrip` | composeApp/src/commonMain/kotlin/com/programmersbox/salarycalculator/App.kt:235-324 | the result for the entered period shows the entered amount, except semi-monthly, which shows a quarter |
| `SalaryLaws.AdjustedYearLinear` | composeApp/src/commonMain/kotlin/com/programmersbox/salarycalculator/App.kt:254 | `adjustedYear` is linear in the hourly rate |
| `SalaryLaws.ClosedLinear` | composeApp/src/commonMain/kotlin/com/programmersbox/salarycalculator/App.kt:253-289 | scaling both rate and adjusted year scales the closed-form record |
| `SalaryLaws.ResultsLinear` | composeApp/src/commonMain/kotlin/com/programmersbox/salarycalculator/App.kt:253-289 | scaling the hourly rate scales all sixteen results |
| `SalaryLaws.RateLinear` | composeApp/src/commonMain/kotlin/com/programmersbox/salarycalculator/App.kt:291-310 | scaling the amount scales the hourly rate, for every period |
| `SalaryLaws.TimeOffKeepsUnadjusted` | composeApp/src/commonMain/kotlin/com/programmersbox/salarycalculator/App.kt:254-287 | holidays and vacation days change no unadjusted value |
| `SalaryLaws.SameOffWeeksSameResults` | composeApp/src/commonMain/kotlin/com/programmersbox/salarycalculator/App.kt:243-254 | days off with the same `offDays / 5` give identical results |
| `SalaryLaws.TimeOffOnlyAdjusts` | composeApp/src/commonMain/kotlin/com/programmersbox/salarycalculator/App.kt:243-287 | time off never changes an unadjusted value, and changes nothing when `offDays / 5` is unchanged |
| `SalaryLaws.OffWeeksChangeAdjustedYear` | composeApp/src/commonMain/kotlin/com/programmersbox/salarycalculator/App.kt:254 | for a non-zero rate a change in `offDays / 5` changes the adjusted year |
| `SalaryLaws.ResultsTrackOffWeeks` | composeApp/src/commonMain/kotlin/com/programmersbox/salarycalculator/App.kt:243-287 | for a non-zero rate the results change if and only if `offDays / 5` changes |
| `SalaryLaws.OffWeeksMonotone` | composeApp/src/commonMain/kotlin/com/programmersbox/salarycalculator/App.kt:254 | `offDays / 5` is non-decreasing in `offDays` |
| `SalaryLaws.AdjustedYearMonotone` | composeApp/src/commonMain/kotlin/com/programmersbox/salarycalculator/App.kt:254 | more days off never raise the adjusted year of a positive rate, and another off-week lowers it |
| `SalaryLaws.ClosedMonotone` | composeApp/src/commonMain/kotlin/com/programmersbox/salarycalculator/App.kt:258-286 | with positive shares a smaller adjusted year gives smaller adjusted values for every period |
| `SalaryLaws.AdjustedMonotone` | composeApp/src/commonMain/kotlin/com/programmersbox/salarycalculator/App.kt:254-287 | for positive pay and schedule, every adjusted value is non-increasing in the days off and drops when `offDays / 5` grows |
| `SalaryLaws.ComputeAdjustedMonotone` | composeApp/src/commonMain/kotlin/com/programmersbox/salarycalculator/App.kt:235-324 | for a positive amount, week and day, more holidays and vacation days (their exact sums within `Int`) never raise an adjusted value, and every adjusted value drops once `(holidays + vacation) / 5` grows |
| `SalaryLaws.TimeOffWraps` | composeApp/src/commonMain/kotlin/com/programmersbox/salarycalculator/App.kt:243-254 | at `Int.MAX_VALUE` holidays one more vacation day wraps `offDays` negative and raises the adjusted year |
| `SalaryLaws.NoOffWeeksNoAdjustment` | composeApp/src/commonMain/kotlin/com/programmersbox/salarycalculator/App.kt:254-287 | with no whole off-week, adjusted equals unadjusted for weekly through yearly |
| `SalaryLaws.DayShares` | composeApp/src/commonMain/kotlin/com/programmersbox/salarycalculator/App.kt:258-262 | a day's 1/260 share of the year equals a day's hours exactly when the week has 5 days |
| `SalaryLaws.NoOffWeeksDailyHourly` | composeApp/src/commonMain/kotlin/com/programmersbox/salarycalculator/App.kt:249-262 | with no whole off-week, daily and hourly adjusted equal unadjusted if and only if there are 5 days a week |
| `SalaryLaws.ComputeLinear` | composeApp/src/commonMain/kotlin/com/programmersbox/salarycalculator/App.kt:235-324 | with the schedule fixed, scaling the amount by k scales all sixteen results by k |
| `SalaryLaws.ScaledInputRate` | composeApp/src/commonMain/kotlin/com/programmersbox/salarycalculator/App.kt:237-310 | scaling the amount keeps the basis and scales the hourly rate |
| `SalaryLaws.ComputeProportional` | composeApp/src/commonMain/kotlin/com/programmersbox/salarycalculator/App.kt:235-324 | every result is the amount times the result for an amount of 1 on the same schedule |
| `SalaryLaws.RateMonotone` | composeApp/src/commonMain/kotlin/com/programmersbox/salarycalculator/App.kt:291-310 | over a positive week and day a larger amount gives a larger hourly rate, for every period |
| `SalaryLaws.AdjustedYearRateMonotone` | composeApp/src/commonMain/kotlin/com/programmersbox/salarycalculator/App.kt:254 | while fewer than 52 weeks are off, a larger hourly rate gives a larger adjusted year |
| `SalaryLaws.ResultsRateMonotone` | composeApp/src/commonMain/kotlin/com/programmersbox/salarycalculator/App.kt:253-289 | over a positive schedule a larger hourly rate raises every unadjusted value, and every adjusted value while fewer than 52 weeks are off |
| `SalaryLaws.ComputeAmountMonotone` | composeApp/src/commonMain/kotlin/com/programmersbox/salarycalculator/App.kt:235-324 | over positive hours and days a larger amount raises all eight unadjusted values, and all eight adjusted values while `(holidays + vacation) / 5` is below 52 |
| `SalaryLaws.NoYearNoAdjusted` | composeApp/src/commonMain/kotlin/com/programmersbox/salarycalculator/App.kt:254-287 | with 52 weeks off every adjusted value is 0, whatever the rate |
| `SalaryLaws.AllYearOff` | composeApp/src/commonMain/kotlin/com/programmersbox/salarycalculator/App.kt:254 | with 260 days off the adjusted values are all 0 at an amount of 50 and at 100 |
| `SalaryLaws.RateIgnoresTimeOff` | composeApp/src/commonMain/kotlin/com/programmersbox/salarycalculator/App.kt:291-310 | the dispatch does not depend on the days off |
| `SalaryLaws.TimeOffIndependence` | composeApp/src/commonMain/kotlin/com/programmersbox/salarycalculator/App.kt:235-324 | on the inputs, holidays and vacation days change no unadjusted value, and nothing when `(holidays + vacation) / 5` is unchanged |
| `SalaryLaws.ComputeAdjustedYear` | composeApp/src/commonMain/kotlin/com/programmersbox/salarycalculator/App.kt:243-286 | the yearly adjusted value shown is the yearly unadjusted times (52 - (holidays + vacation) / 5)/52, the quotient truncated |
| `SalaryLaws.DefaultScenario` | composeApp/src/commonMain/kotlin/com/programmersbox/salarycalculator/App.kt:228-286 | the defaults show 50 an hour, 2000 a week, 104000 a year, and 94000 a year adjusted |
| `SalaryLaws.Reenter` | composeApp/src/commonMain/kotlin/com/programmersbox/salarycalculator/App.kt:235-324 | entering any non-semi-monthly result under its own period reproduces every result |
| `SalaryLaws.ReenterSemiMonthly` | composeApp/src/commonMain/kotlin/com/programmersbox/salarycalculator/App.kt:300-303 | entering the semi-monthly result as a semi-monthly amount gives a quarter of every result |
| `SalaryLaws.InfoMapLookup` | composeApp/src/commonMain/kotlin/com/programmersbox/salarycalculator/App.kt:349-362 | each period is at its ordinal in `infoMap`, with its field, and nowhere else |
| `SalaryFindings.IntendedHourlyRate` | composeApp/src/commonMain/kotlin/com/programmersbox/salarycalculator/App.kt:300-303 | the corrected semi-monthly conversion gives four times the rate as written |
| `SalaryFindings.IntendedSemiMonthlyRate` | composeApp/src/commonMain/kotlin/com/programmersbox/salarycalculator/App.kt:272-274 | with the corrected conversion a semi-monthly result converts back to its rate |
| `SalaryFindings.IntendedSemiMonthlyAmount` | composeApp/src/commonMain/kotlin/com/programmersbox/salarycalculator/App.kt:272-274 | with the corrected conversion a semi-monthly amount comes back unchanged |
| `SalaryFindings.ComputeIntended` | composeApp/src/commonMain/kotlin/com/programmersbox/salarycalculator/App.kt:235-324 | the corrected `amounts` keeps the all-zero fallback |
| `SalaryFindings.IntendedRoundTrip` | composeApp/src/commonMain/kotlin/com/programmersbox/salarycalculator/App.kt:291-310 | with the corrected conversion every period, semi-monthly included, shows the amount entered |
| `SalaryFindings.IntendedAgrees` | composeApp/src/commonMain/kotlin/com/programmersbox/salarycalculator/App.kt:291-310 | the two conversions agree except for semi-monthly, where the results as written are a quarter of the corrected ones |
| `SalaryFindings.SemiMonthlyAsWritten` | composeApp/src/commonMain/kotlin/com/programmersbox/salarycalculator/App.kt:300-303 | as written a semi-monthly amount shows a quarter of itself; the corrected conversion shows the amount |
| `SalaryFindings.SemiMonthlyExample` | composeApp/src/commonMain/kotlin/com/programmersbox/salarycalculator/App.kt:300-303 | a semi-monthly amount of 1000 on a 40-hour, 5-day week is a complete, computable input |
| `SalaryFindings.SemiMonthlyCounterexample` | composeApp/src/commonMain/kotlin/com/programmersbox/salarycalculator/App.kt:300-303 | that input shows 250 as written and 1000 when corrected |
| `SalaryState.SalaryData.constructor` | composeApp/src/commonMain/kotlin/com/programmersbox/salarycalculator/App.kt:228-233 | a new `SalaryData` holds the defaults |
| `SalaryState.SalaryData.Amounts` | composeApp/src/commonMain/kotlin/com/programmersbox/salarycalculator/App.kt:235-324 | `amounts` is all zero while a field is missing, and shows the entered amount for the selected period (a quarter of it for semi-monthly) |
| `SalaryState.SalaryData.SetPerAmount` | composeApp/src/commonMain/kotlin/com/programmersbox/salarycalculator/App.kt:71 | choosing a period changes only `perAmount` and keeps the fields computable |
| `SalaryState.SalaryData.SetAmount` | composeApp/src/commonMain/kotlin/com/programmersbox/salarycalculator/App.kt:134 | editing the amount changes only `amount` |
| `SalaryState.SalaryData.SetHoursPerWeek` | composeApp/src/commonMain/kotlin/com/programmersbox/salarycalculator/App.kt:149 | editing the hours changes only `hoursPerWeek` |
| `SalaryState.SalaryData.SetDaysPerWeek` | composeApp/src/commonMain/kotlin/com/programmersbox/salarycalculator/App.kt:156 | editing the days changes only `daysPerWeek` |
| `SalaryState.SalaryData.SetHolidaysPerYear` | composeApp/src/commonMain/kotlin/com/programmersbox/salarycalculator/App.kt:163 | editing the holidays changes only `holidaysPerYear` and keeps complete fields computable |
| `SalaryState.SalaryData.SetVacationDaysPerYear` | composeApp/src/commonMain/kotlin/com/programmersbox/salarycalculator/App.kt:170 | editing the vacation days changes only `vacationDaysPerYear` and keeps complete fields computable |

`Salary.GetSalaryResults`, `Salary.AdjustedYear` and `Salary.SalaryResults.Of` only compute and carry no contract of their own. What they promise is stated by the `SalaryLaws` rows that cite the same lines: `UnadjustedRelations`, `AdjustedRelations`, `AdjustedYearShare` and `ResultsFormula` for lines 253-289, `AdjustedYearLinear` and `AdjustedYearMonotone` for line 254, and `InfoMapLookup` for the fields of lines 352-361.

## Left out

- The Compose UI (`App`, `SalaryUI`, `NumberField`, `DoubleConverter`, the animations) is not part of this model. It renders the fields and results and holds no conversion logic.
- Text parsing (`toDoubleOrNull`, `toIntOrNull`) is a Kotlin library matter. Its outcome is the `Option` value of each field.
- IEEE non-finite values are not modelled. With 0 hours or 0 days per week, Kotlin's double division gives Infinity or NaN rather than throwing, so `runCatching` does not catch it.
  - `Salary.Compute` and `SalaryState.SalaryData.Amounts` therefore require `Computable`: some field missing, or both divisors non-zero.
  - For the same reason `Salary.BasisOf` requires non-zero days per week, `Salary.GetSalaryResults` non-zero daily hours, and `Salary.HourlyRate` a valid `Basis` (non-zero weekly and daily hours).
- Rounding of `Double` arithmetic is not modelled; every relation is proved over exact reals.
- The reactive recomputation behind `mutableStateOf` and `derivedStateOf` is Compose runtime machinery. `amounts` is a function of the current fields (`SalaryState.SalaryData.Amounts`).
- The platform files (`Platform*.kt`, `main.kt`), the currency formatting and the window bootstrapping are foreign library calls and I/O glue, and are not part of this model.
- `SalaryLaws.ComputeAdjustedMonotone`: requires both exact sums of holidays and vacation days to fit in a Kotlin `Int`, because past that the wrapped sum can reverse the order (`SalaryLaws.TimeOffWraps`).
- `SalaryLaws.ComputeAmountMonotone`: the adjusted values rise with the amount only while fewer than 52 whole weeks are off. At 52 or more the adjusted year is 0 or negative, and at exactly 52 it no longer depends on the amount (`SalaryLaws.AllYearOff`).
- `SalaryState.SalaryData.Amounts` follows the code as written, so the semi-monthly result shows a quarter of a semi-monthly amount. The corrected conversion is `SalaryFindings.ComputeIntended`; the two are related by `SalaryFindings.IntendedAgrees`.

## Findings

| source | as written | input that shows it | evidently intended | confidence | as-written member | corrected member |
|---|---|---|---|---|---|---|
| composeApp/src/commonMain/kotlin/com/programmersbox/salarycalculator/App.kt:300-303 | a semi-monthly amount becomes the hourly rate `amount / monthlyHours * 12 / 24`, that is `amount` over twice the monthly hours, while `getSalaryResults` (line 273) pays a half-month for `monthlyHours * 12 / 24` hours, half the monthly hours, so the semi-monthly result is a quarter of the amount | `SalaryInput(SemiMonthly, 1000, 40 h, 5 days, 0, 0)`: the semi-monthly result shows 250 instead of 1000 | the rate `amount * 24 / 12 / monthlyHours`, so that the semi-monthly result shows the amount entered, as every other period does | not executed | `SalaryFindings.SemiMonthlyCounterexample` | `SalaryFindings.IntendedRoundTrip` |
