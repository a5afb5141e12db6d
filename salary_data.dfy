/** `SalaryData`: the six values the screen edits, and the sixteen results
    derived from them. Each text field holds what parsing it gives: `None`
    for text that is not a number. */
module SalaryState {
  import opened Wrappers
  import opened Salary
  import opened SalaryLaws

  class SalaryData {
    var perAmount: PerAmount
    var amount: Option<real>
    var hoursPerWeek: Option<real>
    var daysPerWeek: Option<int32>
    var holidaysPerYear: Option<int32>
    var vacationDaysPerYear: Option<int32>

    /** The current values of the six fields. */
    function Input(): SalaryInput
      reads this
    {
      SalaryInput(perAmount, amount, hoursPerWeek, daysPerWeek, holidaysPerYear, vacationDaysPerYear)
    }

    /** A fresh `SalaryData` starts at 50 an hour, 40 hours over 5 days, 10
        holidays and 15 vacation days. */
    constructor()
      ensures Input() == Defaults()
    {
      perAmount := Hourly;
      amount := Some(50.0);
      hoursPerWeek := Some(40.0);
      daysPerWeek := Some(5);
      holidaysPerYear := Some(10);
      vacationDaysPerYear := Some(15);
    }

    /** `amounts`: the results of the current fields, all zero while one of
        them is missing; the result for the selected period shows the
        entered amount, a quarter of it for the semi-monthly period. */
    function Amounts(): (r: SalaryResults)
      reads this
      requires Computable(Input())
      ensures Validate(Input()).None? ==> r == ZeroResults()
      ensures Validate(Input()).Some? && perAmount != SemiMonthly ==> r.Of(perAmount).unadjusted == amount.value
      ensures Validate(Input()).Some? && perAmount == SemiMonthly ==> r.Of(perAmount).unadjusted == amount.value / 4.0
    {
      if Validate(Input()).Some? then RoundTrip(Input()); Compute(Input()) else Compute(Input())
    }

    method SetPerAmount(p: PerAmount)
      modifies this
      ensures Input() == old(Input()).(perAmount := p)
      ensures Computable(old(Input())) ==> Computable(Input())
    {
      perAmount := p;
    }

    method SetAmount(a: Option<real>)
      modifies this
      ensures Input() == old(Input()).(amount := a)
    {
      amount := a;
    }

    method SetHoursPerWeek(h: Option<real>)
      modifies this
      ensures Input() == old(Input()).(hoursPerWeek := h)
    {
      hoursPerWeek := h;
    }

    method SetDaysPerWeek(d: Option<int32>)
      modifies this
      ensures Input() == old(Input()).(daysPerWeek := d)
    {
      daysPerWeek := d;
    }

    /** Changing the holidays keeps complete inputs computable: they are
        never divided by. */
    method SetHolidaysPerYear(d: Option<int32>)
      modifies this
      ensures Input() == old(Input()).(holidaysPerYear := d)
      ensures old(holidaysPerYear).Some? && Computable(old(Input())) ==> Computable(Input())
    {
      holidaysPerYear := d;
    }

    /** Changing the vacation days keeps complete inputs computable: they
        are never divided by. */
    method SetVacationDaysPerYear(d: Option<int32>)
      modifies this
      ensures Input() == old(Input()).(vacationDaysPerYear := d)
      ensures old(vacationDaysPerYear).Some? && Computable(old(Input())) ==> Computable(Input())
    {
      vacationDaysPerYear := d;
    }
  }
}
