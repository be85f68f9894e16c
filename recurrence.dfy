/**
 * The recurrence vocabulary of the transaction dialog (`RecorrenciaType`,
 * `FrequenciaType`) and `calculateNextDate`, which advances a date by a number
 * of steps of a frequency.
 */
module Recurrence {
  import opened CivilDates

  /** `RecorrenciaType`: a single transaction, one total split into installments, or a repeated charge. */
  datatype Recorrencia = Unico | Parcelar | Repetir

  /** `FrequenciaType`: weekly, every 15 days, monthly, every 2 months, every 3 months, yearly. */
  datatype Frequencia = Semanal | Quinzenal | Mensal | Bimestral | Trimestral | Anual

  /** The frequencies that step by a fixed number of days rather than by calendar months. */
  predicate StepsByDays(f: Frequencia) {
    f == Semanal || f == Quinzenal
  }

  /** Days in one step of a day-based frequency. */
  function DaysPerStep(f: Frequencia): nat
    requires StepsByDays(f)
  {
    if f == Semanal then 7 else 15
  }

  /** Calendar months in one step of a month-based frequency. */
  function MonthsPerStep(f: Frequencia): nat
    requires !StepsByDays(f)
  {
    match f
    case Mensal => 1
    case Bimestral => 2
    case Trimestral => 3
    case Anual => 12
  }

  /**
   * `calculateNextDate(start, increment, frequencia)`: `addWeeks` for weekly,
   * `addDays(increment * 15)` for quinzenal, `addMonths` by 1, 2 or 3 months a
   * step, and `addYears` for yearly. No step leaves the date where it is, and a
   * step of a day-based frequency is a whole number of days, of a month-based
   * one a whole number of months.
   */
  function CalculateNextDate(start: Date, increment: nat, f: Frequencia): (r: Date)
    ensures increment == 0 ==> r == start
    ensures increment > 0 ==> Before(start, r)
    ensures StepsByDays(f) ==> r == AddDays(start, increment * DaysPerStep(f))
    ensures !StepsByDays(f) ==> MonthIndex(r) == MonthIndex(start) + increment * MonthsPerStep(f)
  {
    match f
    case Semanal => AddWeeks(start, increment)
    case Quinzenal => AddDays(start, increment * 15)
    case Mensal => AddMonths(start, increment)
    case Bimestral => AddMonths(start, increment * 2)
    case Trimestral => AddMonths(start, increment * 3)
    case Anual => AddYears(start, increment)
  }

  /** Steps on month-based frequencies are `addMonths` by `increment` times the step size. */
  lemma StepByMonths(start: Date, increment: nat, f: Frequencia)
    requires !StepsByDays(f)
    ensures CalculateNextDate(start, increment, f) == AddMonths(start, increment * MonthsPerStep(f))
  {
    if f == Anual {
      assert increment * 12 == 12 * increment;
    }
  }

  /** Later steps give strictly later dates: a schedule's dates increase with the row. */
  lemma StepIncreasing(start: Date, a: nat, b: nat, f: Frequencia)
    requires a < b
    ensures Before(CalculateNextDate(start, a, f), CalculateNextDate(start, b, f))
  {
    if StepsByDays(f) {
      assert a * DaysPerStep(f) < b * DaysPerStep(f);
      AddDaysIncreasing(start, a * DaysPerStep(f), b * DaysPerStep(f));
    } else {
      assert a * MonthsPerStep(f) < b * MonthsPerStep(f);
      MonthIndexOrder(CalculateNextDate(start, a, f), CalculateNextDate(start, b, f));
    }
  }

  /**
   * Stepping `a` times and then `b` times is stepping `a + b` times, for the
   * day-based frequencies always, and for the month-based ones whenever the
   * day of month is at most 28 (otherwise month-end clamping gets in the way,
   * see `AddMonthsNotAdditiveAtMonthEnd`).
   */
  lemma StepComposes(start: Date, a: nat, b: nat, f: Frequencia)
    requires StepsByDays(f) || start.day <= 28
    ensures CalculateNextDate(CalculateNextDate(start, a, f), b, f) == CalculateNextDate(start, a + b, f)
  {
    if StepsByDays(f) {
      DayStepsCompose(start, a, b, f);
    } else {
      MonthStepsCompose(start, a, b, f);
    }
  }

  lemma DayStepsCompose(start: Date, a: nat, b: nat, f: Frequencia)
    requires StepsByDays(f)
    ensures CalculateNextDate(CalculateNextDate(start, a, f), b, f) == CalculateNextDate(start, a + b, f)
  {
    var k := DaysPerStep(f);
    AddDaysAdditive(start, a * k, b * k);
    assert a * k + b * k == (a + b) * k;
  }

  lemma MonthStepsCompose(start: Date, a: nat, b: nat, f: Frequencia)
    requires !StepsByDays(f) && start.day <= 28
    ensures CalculateNextDate(CalculateNextDate(start, a, f), b, f) == CalculateNextDate(start, a + b, f)
  {
    var k := MonthsPerStep(f);
    var mid := CalculateNextDate(start, a, f);
    StepByMonths(start, a, f);
    StepByMonths(mid, b, f);
    StepByMonths(start, a + b, f);
    AddMonthsAdditive(start, a * k, b * k);
    assert a * k + b * k == (a + b) * k;
  }

  /** One monthly step from 31 January 2024 lands on 29 February 2024. */
  lemma MonthlyStepClamps()
    ensures CalculateNextDate(CivilDate(2024, 1, 31), 1, Mensal) == CivilDate(2024, 2, 29)
  {
    AddMonthsClampsToLeapFebruary();
  }
}
