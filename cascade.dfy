/**
 * What the row-edit handlers of the dialog do to the preview rows, as
 * functions on sequences: `handleParcelaChange` (an amount edit, redistributed
 * over the later rows in installment mode) and `handleDateChange` (a date
 * edit, cascaded to the later rows in installment mode). The dialog's methods
 * are proved to leave exactly these rows behind.
 */
module Cascade {
  import opened Options
  import opened CivilDates
  import opened Money
  import opened Recurrence
  import opened Schedule

  /** The two date columns of a row the user can pick a date for. */
  datatype DateField = Vencimento | Competencia

  /** Row `index` with its amount replaced. */
  function SetValor(rows: seq<Parcela>, index: nat, newValue: int): (r: seq<Parcela>)
    requires index < |rows|
  {
    rows[index := rows[index].(valor := newValue)]
  }

  /**
   * The installment branch of `handleParcelaChange`: row `index` takes the new
   * amount and, when later rows exist, what is left of `valorLiquido` after
   * rows 0..index is split over them by floor division, remainder on the last.
   */
  function Redistribute(rows: seq<Parcela>, index: nat, newValue: int, valorLiquido: int): (r: seq<Parcela>)
    requires index < |rows|
  {
    var edited := SetValor(rows, index, newValue);
    var parcelasRestantes := |rows| - (index + 1);
    var valorRestante := valorLiquido - Total(edited[..index + 1]);
    seq(|rows|, i requires 0 <= i < |rows| =>
      if i <= index then edited[i]
      else rows[i].(valor := ShareAt(valorRestante, parcelasRestantes, i - (index + 1))))
  }

  /** `handleParcelaChange` on the rows: redistributing for installments, a single-row change otherwise. */
  function AmountEdit(rows: seq<Parcela>, index: nat, newValue: int, recorrencia: Recorrencia, valorLiquido: int): (r: seq<Parcela>)
    requires index < |rows|
  {
    if recorrencia == Parcelar then Redistribute(rows, index, newValue, valorLiquido)
    else SetValor(rows, index, newValue)
  }

  /** Two rows that agree on everything but the amount. */
  predicate SameButValor(p: Parcela, q: Parcela) {
    p.vencimento == q.vencimento && p.competencia == q.competencia &&
    p.segundaData == q.segundaData && p.dayOfWeek == q.dayOfWeek
  }

  lemma TotalOne(p: Parcela)
    ensures Total([p]) == p.valor
  {
    assert Amounts([p]) == [p.valor];
    assert [p.valor][..0] == [];
    assert Sum([p.valor]) == Sum([]) + p.valor;
  }

  lemma TotalAppend(a: seq<Parcela>, b: seq<Parcela>)
    ensures Total(a + b) == Total(a) + Total(b)
  {
    assert Amounts(a + b) == Amounts(a) + Amounts(b);
    SumAppend(Amounts(a), Amounts(b));
  }

  /** The sum of the rows is the sum of the first `k` rows plus the sum of the rest. */
  lemma TotalSplit(rows: seq<Parcela>, k: nat)
    requires k <= |rows|
    ensures Total(rows) == Total(rows[..k]) + Total(rows[k..])
  {
    assert rows == rows[..k] + rows[k..];
    TotalAppend(rows[..k], rows[k..]);
  }

  /**
   * An installment amount edit only touches amounts, never earlier rows: the
   * row count and every date and weekday stay, rows before `index` are
   * unchanged and row `index` holds the new amount.
   */
  lemma RedistributeFrame(rows: seq<Parcela>, index: nat, newValue: int, valorLiquido: int)
    requires index < |rows|
    ensures var r := Redistribute(rows, index, newValue, valorLiquido);
      |r| == |rows| &&
      (forall i :: 0 <= i < index ==> r[i] == rows[i]) &&
      r[index] == rows[index].(valor := newValue) &&
      (forall i :: 0 <= i < |r| ==> SameButValor(r[i], rows[i]))
  {
  }

  /**
   * When later rows exist, they receive the floor split of what remains of
   * `valorLiquido` after rows 0..index, so the rows again add up to
   * `valorLiquido` exactly.
   */
  lemma RedistributeKeepsNet(rows: seq<Parcela>, index: nat, newValue: int, valorLiquido: int)
    requires index + 1 < |rows|
    ensures var r := Redistribute(rows, index, newValue, valorLiquido);
      var restante := valorLiquido - (Total(rows[..index]) + newValue);
      Amounts(r)[index + 1..] == Split(restante, |rows| - (index + 1)) &&
      Total(r) == valorLiquido
  {
    var r := Redistribute(rows, index, newValue, valorLiquido);
    var edited := SetValor(rows, index, newValue);
    var n := |rows| - (index + 1);
    assert edited[..index + 1] == rows[..index] + [edited[index]];
    TotalAppend(rows[..index], [edited[index]]);
    TotalOne(edited[index]);
    var restante := valorLiquido - (Total(rows[..index]) + newValue);
    assert restante == valorLiquido - Total(edited[..index + 1]);
    forall k | 0 <= k < n
      ensures Amounts(r[index + 1..])[k] == Split(restante, n)[k]
    {
      assert r[index + 1 + k].valor == ShareAt(restante, n, k);
    }
    assert Amounts(r[index + 1..]) == Split(restante, n);
    assert Amounts(r)[index + 1..] == Amounts(r[index + 1..]);
    SplitSum(restante, n);
    TotalSplit(r, index + 1);
    assert r[..index + 1] == edited[..index + 1];
  }

  /**
   * Editing the last installment redistributes nothing, so the rows add up to
   * `valorLiquido` only when the new amount is exactly what the earlier rows
   * leave of it.
   */
  lemma RedistributeLastRow(rows: seq<Parcela>, newValue: int, valorLiquido: int)
    requires |rows| >= 1
    ensures var index := |rows| - 1;
      var r := Redistribute(rows, index, newValue, valorLiquido);
      r == SetValor(rows, index, newValue) &&
      (Total(r) == valorLiquido <==> newValue == valorLiquido - Total(rows[..index]))
  {
    var index := |rows| - 1;
    var r := Redistribute(rows, index, newValue, valorLiquido);
    assert r == SetValor(rows, index, newValue);
    TotalSplit(r, index);
    assert r[..index] == rows[..index];
    assert r[index..] == [r[index]];
    TotalOne(r[index]);
  }

  /**
   * Outside installment mode an amount edit changes row `index` alone, and the
   * sum of the rows moves by exactly the change of that row.
   */
  lemma SetValorSingleRow(rows: seq<Parcela>, index: nat, newValue: int)
    requires index < |rows|
    ensures var r := SetValor(rows, index, newValue);
      |r| == |rows| &&
      (forall i :: 0 <= i < |r| && i != index ==> r[i] == rows[i]) &&
      r[index].valor == newValue && SameButValor(r[index], rows[index]) &&
      Total(r) == Total(rows) - rows[index].valor + newValue
  {
    var r := SetValor(rows, index, newValue);
    TotalSplit(rows, index);
    TotalSplit(r, index);
    assert r[..index] == rows[..index];
    TotalSplit(rows[index..], 1);
    TotalSplit(r[index..], 1);
    assert r[index..][1..] == rows[index..][1..];
    assert Amounts(r[index..][..1]) == [newValue];
    assert Amounts(rows[index..][..1]) == [rows[index].valor];
  }

  /** Four installments of 250 out of 1000: setting the first to 400 leaves 200 for each of the other three. */
  lemma RedistributeExample(rows: seq<Parcela>)
    requires |rows| == 4 && Amounts(rows) == [250, 250, 250, 250]
    ensures Amounts(Redistribute(rows, 0, 400, 1000)) == [400, 200, 200, 200]
  {
    var r := Redistribute(rows, 0, 400, 1000);
    assert SetValor(rows, 0, 400)[..1] == [rows[0].(valor := 400)];
    TotalOne(rows[0].(valor := 400));
  }

  // ---------------------------------------------------------------------
  // Date edits

  /** `updated[index][field] = date`, and for quinzenal due dates the second date 15 days later. */
  function EditRowDate(p: Parcela, field: DateField, date: Date, f: Frequencia): Parcela {
    match field
    case Vencimento =>
      p.(vencimento := Some(date),
         segundaData := if f == Quinzenal then Some(AddDays(date, 15)) else p.segundaData)
    case Competencia =>
      p.(competencia := Some(date))
  }

  /**
   * `handleDateChange` on the rows. Row `index` takes the date in every mode.
   * In installment mode the later rows follow: a due date is re-stepped from
   * the new date by the row's distance from `index`, a competence date is
   * copied as it is.
   */
  function DateEdit(rows: seq<Parcela>, index: nat, date: Date, field: DateField,
                    recorrencia: Recorrencia, f: Frequencia): (r: seq<Parcela>)
    requires index < |rows|
  {
    seq(|rows|, i requires 0 <= i < |rows| => DateEditRow(rows[i], i, index, date, field, recorrencia, f))
  }

  /** What `handleDateChange` leaves in row `i`, which held `p`, after an edit of row `index`. */
  function DateEditRow(p: Parcela, i: nat, index: nat, date: Date, field: DateField,
                       recorrencia: Recorrencia, f: Frequencia): Parcela
  {
    if i < index || (index < i && recorrencia != Parcelar) then p
    else if i == index then EditRowDate(p, field, date, f)
    else if field == Vencimento then EditRowDate(p, Vencimento, CalculateNextDate(date, i - index, f), f)
    else EditRowDate(p, Competencia, date, f)
  }

  /** The edited row of a date edit, in every mode. */
  lemma DateEditEditedRow(rows: seq<Parcela>, index: nat, date: Date, field: DateField, recorrencia: Recorrencia, f: Frequencia)
    requires index < |rows|
    ensures |DateEdit(rows, index, date, field, recorrencia, f)| == |rows|
    ensures DateEdit(rows, index, date, field, recorrencia, f)[index] == EditRowDate(rows[index], field, date, f)
    ensures forall j :: 0 <= j < index ==> DateEdit(rows, index, date, field, recorrencia, f)[j] == rows[j]
  {
  }

  /** A row after the edited one in installment mode: re-stepped due date, or the copied competence date. */
  lemma DateEditLaterRows(rows: seq<Parcela>, i: nat, index: nat, date: Date, field: DateField, f: Frequencia)
    requires index < i < |rows|
    ensures DateEdit(rows, index, date, field, Parcelar, f)[i] ==
      if field == Vencimento then EditRowDate(rows[i], Vencimento, CalculateNextDate(date, i - index, f), f)
      else EditRowDate(rows[i], Competencia, date, f)
  {
  }

  /** Outside installment mode a date edit leaves every other row as it was. */
  lemma DateEditOtherModes(rows: seq<Parcela>, index: nat, date: Date, field: DateField, recorrencia: Recorrencia, f: Frequencia)
    requires index < |rows| && recorrencia != Parcelar
    ensures forall j :: 0 <= j < |rows| && j != index ==> DateEdit(rows, index, date, field, recorrencia, f)[j] == rows[j]
  {
  }

  /**
   * A date edit never touches amounts or weekdays nor any row before `index`.
   * In every mode row `index` takes the date in the edited column and keeps
   * the other one; a quinzenal due date also gives it a second date 15 days
   * later, any other edit keeps its second date. Outside installment mode no
   * other row changes.
   */
  lemma DateEditFrame(rows: seq<Parcela>, index: nat, date: Date, field: DateField, recorrencia: Recorrencia, f: Frequencia)
    requires index < |rows|
    ensures var r := DateEdit(rows, index, date, field, recorrencia, f);
      |r| == |rows| && Amounts(r) == Amounts(rows) && Total(r) == Total(rows) &&
      (forall i :: 0 <= i < |r| ==> r[i].dayOfWeek == rows[i].dayOfWeek) &&
      (forall i :: 0 <= i < index ==> r[i] == rows[i]) &&
      (field == Vencimento ==>
         r[index].vencimento == Some(date) && r[index].competencia == rows[index].competencia &&
         r[index].segundaData == if f == Quinzenal then Some(AddDays(date, 15)) else rows[index].segundaData) &&
      (field == Competencia ==>
         r[index].competencia == Some(date) && r[index].vencimento == rows[index].vencimento &&
         r[index].segundaData == rows[index].segundaData) &&
      (recorrencia != Parcelar ==> forall i :: 0 <= i < |r| && i != index ==> r[i] == rows[i])
  {
    var r := DateEdit(rows, index, date, field, recorrencia, f);
    forall i | 0 <= i < |r|
      ensures r[i].valor == rows[i].valor && r[i].dayOfWeek == rows[i].dayOfWeek
    {
      assert r[i] == DateEditRow(rows[i], i, index, date, field, recorrencia, f);
    }
    assert Amounts(r) == Amounts(rows);
  }

  /**
   * Installment due-date edit, row by row: from row `index` on, row `i` is
   * due `i - index` steps after the new date, with a second date 15 days
   * later for quinzenal (any other frequency keeps the second date);
   * competence dates stay.
   */
  lemma {:induction false} DueDateCascadeAt(rows: seq<Parcela>, index: nat, date: Date, f: Frequencia, i: nat)
    requires index <= i < |rows|
    ensures var r := DateEdit(rows, index, date, Vencimento, Parcelar, f);
      var due := CalculateNextDate(date, i - index, f);
      r[i].vencimento == Some(due) &&
      r[i].competencia == rows[i].competencia &&
      r[i].segundaData == if f == Quinzenal then Some(AddDays(due, 15)) else rows[i].segundaData
  {
    var r := DateEdit(rows, index, date, Vencimento, Parcelar, f);
    assert r[i] == DateEditRow(rows[i], i, index, date, Vencimento, Parcelar, f);
  }

  /** After an installment due-date edit, due dates strictly increase from row `index` on. */
  lemma {:induction false} DueDateCascadeIncreasing(rows: seq<Parcela>, index: nat, date: Date, f: Frequencia)
    requires index < |rows|
    ensures var r := DateEdit(rows, index, date, Vencimento, Parcelar, f);
      forall i, j :: index <= i < j < |r| ==>
        r[i].vencimento.Some? && r[j].vencimento.Some? && Before(r[i].vencimento.value, r[j].vencimento.value)
  {
    var r := DateEdit(rows, index, date, Vencimento, Parcelar, f);
    forall i, j | index <= i < j < |r|
      ensures r[i].vencimento.Some? && r[j].vencimento.Some? && Before(r[i].vencimento.value, r[j].vencimento.value)
    {
      DueDatePairIncreasing(rows, index, date, f, i, j);
    }
  }

  lemma {:induction false} DueDatePairIncreasing(rows: seq<Parcela>, index: nat, date: Date, f: Frequencia, i: nat, j: nat)
    requires index <= i < j < |rows|
    ensures var r := DateEdit(rows, index, date, Vencimento, Parcelar, f);
      r[i].vencimento.Some? && r[j].vencimento.Some? && Before(r[i].vencimento.value, r[j].vencimento.value)
  {
    CascadeDueDate(rows, index, date, f, i);
    CascadeDueDate(rows, index, date, f, j);
    StepIncreasing(date, i - index, j - index, f);
  }

  /** The due date alone of row `i` after an installment due-date edit. */
  lemma CascadeDueDate(rows: seq<Parcela>, index: nat, date: Date, f: Frequencia, i: nat)
    requires index <= i < |rows|
    ensures DateEdit(rows, index, date, Vencimento, Parcelar, f)[i].vencimento == Some(CalculateNextDate(date, i - index, f))
  {
    DueDateCascadeAt(rows, index, date, f, i);
  }

  /** Installment competence edit: every row from `index` on gets the very same date; due dates stay. */
  lemma CompetenceCascade(rows: seq<Parcela>, index: nat, date: Date, f: Frequencia)
    requires index < |rows|
    ensures var r := DateEdit(rows, index, date, Competencia, Parcelar, f);
      forall i :: index <= i < |r| ==>
        r[i].competencia == Some(date) && r[i].vencimento == rows[i].vencimento &&
        r[i].segundaData == rows[i].segundaData
  {
  }

  /**
   * Re-entering a freshly built installment's own due date re-steps the later
   * rows onto the dates the build gave them, provided stepping composes: for
   * the day-based frequencies always, for the month-based ones when the base
   * due date's day of month is at most 28.
   */
  lemma {:induction false} CascadeAgreesWithBuild(inp: ScheduleInputs, today: Date, index: nat)
    requires inp.recorrencia == Parcelar && inp.frequencia != Semanal && inp.dateVencimento.Some?
    requires StepsByDays(inp.frequencia) || inp.dateVencimento.value.day <= 28
    requires index < inp.parcelas
    ensures var rows := BuildSchedule(inp, today);
      var date := CalculateNextDate(inp.dateVencimento.value, index, inp.frequencia);
      var r := DateEdit(rows, index, date, Vencimento, Parcelar, inp.frequencia);
      rows[index].vencimento == Some(date) &&
      forall i :: 0 <= i < |r| ==> r[i].vencimento == rows[i].vencimento
  {
    var rows := BuildSchedule(inp, today);
    var base, f := inp.dateVencimento.value, inp.frequencia;
    InstallmentDates(inp, today);
    var date := CalculateNextDate(base, index, f);
    var r := DateEdit(rows, index, date, Vencimento, Parcelar, f);
    forall i | 0 <= i < index
      ensures r[i].vencimento == rows[i].vencimento
    {
      assert r[i] == DateEditRow(rows[i], i, index, date, Vencimento, Parcelar, f);
    }
    forall i | index <= i < |r|
      ensures r[i].vencimento == rows[i].vencimento
    {
      CascadeRowAgrees(rows, base, f, index, i);
    }
  }

  /** One row of `CascadeAgreesWithBuild`, for any rows due `k` steps after `base` in row `k`. */
  lemma {:induction false} CascadeRowAgrees(rows: seq<Parcela>, base: Date, f: Frequencia, index: nat, i: nat)
    requires forall k :: 0 <= k < |rows| ==> rows[k].vencimento == Some(CalculateNextDate(base, k, f))
    requires StepsByDays(f) || base.day <= 28
    requires index <= i < |rows|
    ensures DateEdit(rows, index, CalculateNextDate(base, index, f), Vencimento, Parcelar, f)[i].vencimento
            == rows[i].vencimento
  {
    var date := CalculateNextDate(base, index, f);
    DueDateCascadeAt(rows, index, date, f, i);
    StepComposes(base, index, i - index, f);
    assert index + (i - index) == i;
  }

  /**
   * At a month end the cascade and the build disagree: three monthly
   * installments due from 31 January 2024 are due 31 January, 29 February and
   * 31 March; re-entering 29 February on the second row moves the third to 29 March.
   */
  lemma CascadeDivergesAtMonthEnd(inp: ScheduleInputs, today: Date)
    requires inp.recorrencia == Parcelar && inp.frequencia == Mensal && inp.parcelas == 3
    requires inp.dateVencimento == Some(CivilDate(2024, 1, 31))
    ensures var rows := BuildSchedule(inp, today);
      var r := DateEdit(rows, 1, CivilDate(2024, 2, 29), Vencimento, Parcelar, Mensal);
      rows[1].vencimento == Some(CivilDate(2024, 2, 29)) &&
      rows[2].vencimento == Some(CivilDate(2024, 3, 31)) &&
      r[2].vencimento == Some(CivilDate(2024, 3, 29))
  {
    var rows := BuildSchedule(inp, today);
    ParcelarRows(inp, today);
    AddMonthsNotAdditiveAtMonthEnd();
  }
}
