/**
 * The preview rows (`Parcela`) and `calcularParcelasOuRepeticoes`, which builds
 * them from the dialog's inputs: nothing for a single transaction, the net
 * amount split into installments, or the full amount repeated.
 */
module Schedule {
  import opened Options
  import opened CivilDates
  import opened Money
  import opened Recurrence

  /** One preview row: its amount in cents and the optional dates and weekday. */
  datatype Parcela = Parcela(
    valor: int,
    vencimento: Option<Date>,
    competencia: Option<Date>,
    segundaData: Option<Date>,
    dayOfWeek: Option<int>)

  /** The dialog state the schedule is built from. */
  datatype ScheduleInputs = ScheduleInputs(
    recorrencia: Recorrencia,
    frequencia: Frequencia,
    parcelas: nat,
    quantidadeRepeticoes: nat,
    valorBruto: int,
    juros: int,
    desconto: int,
    valorLiquido: int,
    dateVencimento: Option<Date>,
    dateCompetencia: Date)

  /** Monday, the weekday every weekly row starts with. */
  const Monday := 1

  /** `valorBruto + juros - desconto`, the net amount the formula gives. */
  function Formula(valorBruto: int, juros: int, desconto: int): int {
    valorBruto + juros - desconto
  }

  function Amounts(rows: seq<Parcela>): (r: seq<int>)
    ensures |r| == |rows| && forall i :: 0 <= i < |rows| ==> r[i] == rows[i].valor
  {
    seq(|rows|, i requires 0 <= i < |rows| => rows[i].valor)
  }

  /** The sum of the row amounts. */
  function Total(rows: seq<Parcela>): int {
    Sum(Amounts(rows))
  }

  /** Row `i` of an installment plan over `baseValor` (the `parcelar` branch). */
  function ParcelarRow(inp: ScheduleInputs, vencimentoBase: Date, baseValor: int, today: Date, i: nat): Parcela
    requires i < inp.parcelas
  {
    var valorFinal := ShareAt(baseValor, inp.parcelas, i);
    if inp.frequencia == Semanal then
      Parcela(valorFinal, None, Some(today), None, Some(Monday))
    else
      Parcela(valorFinal, Some(CalculateNextDate(vencimentoBase, i, inp.frequencia)), Some(today), None, None)
  }

  /** Row `i` of a repetition (the `repetir` branch). */
  function RepetirRow(inp: ScheduleInputs, vencimentoBase: Date, baseValor: int, i: nat): Parcela {
    var competencia := CalculateNextDate(inp.dateCompetencia, i, inp.frequencia);
    if inp.frequencia == Semanal then
      Parcela(baseValor, None, Some(competencia), None, Some(Monday))
    else if inp.frequencia == Quinzenal then
      var vencimento := CalculateNextDate(vencimentoBase, i * 2, Mensal);
      Parcela(baseValor, Some(vencimento), Some(competencia), Some(AddDays(vencimento, 15)), None)
    else
      Parcela(baseValor, Some(CalculateNextDate(vencimentoBase, i, inp.frequencia)), Some(competencia), None, None)
  }

  /**
   * `calcularParcelasOuRepeticoes`. `today` stands for the `new Date()` that
   * installments take as their competence date. Installments split the net
   * amount as it stands (`valorLiquido`, possibly typed by the user);
   * repetitions carry the formula amount each.
   */
  function BuildSchedule(inp: ScheduleInputs, today: Date): (r: seq<Parcela>)
    ensures inp.dateVencimento.None? || inp.recorrencia == Unico ==> r == []
    ensures inp.dateVencimento.Some? && inp.recorrencia == Parcelar ==> |r| == inp.parcelas
    ensures inp.dateVencimento.Some? && inp.recorrencia == Repetir ==> |r| == inp.quantidadeRepeticoes
  {
    match inp.dateVencimento
    case None => []
    case Some(vencimentoBase) =>
      var baseValor :=
        if inp.recorrencia == Repetir then Formula(inp.valorBruto, inp.juros, inp.desconto)
        else inp.valorLiquido;
      match inp.recorrencia
      case Unico => []
      case Parcelar =>
        seq(inp.parcelas, i requires 0 <= i < inp.parcelas => ParcelarRow(inp, vencimentoBase, baseValor, today, i))
      case Repetir =>
        seq(inp.quantidadeRepeticoes, i requires 0 <= i < inp.quantidadeRepeticoes => RepetirRow(inp, vencimentoBase, baseValor, i))
  }

  lemma ParcelarRows(inp: ScheduleInputs, today: Date)
    requires inp.recorrencia == Parcelar && inp.dateVencimento.Some?
    ensures var r := BuildSchedule(inp, today);
      forall i :: 0 <= i < |r| ==> r[i] == ParcelarRow(inp, inp.dateVencimento.value, inp.valorLiquido, today, i)
  {
  }

  lemma RepetirRows(inp: ScheduleInputs, today: Date)
    requires inp.recorrencia == Repetir && inp.dateVencimento.Some?
    ensures var r := BuildSchedule(inp, today);
      forall i :: 0 <= i < |r| ==>
        r[i] == RepetirRow(inp, inp.dateVencimento.value, Formula(inp.valorBruto, inp.juros, inp.desconto), i)
  {
  }

  /**
   * Installment amounts: the net amount split by floor division, remainder on
   * the last row, so they add up to `valorLiquido` exactly, negative amounts
   * included.
   */
  lemma InstallmentsSplitNet(inp: ScheduleInputs, today: Date)
    requires inp.recorrencia == Parcelar && inp.dateVencimento.Some? && inp.parcelas >= 1
    ensures Amounts(BuildSchedule(inp, today)) == Split(inp.valorLiquido, inp.parcelas)
    ensures Total(BuildSchedule(inp, today)) == inp.valorLiquido
  {
    var r := BuildSchedule(inp, today);
    ParcelarRows(inp, today);
    assert Amounts(r) == Split(inp.valorLiquido, inp.parcelas);
    SplitSum(inp.valorLiquido, inp.parcelas);
  }

  /**
   * Installment dates: every row's competence date is the same `today`;
   * weekly rows have no due date and weekday Monday; otherwise row `i` is due
   * `i` steps after the base due date, so due dates strictly increase.
   */
  lemma InstallmentDates(inp: ScheduleInputs, today: Date)
    requires inp.recorrencia == Parcelar && inp.dateVencimento.Some?
    ensures var r := BuildSchedule(inp, today);
      forall i :: 0 <= i < |r| ==>
        r[i].competencia == Some(today) && r[i].segundaData == None &&
        (inp.frequencia == Semanal ==> r[i].vencimento == None && r[i].dayOfWeek == Some(Monday)) &&
        (inp.frequencia != Semanal ==>
           r[i].vencimento == Some(CalculateNextDate(inp.dateVencimento.value, i, inp.frequencia)) &&
           r[i].dayOfWeek == None)
    ensures var r := BuildSchedule(inp, today);
      inp.frequencia != Semanal ==>
        forall i, j :: 0 <= i < j < |r| ==> Before(r[i].vencimento.value, r[j].vencimento.value)
  {
    var r := BuildSchedule(inp, today);
    ParcelarRows(inp, today);
    if inp.frequencia != Semanal {
      forall i, j | 0 <= i < j < |r|
        ensures Before(r[i].vencimento.value, r[j].vencimento.value)
      {
        StepIncreasing(inp.dateVencimento.value, i, j, inp.frequencia);
      }
    }
  }

  /**
   * Repetition amounts: every row carries the whole formula amount (no split),
   * so the rows add up to that amount times the number of repetitions.
   */
  lemma RepetitionAmounts(inp: ScheduleInputs, today: Date)
    requires inp.recorrencia == Repetir && inp.dateVencimento.Some?
    ensures var r := BuildSchedule(inp, today);
      var v := Formula(inp.valorBruto, inp.juros, inp.desconto);
      Total(r) == inp.quantidadeRepeticoes * v && forall i :: 0 <= i < |r| ==> r[i].valor == v
  {
    var r := BuildSchedule(inp, today);
    var v := Formula(inp.valorBruto, inp.juros, inp.desconto);
    RepetirRows(inp, today);
    assert Amounts(r) == seq(inp.quantidadeRepeticoes, _ => v);
    SumConstant(v, inp.quantidadeRepeticoes);
  }

  /**
   * Repetition dates: competence is stepped from the base competence date;
   * weekly rows carry weekday Monday and no due date; quinzenal rows are due
   * every two calendar months with a second date 15 days later; the other
   * rows are stepped from the base due date.
   */
  lemma RepetitionDates(inp: ScheduleInputs, today: Date)
    requires inp.recorrencia == Repetir && inp.dateVencimento.Some?
    ensures var r := BuildSchedule(inp, today);
      var base := inp.dateVencimento.value;
      forall i :: 0 <= i < |r| ==>
        r[i].competencia == Some(CalculateNextDate(inp.dateCompetencia, i, inp.frequencia)) &&
        (inp.frequencia == Semanal ==>
           r[i].vencimento == None && r[i].segundaData == None && r[i].dayOfWeek == Some(Monday)) &&
        (inp.frequencia == Quinzenal ==>
           r[i].vencimento == Some(AddMonths(base, 2 * i)) &&
           r[i].segundaData == Some(AddDays(AddMonths(base, 2 * i), 15))) &&
        (!StepsByDays(inp.frequencia) ==>
           r[i].vencimento == Some(CalculateNextDate(base, i, inp.frequencia)) && r[i].segundaData == None) &&
        (inp.frequencia != Semanal ==> r[i].dayOfWeek == None)
  {
    var r := BuildSchedule(inp, today);
    RepetirRows(inp, today);
    forall i | 0 <= i < |r| && inp.frequencia == Quinzenal
      ensures r[i].vencimento == Some(AddMonths(inp.dateVencimento.value, 2 * i))
    {
      StepByMonths(inp.dateVencimento.value, i * 2, Mensal);
      assert i * 2 * 1 == 2 * i;
    }
  }

  /**
   * Repetition due dates, where present, strictly increase from row to row,
   * on the quinzenal two-month path as on the stepped one.
   */
  lemma RepetitionDueDatesIncreasing(inp: ScheduleInputs, today: Date)
    requires inp.recorrencia == Repetir && inp.dateVencimento.Some? && inp.frequencia != Semanal
    ensures var r := BuildSchedule(inp, today);
      forall i, j :: 0 <= i < j < |r| ==>
        r[i].vencimento.Some? && r[j].vencimento.Some? && Before(r[i].vencimento.value, r[j].vencimento.value)
  {
    var r := BuildSchedule(inp, today);
    var base := inp.dateVencimento.value;
    RepetitionDates(inp, today);
    forall i, j | 0 <= i < j < |r|
      ensures r[i].vencimento.Some? && r[j].vencimento.Some? && Before(r[i].vencimento.value, r[j].vencimento.value)
    {
      if inp.frequencia == Quinzenal {
        AddMonthsIncreasing(base, 2 * i, 2 * j);
      } else {
        StepIncreasing(base, i, j, inp.frequencia);
      }
    }
  }

  /** The 1000-cent example: four installments of 250. */
  lemma FourInstallmentsOfThousand(inp: ScheduleInputs, today: Date)
    requires inp.recorrencia == Parcelar && inp.dateVencimento.Some?
    requires inp.parcelas == 4 && inp.valorLiquido == 1000
    ensures Amounts(BuildSchedule(inp, today)) == [250, 250, 250, 250]
  {
    InstallmentsSplitNet(inp, today);
  }
}
