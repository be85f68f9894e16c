/**
 * The state of the transaction dialog that the scheduling engine works on, and
 * its handlers as methods. Each React state variable is a field; the preview
 * rows are an array whose rows the edit handlers overwrite in place. The two
 * effects (deriving the net amount, rebuilding the preview) are methods the
 * caller invokes explicitly.
 */
module Dialog {
  import opened Options
  import opened CivilDates
  import opened Money
  import opened Recurrence
  import opened Schedule
  import opened Cascade

  /** The money fields whose input goes through `handleValueChange`. */
  datatype MoneyField = ValorBruto | Desconto | Juros

  /** The message `handleSubmit` shows while the net amount is inconsistent. */
  const InconsistentNetMessage: string :=
    "O valor final não bate com o cálculo padrão. Verifique os valores inseridos."

  /** `reduce((sum, p) => sum + p.valor, 0)` over the first `n` rows of `rows`. */
  method SumAmounts(rows: array<Parcela>, n: nat) returns (total: int)
    requires n <= rows.Length
    ensures total == Total(rows[..n])
  {
    total := 0;
    var i := 0;
    while i < n
      invariant 0 <= i <= n
      invariant total == Total(rows[..i])
    {
      assert rows[..i + 1] == rows[..i] + [rows[i]];
      TotalAppend(rows[..i], [rows[i]]);
      TotalOne(rows[i]);
      total := total + rows[i].valor;
      i := i + 1;
    }
  }

  class TransactionDialog {
    var recorrencia: Recorrencia
    var frequencia: Frequencia
    var parcelas: nat
    var quantidadeRepeticoes: nat
    var valorBruto: int
    var desconto: int
    var juros: int
    var valorLiquido: int
    var dateVencimento: Option<Date>
    var dateCompetencia: Date
    var parcelasPreview: array<Parcela>
    var valorLiquidoInvalido: bool
    var errorMessage: Option<string>

    /** The preview rows. */
    function Rows(): seq<Parcela>
      reads this, parcelasPreview
    {
      parcelasPreview[..]
    }

    /** The state the preview is built from. */
    function Inputs(): ScheduleInputs
      reads this
    {
      ScheduleInputs(recorrencia, frequencia, parcelas, quantidadeRepeticoes,
                     valorBruto, juros, desconto, valorLiquido, dateVencimento, dateCompetencia)
    }

    /** The initial `useState` values; `today` stands for `new Date()`. */
    constructor (today: Date)
      ensures recorrencia == Unico && frequencia == Mensal
      ensures parcelas == 2 && quantidadeRepeticoes == 2
      ensures valorBruto == 0 && desconto == 0 && juros == 0 && valorLiquido == 0
      ensures dateVencimento == Some(today) && dateCompetencia == today
      ensures fresh(parcelasPreview) && Rows() == []
      ensures !valorLiquidoInvalido && errorMessage == None
    {
      recorrencia, frequencia := Unico, Mensal;
      parcelas, quantidadeRepeticoes := 2, 2;
      valorBruto, desconto, juros, valorLiquido := 0, 0, 0, 0;
      dateVencimento, dateCompetencia := Some(today), today;
      parcelasPreview := new Parcela[0];
      valorLiquidoInvalido, errorMessage := false, None;
    }

    /** `handleValueChange(setX)`: the field keeps the digits of the input as cents. */
    method ChangeMoneyField(field: MoneyField, input: string)
      modifies this`valorBruto, this`desconto, this`juros
      ensures valorBruto == if field == ValorBruto then Sanitize(input) else old(valorBruto)
      ensures desconto == if field == Desconto then Sanitize(input) else old(desconto)
      ensures juros == if field == Juros then Sanitize(input) else old(juros)
    {
      var numericValue := Sanitize(input);
      match field
      case ValorBruto => valorBruto := numericValue;
      case Desconto => desconto := numericValue;
      case Juros => juros := numericValue;
    }

    /**
     * The effect deriving the net amount: outside repetitions it is the
     * formula and the inconsistency flag is cleared; for repetitions it is the
     * sum of the rows and the flag is left alone.
     */
    method DeriveNet()
      modifies this`valorLiquido, this`valorLiquidoInvalido
      ensures recorrencia != Repetir ==>
        valorLiquido == Formula(valorBruto, juros, desconto) && !valorLiquidoInvalido
      ensures recorrencia == Repetir ==>
        valorLiquido == Total(Rows()) && valorLiquidoInvalido == old(valorLiquidoInvalido)
    {
      if recorrencia != Repetir {
        valorLiquido := Formula(valorBruto, juros, desconto);
        valorLiquidoInvalido := false;
      } else {
        var totalRepeticoes := SumAmounts(parcelasPreview, parcelasPreview.Length);
        assert parcelasPreview[..parcelasPreview.Length] == Rows();
        valorLiquido := totalRepeticoes;
      }
    }

    /**
     * The effect rebuilding the preview: fresh rows from the current inputs
     * alone, so every earlier row edit is discarded.
     */
    method Rebuild(today: Date)
      modifies this`parcelasPreview
      ensures fresh(parcelasPreview)
      ensures Rows() == BuildSchedule(Inputs(), today)
    {
      var rows := BuildSchedule(Inputs(), today);
      parcelasPreview := new Parcela[|rows|](i requires 0 <= i < |rows| => rows[i]);
      assert parcelasPreview[..] == rows;
    }

    /** `handleValorLiquidoChange`: the typed net is kept and flagged iff it differs from the formula. */
    method ChangeNet(input: string)
      modifies this`valorLiquido, this`valorLiquidoInvalido
      ensures valorLiquido == Sanitize(input)
      ensures valorLiquidoInvalido <==> valorLiquido != Formula(valorBruto, juros, desconto)
    {
      var numericValue := Sanitize(input);
      var valorCalculado := Formula(valorBruto, juros, desconto);
      valorLiquidoInvalido := numericValue != valorCalculado;
      valorLiquido := numericValue;
    }

    /**
     * `handleParcelaChange`: row `index` takes `newValue`; installments
     * redistribute what is left of the net amount over the later rows;
     * repetitions make the net amount the sum of the rows.
     */
    method ChangeRowAmount(index: nat, newValue: int)
      requires index < parcelasPreview.Length
      modifies parcelasPreview, this`valorLiquido
      ensures Rows() == AmountEdit(old(Rows()), index, newValue, recorrencia, old(valorLiquido))
      ensures valorLiquido == if recorrencia == Repetir then Total(Rows()) else old(valorLiquido)
    {
      var n := parcelasPreview.Length;
      ghost var expected := AmountEdit(parcelasPreview[..], index, newValue, recorrencia, valorLiquido);
      parcelasPreview[index] := parcelasPreview[index].(valor := newValue);
      if recorrencia == Parcelar {
        var totalAnterior := SumAmounts(parcelasPreview, index + 1);
        var valorRestante := valorLiquido - totalAnterior;
        var parcelasRestantes := n - (index + 1);
        if parcelasRestantes > 0 {
          var valorParcelaRestante := valorRestante / parcelasRestantes;
          var valorRestanteUltimaParcela := valorRestante - valorParcelaRestante * parcelasRestantes;
          var i := index + 1;
          while i < n
            invariant index + 1 <= i <= n
            invariant valorLiquido == old(valorLiquido)
            invariant forall j :: 0 <= j < i ==> parcelasPreview[j] == expected[j]
            invariant forall j :: i <= j < n ==> parcelasPreview[j] == old(parcelasPreview[j])
          {
            parcelasPreview[i] := parcelasPreview[i].(valor :=
              if i == n - 1 then valorParcelaRestante + valorRestanteUltimaParcela
              else valorParcelaRestante);
            i := i + 1;
          }
        }
      } else if recorrencia == Repetir {
        var totalRepeticoes := SumAmounts(parcelasPreview, n);
        assert parcelasPreview[..n] == parcelasPreview[..];
        valorLiquido := totalRepeticoes;
        assert valorLiquido == Total(Rows());
      }
      assert parcelasPreview[..] == expected;
    }

    /** `handleDayOfWeekChange`: only row `index`'s weekday changes. */
    method ChangeDayOfWeek(index: nat, newDayOfWeek: int)
      requires index < parcelasPreview.Length
      modifies parcelasPreview
      ensures Rows() == old(Rows())[index := old(Rows())[index].(dayOfWeek := Some(newDayOfWeek))]
    {
      parcelasPreview[index] := parcelasPreview[index].(dayOfWeek := Some(newDayOfWeek));
    }

    /**
     * `handleDateChange`: row `index` takes the date (and, for a quinzenal
     * due date, a second date 15 days on); in installment mode the later rows
     * are re-stepped (due date) or given the same date (competence).
     */
    method ChangeRowDate(index: nat, selectedDate: Date, field: DateField)
      requires index < parcelasPreview.Length
      modifies parcelasPreview
      ensures Rows() == DateEdit(old(Rows()), index, selectedDate, field, recorrencia, frequencia)
    {
      var n := parcelasPreview.Length;
      ghost var expected := DateEdit(parcelasPreview[..], index, selectedDate, field, recorrencia, frequencia);
      DateEditEditedRow(parcelasPreview[..], index, selectedDate, field, recorrencia, frequencia);
      parcelasPreview[index] := EditRowDate(parcelasPreview[index], field, selectedDate, frequencia);
      if recorrencia == Parcelar {
        var i := index + 1;
        while i < n
          invariant index + 1 <= i <= n
          invariant forall j :: 0 <= j < i ==> parcelasPreview[j] == expected[j]
          invariant forall j :: i <= j < n ==> parcelasPreview[j] == old(parcelasPreview[j])
        {
          DateEditLaterRows(old(parcelasPreview[..]), i, index, selectedDate, field, frequencia);
          if field == Vencimento {
            var increment := i - index;
            parcelasPreview[i] := EditRowDate(parcelasPreview[i], Vencimento, CalculateNextDate(selectedDate, increment, frequencia), frequencia);
          } else {
            parcelasPreview[i] := EditRowDate(parcelasPreview[i], Competencia, selectedDate, frequencia);
          }
          i := i + 1;
        }
      } else {
        DateEditOtherModes(old(parcelasPreview[..]), index, selectedDate, field, recorrencia, frequencia);
      }
      assert parcelasPreview[..] == expected;
    }

    /** `handleSubmit`: proceeds iff the net amount is consistent, otherwise shows the message. */
    method Submit() returns (proceeds: bool)
      modifies this`errorMessage
      ensures proceeds <==> !valorLiquidoInvalido
      ensures errorMessage == if valorLiquidoInvalido then Some(InconsistentNetMessage) else old(errorMessage)
    {
      proceeds := !valorLiquidoInvalido;
      if valorLiquidoInvalido {
        errorMessage := Some(InconsistentNetMessage);
      }
    }
  }

  /**
   * A single transaction of 1000 with 50 interest and 20 discount (whatever
   * text the fields hold that reads as those amounts, such as "R$ 10,00" for
   * 1000 cents): the net is derived as 1030; typing text that reads 1000 flags
   * it and blocks submission, typing text that reads 1030 clears the flag.
   */
  method NetReconciliationExample(today: Date, bruto: string, juros: string, desconto: string,
                                  typedLow: string, typedRight: string)
    returns (flaggedLow: bool, flaggedRight: bool, submitsLow: bool)
    requires Sanitize(bruto) == 1000 && Sanitize(juros) == 50 && Sanitize(desconto) == 20
    requires Sanitize(typedLow) == 1000 && Sanitize(typedRight) == 1030
    ensures flaggedLow && !flaggedRight && !submitsLow
  {
    var d := new TransactionDialog(today);
    d.ChangeMoneyField(ValorBruto, bruto);
    d.ChangeMoneyField(Juros, juros);
    d.ChangeMoneyField(Desconto, desconto);
    d.DeriveNet();
    assert d.valorLiquido == 1030;
    d.ChangeNet(typedLow);
    flaggedLow := d.valorLiquidoInvalido;
    submitsLow := d.Submit();
    d.ChangeNet(typedRight);
    flaggedRight := d.valorLiquidoInvalido;
  }

  /**
   * In repetition mode the displayed net is the sum of the rows, `count`
   * times the formula, while a typed net is compared with the formula of a
   * single row. Retyping the displayed value therefore raises the flag, the
   * net derivation that follows does not clear it (the rebuild effect only
   * replaces the rows), and submission stays blocked.
   */
  method RepetitionNetRetypeExample(today: Date, bruto: string, typed: string, count: nat)
    returns (displayed: int, flagged: bool, flaggedAfterEffects: bool, submits: bool)
    requires count >= 2 && Sanitize(bruto) > 0
    requires Sanitize(typed) == count * Sanitize(bruto)
    ensures displayed == count * Sanitize(bruto)
    ensures flagged && flaggedAfterEffects && !submits
  {
    var v := Sanitize(bruto);
    RepeatedAmountDiffers(count, v);
    var d := new TransactionDialog(today);
    d.recorrencia, d.quantidadeRepeticoes := Repetir, count;
    d.ChangeMoneyField(ValorBruto, bruto);
    assert Formula(d.valorBruto, d.juros, d.desconto) == v;
    d.Rebuild(today);
    RepetitionTotal(d.Inputs(), today);
    assert Total(d.Rows()) == count * v;
    d.DeriveNet();
    displayed := d.valorLiquido;
    d.ChangeNet(typed);
    flagged := d.valorLiquidoInvalido;
    d.DeriveNet();
    flaggedAfterEffects := d.valorLiquidoInvalido;
    submits := d.Submit();
  }

  /** The repetition rows add up to the count times the formula amount. */
  lemma RepetitionTotal(inp: ScheduleInputs, today: Date)
    requires inp.recorrencia == Repetir && inp.dateVencimento.Some?
    ensures Total(BuildSchedule(inp, today)) == inp.quantidadeRepeticoes * Formula(inp.valorBruto, inp.juros, inp.desconto)
  {
    RepetitionAmounts(inp, today);
  }

  /** Two or more rows of a positive amount add up to more than one row. */
  lemma RepeatedAmountDiffers(count: nat, v: int)
    requires count >= 2 && v > 0
    ensures count * v > v
  {
    assert count * v == v + (count - 1) * v;
  }
}
