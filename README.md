# Installment and recurrence scheduling of the transaction dialog

This project models the scheduling engine inside the transaction-creation
dialog `AddTransactionDialog.tsx`. It proves properties of that model.

Given the following inputs, the dialog builds a preview of rows (`Parcela`):

- a gross amount (`valorBruto`), interest (`juros`) and discount (`desconto`);
- a net amount (`valorLiquido`);
- a base due date (`dateVencimento`) and a base competence date (`dateCompetencia`);
- a recurrence mode (`unico`, `parcelar`, `repetir`);
- a frequency (`semanal`, `quinzenal`, `mensal`, `bimestral`, `trimestral`, `anual`);
- a row count (`parcelas` or `quantidadeRepeticoes`).

A single transaction has no rows. Installments split the net amount: each row gets the floor of the share, and the remainder goes on the last row. Repetitions carry the full formula amount in every row. The user can then edit one row:

- An amount edit in installment mode spreads what is left of the net amount over the later rows.
- A due-date edit in installment mode re-steps the later rows from the new date.
- A competence-date edit in installment mode copies the same date to the later rows.

The net amount is derived from `valorBruto + juros - desconto`, or from the sum of the rows when repeating. A typed net amount that differs from the formula raises an inconsistency flag, and that flag blocks submission. Outside repeating mode, the effects that follow a typed net reset it to the formula and clear the flag again before any submission (see "## Left out").

## Structure

- `options.dfy` (`Options`): the `Option` type. It stands for TypeScript's optional fields.
- `civil_date.dfy` (`CivilDates`): proleptic Gregorian calendar dates and the four date-arithmetic operations the dialog imports from date-fns (`format` is used only for display).
  - `addDays` works by iterating the next day. A day number (days since 1 January of year 0) counts the days moved.
  - `addMonths` clamps the day to the month's length.
  - `addWeeks` is 7 days a step; `addYears` is 12 months a step.
- `money.dfy` (`Money`): the items below, with money as integer cents.
  - the `reduce` sum;
  - the floor split with the remainder on the last part;
  - the money-field sanitiser `Number(text.replace(/\D/g, ''))`.
- `recurrence.dfy` (`Recurrence`): `RecorrenciaType`, `FrequenciaType` and `calculateNextDate`.
- `schedule.dfy` (`Schedule`): `Parcela` and `calcularParcelasOuRepeticoes`, as a pure function of the dialog state.
- `cascade.dfy` (`Cascade`): what `handleParcelaChange` and `handleDateChange` do to the rows, as functions on sequences.
- `dialog.dfy` (`Dialog`): the dialog state as the class `TransactionDialog`.
  - Each state variable is a field, and the preview is an `array<Parcela>` that the edit handlers overwrite in place.
  - Each handler and effect is a method.
  - Each method is proved to leave exactly the state that the functions of `Schedule` and `Cascade` describe.

## Model

| member | source | states |
|---|---|---|
| CivilDates.NextDay | app/transactions/_components/AddTransactionDialog.tsx:13 | The next calendar day is strictly later. It is the same month one day on, or, only from the month's last day, the 1st of the following month. |
| CivilDates.AddDays | app/transactions/_components/AddTransactionDialog.tsx:13 | `addDays` by n ≥ 0 days leaves the date unchanged iff n = 0, and otherwise gives a strictly later date. |
| CivilDates.AddMonths | app/transactions/_components/AddTransactionDialog.tsx:13 | `addMonths` by k moves the month index by exactly k. It keeps the day of month unless that day does not exist, in which case it gives the month's last day. |
| CivilDates.AddWeeks | app/transactions/_components/AddTransactionDialog.tsx:13 | `addWeeks` by k > 0 gives a strictly later date. |
| CivilDates.AddYears | app/transactions/_components/AddTransactionDialog.tsx:13 | `addYears` by k keeps the month, moves the year by k and keeps the day of month, except that a day missing in the target year (29 February) becomes that month's last day. |
| CivilDates.DayNumberOrder | app/transactions/_components/AddTransactionDialog.tsx:13 | Day numbers order dates exactly as the calendar does (both directions), so the day counts stated for `addDays` and `addWeeks` determine the result date. |
| CivilDates.NextDayCount | app/transactions/_components/AddTransactionDialog.tsx:13 | The next day is exactly one day number on. |
| CivilDates.AddDaysCount | app/transactions/_components/AddTransactionDialog.tsx:13 | `addDays(d, n)` is exactly n day numbers after d. |
| CivilDates.AddWeeksCount | app/transactions/_components/AddTransactionDialog.tsx:13 | `addWeeks(d, k)` is exactly 7·k day numbers after d. |
| CivilDates.AddDaysAdditive | app/transactions/_components/AddTransactionDialog.tsx:13 | Adding a days and then b days is adding a + b days. |
| CivilDates.AddDaysIncreasing | app/transactions/_components/AddTransactionDialog.tsx:13 | Adding more days gives a strictly later date. |
| CivilDates.AddMonthsAdditive | app/transactions/_components/AddTransactionDialog.tsx:13 | When the day of month is at most 28, adding a months and then b months is adding a + b months. |
| CivilDates.AddMonthsIncreasing | app/transactions/_components/AddTransactionDialog.tsx:13 | Adding more months gives a strictly later date. |
| CivilDates.AddMonthsClampsToLeapFebruary | app/transactions/_components/AddTransactionDialog.tsx:13 | 31 January 2024 plus one month is 29 February 2024. |
| CivilDates.AddMonthsNotAdditiveAtMonthEnd | app/transactions/_components/AddTransactionDialog.tsx:13 | At a month end, adding months in two steps differs from adding them at once: one route gives 29 March and the other 31 March. |
| Money.SumAppend | app/transactions/_components/AddTransactionDialog.tsx:680 | The `reduce` sum of a concatenation is the sum of the two sums. |
| Money.SumConstant | app/transactions/_components/AddTransactionDialog.tsx:680 | k equal amounts x sum to k·x. |
| Money.Split | app/transactions/_components/AddTransactionDialog.tsx:701-705 | The split into n parts has n parts. Every part but the last is floor(total / n), and the last exceeds the others by less than n. |
| Money.SplitSum | app/transactions/_components/AddTransactionDialog.tsx:701-705 | For n ≥ 1 the parts add up to the total exactly, whatever the total's sign and whether or not n divides it. |
| Money.SplitThousandInThree | app/transactions/_components/AddTransactionDialog.tsx:701-705 | 1000 split in three is 333, 333, 334. |
| Money.KeepDigits | app/transactions/_components/AddTransactionDialog.tsx:665 | `replace(/\D/g, '')` keeps only digits and never lengthens the text. |
| Money.Sanitize | app/transactions/_components/AddTransactionDialog.tsx:665-666 | Text without any digit reads as 0. |
| Money.NoDigitsKeepsNothing | app/transactions/_components/AddTransactionDialog.tsx:665 | Removing the non-digits from a text without any digit leaves nothing. |
| Money.KeepDigitsAppend | app/transactions/_components/AddTransactionDialog.tsx:665 | Removing the non-digits works piecewise over a concatenation. |
| Money.KeepDigitsOfDigits | app/transactions/_components/AddTransactionDialog.tsx:665 | A text made of digits is left as it is. |
| Money.KeepDigitsIdempotent | app/transactions/_components/AddTransactionDialog.tsx:665 | Removing non-digits twice is removing them once. |
| Money.DigitsSanitize | app/transactions/_components/AddTransactionDialog.tsx:665-666 | A text made only of digits reads as its decimal value. |
| Money.SanitizeIgnoresNonDigit | app/transactions/_components/AddTransactionDialog.tsx:665-666 | Inserting a character that is not a digit (a currency sign, a separator) does not change the amount read. |
| Money.SanitizeDecimal | app/transactions/_components/AddTransactionDialog.tsx:665-666 | Reading back the decimal digits of an amount gives the amount (round trip). |
| Recurrence.CalculateNextDate | app/transactions/_components/AddTransactionDialog.tsx:91-112 | Increment 0 gives the start date, and any positive increment a strictly later date. Semanal and quinzenal move by 7 and 15 days a step. Mensal, bimestral, trimestral and anual move the month index by 1, 2, 3 and 12 a step. |
| Recurrence.StepByMonths | app/transactions/_components/AddTransactionDialog.tsx:101-108 | A month-based step is `addMonths` by the increment times the step's months, including `addYears` as 12 months. |
| Recurrence.StepIncreasing | app/transactions/_components/AddTransactionDialog.tsx:91-112 | A larger increment gives a strictly later date, for every frequency. |
| Recurrence.StepComposes | app/transactions/_components/AddTransactionDialog.tsx:91-112 | Stepping a times and then b times is stepping a + b times. This holds for the day-based frequencies always, and for the month-based ones when the day of month is at most 28. |
| Recurrence.DayStepsCompose | app/transactions/_components/AddTransactionDialog.tsx:97-100 | Weekly and quinzenal steps compose additively. |
| Recurrence.MonthStepsCompose | app/transactions/_components/AddTransactionDialog.tsx:101-108 | Month-based steps from a day of month at most 28 compose additively. |
| Recurrence.MonthlyStepClamps | app/transactions/_components/AddTransactionDialog.tsx:101-102 | One monthly step from 31 January 2024 lands on 29 February 2024. |
| Schedule.BuildSchedule | app/transactions/_components/AddTransactionDialog.tsx:689-753 | With no base due date, or in unico mode, there are no rows. Parcelar gives `parcelas` rows and repetir gives `quantidadeRepeticoes` rows. |
| Schedule.InstallmentsSplitNet | app/transactions/_components/AddTransactionDialog.tsx:693-719 | The installment amounts are exactly the floor split of `valorLiquido`, so they add up to it. |
| Schedule.InstallmentDates | app/transactions/_components/AddTransactionDialog.tsx:700-719 | Every installment row has competence date today and no second date. Weekly rows have no due date and weekday Monday. Other rows are due i steps after the base due date, so due dates strictly increase. |
| Schedule.RepetitionAmounts | app/transactions/_components/AddTransactionDialog.tsx:693-694 | Every repetition row carries the whole formula amount with no split, so the rows sum to the count times that amount. |
| Schedule.RepetitionDates | app/transactions/_components/AddTransactionDialog.tsx:720-748 | Competence is stepped from the base competence date. Weekly rows have weekday Monday and no due date. Quinzenal rows are due every 2 calendar months, with a second date 15 days later. Other rows are due i steps after the base due date and carry no weekday. |
| Schedule.RepetitionDueDatesIncreasing | app/transactions/_components/AddTransactionDialog.tsx:720-748 | With a base due date and a non-weekly frequency, every repetition row has a due date, and they strictly increase, the quinzenal 2-month steps included. |
| Schedule.FourInstallmentsOfThousand | app/transactions/_components/AddTransactionDialog.tsx:700-719 | Four installments of a net 1000 are 250 each. |
| Cascade.RedistributeFrame | app/transactions/_components/AddTransactionDialog.tsx:794-812 | An installment amount edit keeps the row count and every date and weekday. Rows before the edited one are unchanged, and the edited row holds the new amount. |
| Cascade.RedistributeKeepsNet | app/transactions/_components/AddTransactionDialog.tsx:798-812 | When later rows exist, they receive the floor split of what remains of the net amount after the edited prefix, so the rows again sum to `valorLiquido`. |
| Cascade.RedistributeLastRow | app/transactions/_components/AddTransactionDialog.tsx:801-802 | Editing the last installment changes that row only. The rows sum to the net amount iff the new value is exactly what the earlier rows leave. |
| Cascade.SetValorSingleRow | app/transactions/_components/AddTransactionDialog.tsx:794-797 | Outside installment mode, an amount edit changes that row's amount alone, and the sum moves by exactly the row's change. |
| Cascade.RedistributeExample | app/transactions/_components/AddTransactionDialog.tsx:798-812 | Rows 250 ×4 of 1000 with row 0 set to 400 become 400, 200, 200, 200. |
| Cascade.DateEditFrame | app/transactions/_components/AddTransactionDialog.tsx:829-858 | A date edit keeps the row count, amounts, sum and weekdays, and every row before the edited one. In every mode the edited row takes the date in the edited column and keeps the other column. A quinzenal due date also sets its second date 15 days later; any other edit keeps its second date. Outside installment mode no other row changes. |
| Cascade.DueDateCascadeAt | app/transactions/_components/AddTransactionDialog.tsx:838-846 | After an installment due-date edit, row i ≥ index is due i − index steps after the new date. When quinzenal its second date is 15 days after that, and otherwise the second date is kept. Its competence is kept. |
| Cascade.DueDatePairIncreasing | app/transactions/_components/AddTransactionDialog.tsx:838-846 | After an installment due-date edit, of two rows from the edited one on, the later row is due strictly later. |
| Cascade.DueDateCascadeIncreasing | app/transactions/_components/AddTransactionDialog.tsx:838-846 | After an installment due-date edit, due dates strictly increase from the edited row on. |
| Cascade.CompetenceCascade | app/transactions/_components/AddTransactionDialog.tsx:847-852 | After an installment competence edit, every row from the edited one on has the very same date, and due dates and second dates are kept. |
| Cascade.CascadeRowAgrees | app/transactions/_components/AddTransactionDialog.tsx:838-846 | Re-entering the due date a row already has, on rows stepped from one base, leaves a later row's due date where it was (when stepping composes). |
| Cascade.CascadeAgreesWithBuild | app/transactions/_components/AddTransactionDialog.tsx:838-846 | On a freshly built installment plan, re-entering a row's own due date reproduces the built due dates. This holds for day-based frequencies, and for month-based ones whose base day is at most 28. |
| Cascade.CascadeDivergesAtMonthEnd | app/transactions/_components/AddTransactionDialog.tsx:838-846 | Monthly from 31 January 2024, the build is due 31 Jan, 29 Feb and 31 Mar, but re-entering 29 Feb on row 1 moves row 2 to 29 Mar. |
| Dialog.SumAmounts | app/transactions/_components/AddTransactionDialog.tsx:799 | The loop over the first n rows computes the sum of their amounts. |
| Dialog.TransactionDialog.constructor | app/transactions/_components/AddTransactionDialog.tsx:603-618 | The initial state: unico, mensal, 2 and 2, all amounts 0, both dates today, no rows, flag clear, no message. |
| Dialog.TransactionDialog.ChangeMoneyField | app/transactions/_components/AddTransactionDialog.tsx:662-668 | The chosen field takes the digits of the input as cents, and the other two fields are unchanged. |
| Dialog.TransactionDialog.DeriveNet | app/transactions/_components/AddTransactionDialog.tsx:674-683 | Outside repetir the net is the formula and the flag is cleared. In repetir the net is the sum of the rows and the flag is left alone. |
| Dialog.TransactionDialog.Rebuild | app/transactions/_components/AddTransactionDialog.tsx:767-769 | The preview is a fresh array holding exactly the build from the current inputs, so earlier row edits are discarded. |
| Dialog.TransactionDialog.ChangeNet | app/transactions/_components/AddTransactionDialog.tsx:785-791 | The net becomes the amount typed. The flag is set iff that amount differs from the formula. |
| Dialog.TransactionDialog.ChangeRowAmount | app/transactions/_components/AddTransactionDialog.tsx:794-819 | The rows become the amount edit of the old rows against the old net. In repetir the net becomes the sum of the new rows; otherwise it is unchanged. |
| Dialog.TransactionDialog.ChangeDayOfWeek | app/transactions/_components/AddTransactionDialog.tsx:821-827 | Only the edited row's weekday changes. |
| Dialog.TransactionDialog.ChangeRowDate | app/transactions/_components/AddTransactionDialog.tsx:829-858 | The rows become the date edit of the old rows, for the current mode and frequency. |
| Dialog.TransactionDialog.Submit | app/transactions/_components/AddTransactionDialog.tsx:866-873 | Submission proceeds iff the flag is clear. While the flag is set, the message is shown; otherwise the message is unchanged. |
| Dialog.NetReconciliationExample | app/transactions/_components/AddTransactionDialog.tsx:785-791 | The example runs as follows. With gross 1000, interest 50 and discount 20, the derived net is 1030. Typing 1000 sets the flag and blocks submission, and typing 1030 clears it. |
| Dialog.RepetitionNetRetypeExample | app/transactions/_components/AddTransactionDialog.tsx:785-791 | In repetir with at least 2 rows and a positive formula, the displayed net is the count times the formula. Retyping that very value sets the flag, since the handler compares it with the formula of one row. The net effect then leaves the flag set, so submission is blocked. |

## Where the code and the design description differ

The model follows the code in each case below.

- The design says installment rows keep the base due date as their competence date. The code gives every installment row `new Date()` (here `today`), as `InstallmentDates` states.
- The design says installments split `gross + interest − discount`. The code splits `valorLiquido`, which the user may have typed (`InstallmentsSplitNet`).
- The design says the inconsistency flag is never set in repeating mode. The net input and its handler exist in every mode, so `ChangeNet` sets the flag there too. The net effect does not clear it in repeating mode either (`DeriveNet`). With 2 or more rows, retyping the net that is shown sets the flag. The handler compares the typed amount with the formula of one row (:788-789), while the shown net is the sum of all rows (:680-681). Submission then stays blocked (`RepetitionNetRetypeExample`).
- The design says the installment rows always sum to the net amount. Editing the last installment has no later rows to absorb the change, so the sum breaks unless the new value is exactly the remainder (`RedistributeLastRow`).
- After a due-date cascade, the later rows are stepped from the edited row's date. From a day of month above 28 this can differ from the dates the build gives (`CascadeDivergesAtMonthEnd`). Otherwise it reproduces them (`CascadeAgreesWithBuild`).

## Left out

- The JSX rendering, the combo boxes, the file input, `formatCurrency`, `showAllParcelas` (reset by the rebuild effect), the description and the other form fields: these are presentation only.
- `new Date()` is the parameter `today`. Dates carry no time of day and no time zone.
- `console.log` on a valid submission, and navigation: these are I/O. `Submit` returns whether submission proceeds.
- React's scheduling of the two effects: the caller invokes `DeriveNet` and `Rebuild` explicitly. Which state changes trigger them, and in what order, is not modelled. This has a visible consequence. The rebuild effect depends on `valorLiquido` (:781), and the net effect depends on `parcelasPreview` (:683). So outside repeating mode, a net typed with `ChangeNet` is reset to the formula, and its flag cleared, in the next effect pass (`Rebuild` then `DeriveNet`), before any submission. In repeating mode the flag stays set. `NetReconciliationExample` therefore describes the handlers one at a time, without the effect pass between them. In repeating mode a row amount edit also calls `setValorLiquido` (:815), which triggers the rebuild (:781, :768). The rebuild derives every row from the formula again (:694), so the edit is undone, and the next net derivation gives the count times the formula. `SetValorSingleRow` and `ChangeRowAmount` describe the handler alone, before that effect pass.
- `ChangeDayOfWeek` models `handleDayOfWeekChange`. The dialog passes that handler to the installment and repetition forms (:1087, :1104), but neither form uses it (:226-237, :362-373), so no user action reaches it.
- The plain setters (`setRecorrencia`, `setFrequencia`, `setParcelas`, `setDateVencimento`, ...) are direct field assignments.
- The `1..100` choice of `parcelas` in the selector (:272-276) is not a precondition. The build accepts any count, and 0 gives no rows.
- `ChangeRowAmount`: the row input is `parseFloat` of its digits. An empty input gives `NaN`, and the model takes the new amount as an integer.
- `Sanitize`: does not model that JavaScript's `Number` loses precision above 2^53. The model reads the digits exactly.
- `ChangeRowDate`: takes a date. The row date pickers pass `date!` (:311, :317, :446, :452), but `onSelect` is typed `Date | undefined` (:119). The case where the user clears a picked date is not modelled. In that case the source stores `undefined` in the row, and an installment due-date cascade fills the later rows with an invalid date.
- `dateCompetencia` is always a date; an unset base competence date is not modelled.
- The row objects are shared between the old and the new preview array, because `[...prev]` is a shallow copy. The model has its own array, so this aliasing is not modelled.
- `CalculateNextDate`: increments are natural numbers, since every caller in the dialog passes a non-negative one. The unreachable `default` branch is absent because the frequency type is closed.
- `app/api`, the data models and the category and transaction tables are not part of this model.
