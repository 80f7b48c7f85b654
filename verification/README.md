# Finanzas básicas: a verified model of the ledger

This project models the ledger behind a small personal-finance web page,
written in Dafny. The page keeps two lists: **movements** and **debts**.
A movement is a dated "ingreso" (income) or "egreso" (expense) entry with a
title, an optional description and an amount. A debt is money lent to
someone ("meDeben", they owe me) or borrowed from someone, together with what
remains to be paid.

Three operations change the lists:

- recording a movement;
- recording a debt, which also records the matching "Préstamo …" loan movement;
- paying part of a debt. This records an "Abono …" payment movement whose
  direction is the opposite of the loan's. The debt leaves the list once
  nothing positive remains.

Four views are computed from the lists:

- the balance;
- the per-title expense totals behind the pie chart;
- the search view, filtered by title text (ignoring case) and a minimum amount;
- the semicolon-separated text export.

The calendar's "has a movement that day" marker is modelled too.

Layout, one module per file:

- `text.dfy`: `Options` (an `Option` type) and `Text`. `Text` holds ASCII
  lower-casing, substring search, integer rendering and parsing, and
  splitting on a separator.
- `records.dfy`: `Records`, the movement and debt values and the movements
  that debts generate.
- `balance.dfy`: `Balances`, the balance and its income-minus-outflow identity.
- `chart.dfy`: `Chart`, the per-title expense totals.
- `filter.dfy`: `Filter`, the search view.
- `export.dfy`: `Export`, the export text and a reader for it. The reader is
  the export's inverse; the page itself has no import. With it the model
  states what the export preserves.
- `ledger.dfy`: `Ledger`. It holds the `Ledger` class, whose fields are the two
  lists and whose methods are the three mutations and the three loop-written
  views. It also holds the debt-list update and lemmas about repaying a debt
  in parts.

Amounts are integers. Dates, and the "today" used to date a payment, are
strings passed in as parameters. A stored ledger is passed to the constructor.

## Model

| member | source | states |
|---|---|---|
| `Ledger.Ledger.constructor` | app.js:1-4 | The ledger starts from the stored lists when there are any. Otherwise both lists start empty. |
| `Ledger.Ledger.AddMovement` | app.js:25-34 | Appends exactly one movement with the given date, type, title, description and amount at the end. Earlier movements and all debts are unchanged. |
| `Ledger.Ledger.AddDebt` | app.js:102-124 | Appends one debt whose remaining amount equals its amount. Appends exactly one loan movement for it. Nothing else changes. |
| `Ledger.Ledger.PayDebt` | app.js:140-156 | Out-of-range index: fails and changes nothing. Otherwise: appends exactly one payment movement of the paid value for that debt, and the debt list becomes `AfterPayment`. |
| `Ledger.AfterPayment` | app.js:142-154 | The paid debt's remaining amount drops by exactly the value. The debt is removed iff the new remaining amount is <= 0. Every other debt keeps its value and relative order. Overpayment is accepted and closes the debt. |
| `Ledger.RemoveAt` | app.js:154 | Removing one element shortens the list by one. Elements before it stay in place; elements after it shift down by one. |
| `Records.NewDebt` | app.js:103-111 | A new debt carries the form's fields, and its remaining amount equals its amount. |
| `Records.LoanMovement` | app.js:115-121 | The loan movement has the debt's date, description and amount. Its title is "Préstamo " followed by the debt title. It is an expense when the debt is owed to me and income otherwise. |
| `Records.PaymentMovement` | app.js:146-152 | The payment movement is dated today, has an empty description, carries the paid amount and is titled "Abono " plus the debt title. Its type is always the opposite of the loan movement's type. |
| `Ledger.Ledger.UpdateBalance` | app.js:17-23 | The loop's total equals `Balance` of the movements. |
| `Balances.BalanceIsIncomeMinusOutflow` | app.js:17-21 | The balance equals the sum of "ingreso" amounts minus the sum of the amounts of every other movement, whatever its type. |
| `Balances.BalanceConcat` | app.js:19-21 | The balance of two lists placed one after the other is the sum of their balances. |
| `Balances.BalanceAppend` | app.js:17-34 | Appending one movement shifts the balance by exactly its signed amount. |
| `Ledger.PaidInPartsClosesDebt` | app.js:140-154 | Paying an open debt in positive parts that sum to its remaining amount removes that debt (and only that one) at the last part. It records one movement per part. It moves the balance by the total paid: up for a debt owed to me, down otherwise. |
| `Ledger.LoanRepaidInFull` | app.js:102-156 | Recording a debt and then paying it in positive parts that sum to its amount leaves the debts and the balance as they were before the debt. |
| `Ledger.Ledger.ChartData` | app.js:73-77 | The chart's keys are exactly the titles of the "egreso" movements. Each key maps to the total of the "egreso" amounts with that title. Titles that name inherited object properties are the exception listed under "Left out". |
| `Chart.ExpenseByTitleAppend` | app.js:75-77 | A movement adds its amount to its own title's total, and only when it is an "egreso". Other types contribute nothing. |
| `Chart.ExpensesCountedOnce` | app.js:73-77 | Summed over the distinct titles, the chart totals equal the total of all "egreso" amounts, so each expense is counted exactly once. |
| `Filter.Filtered` | app.js:160-164 | The result is an order-preserving subsequence of the movements. Each of its movements matches: its lower-cased title contains the lower-cased query and its amount is at least the minimum. Each matching movement is kept as often as it occurs, and each other movement is dropped. |
| `Filter.MinAmount` | app.js:163 | An empty minimum-amount field means a minimum of 0. A filled one means the number it holds. |
| `Filter.EmptyQueryKeepsAmountsAtLeast` | app.js:162-163 | An empty query matches every title. So when every amount reaches the minimum that the minimum field stands for (0 when the field is empty), the list is unchanged. |
| `Text.Includes` | app.js:162 | The substring test holds iff the query occurs at some position of the title. The empty query occurs everywhere. |
| `Ledger.Ledger.ExportTxt` | app.js:90-94 | The loop's text equals `ExportText`: the header line, then one `date;title;desc;amount` line per movement, in order. |
| `Export.ExportRoundTrip` | app.js:90-94 | Reading the export back gives one record per movement, in order. Each record has the movement's date, title, description (empty when missing) and amount. This holds when no text field contains ';' or a line break. |
| `Export.ExportLineCount` | app.js:90-94 | When no field contains a line break, the export has exactly one line per movement plus the header line. |
| `Text.IntToStringRoundTrip` | app.js:93 | An amount written in the export reads back as the same integer. |
| `Ledger.HasMovementOn` | app.js:54 | The calendar marks a day iff some movement is dated that day. |

The `Ledger` class keeps one invariant, `Valid()`, on a ghost counter of
payments per open debt. It says that an open debt that has received a payment
still has a positive remaining amount. Every mutation preserves it, and each
one states how the counter changes: a new debt starts at zero, a payment adds
one to the paid debt's count, and a closed debt's count leaves with it.

Two facts about the code are worth stating plainly:

- A debt payment is not validated. Any value is accepted, including zero, a
  negative value or more than what remains. So a remaining amount can go
  negative only at the moment the debt leaves the list, and a debt recorded
  with an amount of zero or less stays open until it is paid.
- The export has four fields (`dia;titulo;descripcion;monto`). It carries the
  date as stored and the amount as a plain integer.

## Left out

- The offline-cache service worker (`sw.js`): browser caching, with no ledger logic.
- Reading form fields and all rendering: the calendar grid, month navigation,
  the debt cards, the rendered search results, view switching and drawing the
  pie chart. The model returns the data these display.
- Ledger.Ledger.ChartData: returns a map, so the order of the chart labels
  (the script's object key order) is not modelled. The script sums into a plain
  object, so a title naming a property every object inherits behaves
  differently there. `toString`, `constructor` or `hasOwnProperty` gets a string
  (the inherited function's text followed by the amount). `__proto__` gets no
  entry at all. The model gives every expense title, these included, its
  numeric total.
- Browser storage: saving after each mutation, and the encoding of the stored
  ledger. Loading is the constructor's parameter.
- The download of the export file. The export is returned as a string.
- Turning form text into numbers (empty text, non-numeric text, fractions) and
  floating-point arithmetic. Amounts are integers, and an empty minimum-amount
  field is `None`.
- Text.IntToString: renders integers only; the script engine's exponent form
  for very large numbers and fractional amounts are not modelled.
- Text.Lower: lower-cases only ASCII letters; the full Unicode case mapping of
  `toLowerCase` is not modelled.
- The clock: the date of a payment is a parameter.
- Ledger.Ledger.PayDebt: an index past the end of the debt list makes the
  script throw before it changes anything. The model returns `false` and
  changes nothing.
- Export.ExportRoundTrip: holds only for fields without ';' or line breaks,
  because the export does not escape them.
