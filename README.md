# Finance.Chic budget app: logs, totals and CSV export, in Dafny

The budget app keeps two in-memory logs, income entries and expense entries. It
adds to them from two forms, shows totals on a dashboard and exports each log
as a CSV file. This project models the data logic of `src/App.jsx` and proves
properties about it:

- `Csv` (csv.dfy) models `toCSV` and its `escape`. Every field is wrapped in
  double quotes, and each embedded quote is doubled. `null`/`undefined` becomes
  the empty string. Fields are joined by `,`, and the header line and the data
  lines are joined by a single line feed. The module also has a quote-aware
  reader (`ReadQuoted`, `Unescape`, `ReadRecord`, `ReadCsv`), which is the
  reader through which the export is proved to round-trip. The header line
  and the data lines are built from `Escape`, exactly as `toCSV` maps
  `escape` over the headers and over each row's values.
- `Entries` (entries.dfy) defines the income and expense entries, the
  category and payment-method lists, the form defaults, the "date and amount
  present" check, and the two export schemas. An entry's JavaScript object is
  modelled as a `Row` (a map from key to value).
- `Aggregate` (aggregate.dfy) models the `totals` memo. Each log is reduced,
  from left to right starting at 0, by adding the parsed amount of each entry.
  An amount that does not parse adds 0, and `net = inc - exp`.
- `Store` (store.dfy) models the component state as the class `Budget`. It
  holds `income`, `expenses`, `incForm` and `expForm`, and its methods are the
  Add Income and Add Expense handlers.

String-to-number parsing is a parameter: `parse: string -> Option<int>` gives
the amount a string denotes (for example, in cents). `None` is the case where
`Number(x) || 0` falls back to 0.

## Model

| member | source | states |
|---|---|---|
| Csv.DoubleQuotes | src/App.jsx:22 | `replaceAll('"', '""')` adds one character per quote and exactly doubles the number of quotes |
| Csv.DoubleQuotesAppend | src/App.jsx:22 | quote doubling works one character at a time, so it distributes over concatenation |
| Csv.DoubleQuotesNoQuote | src/App.jsx:22 | a value without quotes is its own escaped body |
| Csv.EscapeText | src/App.jsx:22 | the escaped field starts and ends with `"`, its length is the value's length plus its quote count plus 2, and it holds twice the value's quotes plus the two outer ones |
| Csv.Escape | src/App.jsx:22 | `escape(v)` turns `null`/`undefined` into exactly `""`, and un-escaping it gives back `String(v ?? "")` |
| Csv.ReadQuotedDoubled | src/App.jsx:22 | reading an escaped body collapses each `""` back to `"` and stops right after the closing quote, leaving the following text untouched |
| Csv.ReadQuotedInverse | src/App.jsx:22 | whatever the field reader accepts is an escaped body followed by text that does not start with a quote |
| Csv.UnescapeEscape | src/App.jsx:22 | stripping the outer quotes and collapsing `""` to `"` gives back the original string |
| Csv.EscapeUnescape | src/App.jsx:22 | every string that un-escapes to `s` is exactly `escape(s)`, so escaping is a bijection onto well-formed quoted fields |
| Csv.EscapeInjective | src/App.jsx:22 | distinct values get distinct escaped fields |
| Csv.EscapeQuotedExample | src/App.jsx:22 | `He said "hi"` escapes to `"He said ""hi"""` (for any quote-free text in place of `He said ` and `hi`) |
| Csv.Display | src/App.jsx:22 | `String(v ?? "")`: an absent value reads as the empty string. Its properties are stated by `Csv.Escape` (un-escaping gives back `Display(v)`) and `Csv.Fields` |
| Csv.Lookup | src/App.jsx:25 | `r[h]` with a missing key read as `undefined`. Its properties are stated by `Csv.Fields` and `Csv.ReadToCsv` |
| Csv.Join | src/App.jsx:24-27 | `Array.prototype.join`, used with `,` for fields and `\n` for lines. Its properties are stated by `Csv.JoinSnoc`, `Csv.ReadFormatLine` and `Csv.ReadFormatLines` |
| Csv.HeaderLine | src/App.jsx:24 | `headers.map(escape).join(",")`. `Csv.HeaderLineIsFormatted` states it is the escaped headers joined by commas, and `Csv.ReadToCsv` that it reads back as the headers |
| Csv.RowLine | src/App.jsx:25 | `headers.map((h) => escape(r[h])).join(",")`. `Csv.RowLineIsFormatted` states it is the row's `Fields` escaped and joined by commas, and `Csv.ReadToCsv` that it reads back as those fields |
| Csv.RowLines | src/App.jsx:25 | `rows.map(...)`: one line per row, in row order. Its properties are stated by `Csv.RowLinesAreFormatted` and `Csv.RowLinesSnoc` |
| Csv.ToCsv | src/App.jsx:21-28 | `toCSV(rows, headers)`. Its properties are stated by `Csv.ReadToCsv` (round trip), `Csv.ToCsvNoRows`, `Csv.ToCsvAppend`, `Csv.ToCsvLastChar` and `Csv.ToCsvNoHeaders` |
| Csv.EscapeAllAt | src/App.jsx:24-25 | escaping a list of values escapes each value in place, position by position |
| Csv.HeaderLineIsFormatted | src/App.jsx:24 | the header line is `escape` of each header, in header order, joined by `,` |
| Csv.RowLineIsFormatted | src/App.jsx:25 | a data line is `escape` of `r[h]` for each header `h`, in header order, joined by `,` |
| Csv.RowLinesAreFormatted | src/App.jsx:25 | each data line is the formatted line of that row's values, in row order |
| Csv.RowLinesSnoc | src/App.jsx:25 | one more row adds exactly that row's line at the end of the data lines |
| Csv.FormatLineLastChar | src/App.jsx:24-25 | a line with at least one field ends in a closing quote |
| Csv.DoubleQuotedExample | src/App.jsx:22 | in `He said "hi"` (any quote-free text in place of `He said ` and `hi`) exactly the two quotes are doubled |
| Csv.DoubleQuotesThenQuote | src/App.jsx:22 | in quote-free text followed by one quote, only that quote is doubled |
| Csv.Fields | src/App.jsx:25 | a data line has one value per header, and value `i` is `String(r[headers[i]] ?? "")`, with a missing key read as `undefined` |
| Csv.JoinSnoc | src/App.jsx:27 | joining one more part adds one separator and that part at the end |
| Csv.ReadFormatLine | src/App.jsx:24-25 | a line of escaped fields joined by `,` reads back as exactly its values, in order, whether a line feed or the end of the text follows it |
| Csv.ReadFormatLines | src/App.jsx:23-27 | formatted lines joined by single line feeds read back as the same table |
| Csv.ReadToCsv | src/App.jsx:21-28 | `toCSV(rows, headers)` reads back as the header row and then one record per row in row order, each record holding `headers.length` values `String(r[h] ?? "")` in header order |
| Csv.ToCsvNoRows | src/App.jsx:23-27 | with zero rows the document is just the header line |
| Csv.ToCsvAppend | src/App.jsx:23-27 | one more row adds a single line feed and that row's line at the end, and leaves everything before it unchanged |
| Csv.ToCsvLastChar | src/App.jsx:23-27 | with at least one header the document ends in a closing quote, so there is no trailing newline |
| Csv.ToCsvNoHeaders | src/App.jsx:23-27 | with no headers every line is empty, so the document is one line feed per row |
| Entries.CATEGORIES | src/App.jsx:3-17 | the thirteen expense categories, in the order the app lists them; the first is the expense form's default (`Entries.DefaultExpenseForm`) |
| Entries.PAYMENT_METHODS | src/App.jsx:19 | the four payment methods, in order; the first is the expense form's default (`Entries.DefaultExpenseForm`) |
| Entries.DefaultIncomeForm | src/App.jsx:44-50 | the income form on page load and after every accepted add (lines 114-120): all fields empty except `type = "Paycheck"`. Stated by `Store.Budget.constructor` and `Store.Budget.AddIncome` |
| Entries.DefaultExpenseForm | src/App.jsx:52-59 | the expense form on page load and after every accepted add (lines 189-196): all fields empty except `category = CATEGORIES[0]` and `paymentMethod = PAYMENT_METHODS[0]`. Stated by `Store.Budget.constructor` and `Store.Budget.AddExpense` |
| Entries.IncomeComplete | src/App.jsx:112 | the add handler's guard passes exactly when both `date` and `amount` are non-empty strings. `Store.Budget.AddIncome` states that a form failing it changes nothing |
| Entries.ExpenseComplete | src/App.jsx:187 | the same check for the expense form. `Store.Budget.AddExpense` states that a form failing it changes nothing |
| Entries.ExportIncome | src/App.jsx:217 | `toCSV(income, ["date", "source", "type", "amount", "notes"])`. Its properties are stated by `Entries.ReadExportIncome` and `Entries.ExportIncomeAppend` |
| Entries.ExportExpenses | src/App.jsx:230-237 | `toCSV(expenses, [...six headers])`. Its properties are stated by `Entries.ReadExportExpenses` and `Entries.ExportExpensesAppend` |
| Entries.IncomeFields | src/App.jsx:217 | the income columns `date, source, type, amount, notes` read the matching fields of an entry |
| Entries.ExpenseFields | src/App.jsx:230-237 | the expense columns `date, description, category, paymentMethod, amount, notes` read the matching fields of an entry |
| Entries.ReadExportIncome | src/App.jsx:213-218 | the income export reads back as its header row and then every income entry's five fields, in log order |
| Entries.ReadExportExpenses | src/App.jsx:225-239 | the expense export reads back as its header row and then every expense's six fields, in log order |
| Entries.ExportIncomeAppend | src/App.jsx:217 | logging an income entry extends the income export by exactly that entry's line |
| Entries.ExportExpensesAppend | src/App.jsx:230-237 | logging an expense extends the expense export by exactly that entry's line |
| Aggregate.AmountOrZero | src/App.jsx:62-63 | an entry's contribution is its parsed amount, or 0 when `Number(x.amount)` gives no usable number. `Aggregate.TotalAppend` states what one entry adds |
| Aggregate.Reduce | src/App.jsx:62-63 | `.reduce((s, x) => s + ..., acc)`, a left fold. `Aggregate.ReduceShift` states that its starting value is simply added |
| Aggregate.Total | src/App.jsx:62-63 | the fold started at 0. `Aggregate.TotalIsSumOfParsed`, `Aggregate.TotalConcat` and `Aggregate.TotalAppend` state its properties |
| Aggregate.ReduceShift | src/App.jsx:62-63 | the fold's starting value is simply added to the fold of the entries from 0 |
| Aggregate.TotalIsSumOfParsed | src/App.jsx:62-63 | a log's total is the arithmetic sum of the amounts that parse; an amount that does not parse adds 0 |
| Aggregate.TotalConcat | src/App.jsx:62-63 | the total of two logs one after the other is the sum of their totals |
| Aggregate.TotalAppend | src/App.jsx:62-63 | appending an entry adds its parsed amount, or nothing when the amount does not parse |
| Aggregate.ComputeTotals | src/App.jsx:61-65 | `inc` and `exp` are the sums of the parsed income and expense amounts, and `net = inc - exp` |
| Aggregate.TotalsAfterIncome | src/App.jsx:61-65 | an added income entry raises `inc` and `net` by its amount and leaves `exp` unchanged |
| Aggregate.TotalsAfterExpense | src/App.jsx:61-65 | an added expense raises `exp` by its amount, lowers `net` by as much and leaves `inc` unchanged |
| Aggregate.ScenarioTotals | src/App.jsx:61-65 | one income of 1000 and one expense of 400 give totals 1000, 400 and 600 |
| Store.Budget.constructor | src/App.jsx:41-59 | on page load both logs are empty; the income form is empty except `type = "Paycheck"`; the expense form is empty except `category = CATEGORIES[0]` and `paymentMethod = PAYMENT_METHODS[0]` |
| Store.Budget.EditIncomeForm | src/App.jsx:79-108 | the income inputs set the form's fields and nothing else |
| Store.Budget.EditExpenseForm | src/App.jsx:131-183 | the expense inputs and selects set the form's fields and nothing else |
| Store.Budget.AddIncome | src/App.jsx:110-121 | a form with an empty `date` or `amount` changes nothing. Otherwise the form is appended, verbatim, at the end of `income`, with every earlier entry kept, and the form is reset to its defaults. `expenses` and the expense form are untouched |
| Store.Budget.AddExpense | src/App.jsx:185-197 | the same as AddIncome, for `expenses` and the expense form; the reset restores `CATEGORIES[0]` and `PAYMENT_METHODS[0]` |
| Store.Budget.Dashboard | src/App.jsx:61-65 | the dashboard's income and spending are the sums of the parsed amounts of the current logs, and net is their difference |
| Store.Budget.IncomeCsv | src/App.jsx:213-218 | the Export Income CSV text reads back as the header row and every logged income entry, in order |
| Store.Budget.ExpenseCsv | src/App.jsx:225-239 | the Export Expense CSV text reads back as the header row and every logged expense, in order |

`Store.Session` is a client of `Budget` with no contract of its own. It walks
through the app's basic scenario: an income form with no amount is refused,
then one income and one expense are logged and their forms reset.

Lines of the exported text end with a single `\n`, with no `\r`, and the
last line has no line terminator (`Csv.ToCsvLastChar`).

## Left out

- `downloadText` (Blob, object URL, anchor click) is browser I/O with no logic to state. The model stops at the text it would be given.
- JSX rendering, styles and layout are presentation.
- The `onChange` wiring writes one field at a time. It is modelled only as whole-form replacement (`EditIncomeForm`, `EditExpenseForm`), which covers every sequence of single-field edits.
- Infinite amounts: `Number("Infinity")`, `Number("-Infinity")` and `Number("1e400")` are truthy and are added to the totals as infinite values, and an income log holding both `Infinity` and `-Infinity` shows a NaN total. An integer-valued parse cannot represent these values.
- JavaScript `Number()` parsing and `.toFixed(2)` display are floating-point. The parse is an abstract integer-valued function, and floating-point rounding in the sums is not modelled.
- React `useState`/`useMemo` scheduling and memoisation: only the resulting state transitions are modelled, and the totals are recomputed from the current logs.
- Category and payment-method membership is enforced only by the `<select>` widgets. The store does not check it, so the model does not assert it.
- Csv.ReadToCsv: stated only for at least one header. With no headers every line is empty and there are no fields to read back; `Csv.ToCsvNoHeaders` states what the output is then.
- Record lookup `r[h]` only sees a record's own keys. Keys inherited from `Object.prototype` (such as `constructor`) are not modelled, and they do not occur in either export schema.
- `String(v)` of non-string values (numbers, objects) is not modelled: every value the app exports is a string or absent.
- Strings are sequences of characters. JavaScript's UTF-16 code units and the file's UTF-8 encoding are not modelled.
