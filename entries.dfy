/**
 The two kinds of entry the budget app logs, the defaults its forms start
 from, and the two export schemas: which fields go to the income and the
 expense spreadsheet, in which order.
 */
module Entries {

  import opened Optional
  import opened Csv

  /** The expense categories offered by the expense form, first one the default. */
  const CATEGORIES: seq<string> := [
    "Housing (Rent/Mortgage)",
    "Groceries",
    "Dining & Coffee",
    "Transportation",
    "Phone/Internet",
    "Subscriptions",
    "Shopping",
    "Health & Beauty",
    "Utilities",
    "Entertainment",
    "Gifts/Donations",
    "Travel",
    "Other"
  ]

  /** The payment methods offered by the expense form, first one the default. */
  const PAYMENT_METHODS: seq<string> := ["Credit Card", "Debit", "Cash", "Transfer"]

  /** An income entry; `incomeType` is the record's `type` field. */
  datatype IncomeEntry = IncomeEntry(
    date: string, source: string, incomeType: string, amount: string, notes: string)

  datatype ExpenseEntry = ExpenseEntry(
    date: string, description: string, category: string, paymentMethod: string,
    amount: string, notes: string)

  /** What the income form holds on start and after each successful add. */
  const DefaultIncomeForm: IncomeEntry := IncomeEntry("", "", "Paycheck", "", "")

  /** What the expense form holds on start and after each successful add. */
  const DefaultExpenseForm: ExpenseEntry :=
    ExpenseEntry("", "", CATEGORIES[0], PAYMENT_METHODS[0], "", "")

  /** `!form.date || !form.amount`: the add handlers refuse a form missing either. */
  predicate IncomeComplete(f: IncomeEntry)
  {
    f.date != "" && f.amount != ""
  }

  predicate ExpenseComplete(f: ExpenseEntry)
  {
    f.date != "" && f.amount != ""
  }

  function IncomeAmount(e: IncomeEntry): string { e.amount }

  function ExpenseAmount(e: ExpenseEntry): string { e.amount }

  /** The income export's column order. */
  const IncomeHeaders: seq<string> := ["date", "source", "type", "amount", "notes"]

  /** The expense export's column order. */
  const ExpenseHeaders: seq<string> :=
    ["date", "description", "category", "paymentMethod", "amount", "notes"]

  /** The JavaScript object an income entry is: its keys are the export's headers. */
  function IncomeRecord(e: IncomeEntry): Row
  {
    map["date" := Text(e.date), "source" := Text(e.source), "type" := Text(e.incomeType),
        "amount" := Text(e.amount), "notes" := Text(e.notes)]
  }

  function ExpenseRecord(e: ExpenseEntry): Row
  {
    map["date" := Text(e.date), "description" := Text(e.description),
        "category" := Text(e.category), "paymentMethod" := Text(e.paymentMethod),
        "amount" := Text(e.amount), "notes" := Text(e.notes)]
  }

  function IncomeRecords(es: seq<IncomeEntry>): (rs: seq<Row>)
    ensures |rs| == |es|
  {
    if es == [] then [] else [IncomeRecord(es[0])] + IncomeRecords(es[1..])
  }

  function ExpenseRecords(es: seq<ExpenseEntry>): (rs: seq<Row>)
    ensures |rs| == |es|
  {
    if es == [] then [] else [ExpenseRecord(es[0])] + ExpenseRecords(es[1..])
  }

  /** The values of an income entry, in the income export's column order. */
  function IncomeValues(e: IncomeEntry): seq<string>
  {
    [e.date, e.source, e.incomeType, e.amount, e.notes]
  }

  function ExpenseValues(e: ExpenseEntry): seq<string>
  {
    [e.date, e.description, e.category, e.paymentMethod, e.amount, e.notes]
  }

  /** Every column of the income export reads the matching field of the entry. */
  lemma IncomeFields(e: IncomeEntry)
    ensures Fields(IncomeRecord(e), IncomeHeaders) == IncomeValues(e)
  {
  }

  /** Every column of the expense export reads the matching field of the entry. */
  lemma ExpenseFields(e: ExpenseEntry)
    ensures Fields(ExpenseRecord(e), ExpenseHeaders) == ExpenseValues(e)
  {
  }

  /** The Export Income CSV button's document. */
  function ExportIncome(es: seq<IncomeEntry>): string
  {
    ToCsv(IncomeRecords(es), IncomeHeaders)
  }

  /** The Export Expense CSV button's document. */
  function ExportExpenses(es: seq<ExpenseEntry>): string
  {
    ToCsv(ExpenseRecords(es), ExpenseHeaders)
  }

  function IncomeTable(es: seq<IncomeEntry>): (t: seq<seq<string>>)
    ensures |t| == |es|
  {
    if es == [] then [] else [IncomeValues(es[0])] + IncomeTable(es[1..])
  }

  function ExpenseTable(es: seq<ExpenseEntry>): (t: seq<seq<string>>)
    ensures |t| == |es|
  {
    if es == [] then [] else [ExpenseValues(es[0])] + ExpenseTable(es[1..])
  }

  lemma {:induction false} IncomeTableIsTable(es: seq<IncomeEntry>)
    ensures Table(IncomeRecords(es), IncomeHeaders) == IncomeTable(es)
  {
    if es != [] {
      IncomeFields(es[0]);
      IncomeTableIsTable(es[1..]);
    }
  }

  lemma {:induction false} ExpenseTableIsTable(es: seq<ExpenseEntry>)
    ensures Table(ExpenseRecords(es), ExpenseHeaders) == ExpenseTable(es)
  {
    if es != [] {
      ExpenseFields(es[0]);
      ExpenseTableIsTable(es[1..]);
    }
  }

  /** The income export reads back as its header row and then every entry's five fields, in entry order. */
  lemma ReadExportIncome(es: seq<IncomeEntry>)
    ensures ReadCsv(ExportIncome(es)) == Some([IncomeHeaders] + IncomeTable(es))
  {
    ReadToCsv(IncomeRecords(es), IncomeHeaders);
    IncomeTableIsTable(es);
  }

  /** The expense export reads back as its header row and then every entry's six fields, in entry order. */
  lemma ReadExportExpenses(es: seq<ExpenseEntry>)
    ensures ReadCsv(ExportExpenses(es)) == Some([ExpenseHeaders] + ExpenseTable(es))
  {
    ReadToCsv(ExpenseRecords(es), ExpenseHeaders);
    ExpenseTableIsTable(es);
  }

  lemma {:induction false} IncomeRecordsSnoc(es: seq<IncomeEntry>, e: IncomeEntry)
    ensures IncomeRecords(es + [e]) == IncomeRecords(es) + [IncomeRecord(e)]
  {
    if es == [] {
      assert es + [e] == [e];
    } else {
      assert (es + [e])[1..] == es[1..] + [e];
      IncomeRecordsSnoc(es[1..], e);
    }
  }

  lemma {:induction false} ExpenseRecordsSnoc(es: seq<ExpenseEntry>, e: ExpenseEntry)
    ensures ExpenseRecords(es + [e]) == ExpenseRecords(es) + [ExpenseRecord(e)]
  {
    if es == [] {
      assert es + [e] == [e];
    } else {
      assert (es + [e])[1..] == es[1..] + [e];
      ExpenseRecordsSnoc(es[1..], e);
    }
  }

  /** Logging one more income entry extends the income export by exactly one line, that entry's. */
  lemma ExportIncomeAppend(es: seq<IncomeEntry>, e: IncomeEntry)
    ensures ExportIncome(es + [e]) == ExportIncome(es) + "\n" + FormatLine(IncomeValues(e))
  {
    IncomeRecordsSnoc(es, e);
    ToCsvAppend(IncomeRecords(es), IncomeRecord(e), IncomeHeaders);
    RowLineIsFormatted(IncomeRecord(e), IncomeHeaders);
    IncomeFields(e);
  }

  /** Logging one more expense extends the expense export by exactly one line, that entry's. */
  lemma ExportExpensesAppend(es: seq<ExpenseEntry>, e: ExpenseEntry)
    ensures ExportExpenses(es + [e]) == ExportExpenses(es) + "\n" + FormatLine(ExpenseValues(e))
  {
    ExpenseRecordsSnoc(es, e);
    ToCsvAppend(ExpenseRecords(es), ExpenseRecord(e), ExpenseHeaders);
    RowLineIsFormatted(ExpenseRecord(e), ExpenseHeaders);
    ExpenseFields(e);
  }
}
