/**
 The app's state: the income and expense logs, which only ever grow, and the
 two forms whose contents the Add buttons log.
 */
module Store {

  import opened Optional
  import opened Csv
  import opened Entries
  import opened Aggregate

  class Budget {
    var income: seq<IncomeEntry>
    var expenses: seq<ExpenseEntry>
    var incForm: IncomeEntry
    var expForm: ExpenseEntry

    /** The state on page load: empty logs, forms at their defaults. */
    constructor ()
      ensures income == [] && expenses == []
      ensures incForm == DefaultIncomeForm && expForm == DefaultExpenseForm
    {
      income, expenses := [], [];
      incForm, expForm := DefaultIncomeForm, DefaultExpenseForm;
    }

    /** Typing into the income form's inputs: the form holds what was entered. */
    method EditIncomeForm(f: IncomeEntry)
      modifies this`incForm
      ensures incForm == f
    {
      incForm := f;
    }

    /** Typing into the expense form's inputs and choosing in its selects. */
    method EditExpenseForm(f: ExpenseEntry)
      modifies this`expForm
      ensures expForm == f
    {
      expForm := f;
    }

    /**
     The Add Income button: a form without a date or an amount changes
     nothing; otherwise the form is appended to the income log, verbatim, and
     the form goes back to its defaults. The expense side is untouched.
     */
    method AddIncome()
      modifies this`income, this`incForm
      ensures !IncomeComplete(old(incForm)) ==> income == old(income) && incForm == old(incForm)
      ensures IncomeComplete(old(incForm)) ==>
        income == old(income) + [old(incForm)] && incForm == DefaultIncomeForm
      ensures expenses == old(expenses) && expForm == old(expForm)
    {
      if incForm.date == "" || incForm.amount == "" {
        return;
      }
      income := income + [incForm];
      incForm := DefaultIncomeForm;
    }

    /**
     The Add Expense button: a form without a date or an amount changes
     nothing; otherwise the form is appended to the expense log, verbatim,
     and the form goes back to its defaults. The income side is untouched.
     */
    method AddExpense()
      modifies this`expenses, this`expForm
      ensures !ExpenseComplete(old(expForm)) ==> expenses == old(expenses) && expForm == old(expForm)
      ensures ExpenseComplete(old(expForm)) ==>
        expenses == old(expenses) + [old(expForm)] && expForm == DefaultExpenseForm
      ensures income == old(income) && incForm == old(incForm)
    {
      if expForm.date == "" || expForm.amount == "" {
        return;
      }
      expenses := expenses + [expForm];
      expForm := DefaultExpenseForm;
    }

    /** The dashboard: income, spending and net over the logs as they stand. */
    function Dashboard(parse: string -> Option<int>): (t: Totals)
      reads this
      ensures t.inc == Sum(Parsed(parse, IncomeAmount, income))
      ensures t.exp == Sum(Parsed(parse, ExpenseAmount, expenses))
      ensures t.net == t.inc - t.exp
    {
      ComputeTotals(parse, income, expenses)
    }

    /** The Export Income CSV button's text: it reads back as the header row and every logged income entry, in order. */
    function IncomeCsv(): (text: string)
      reads this
      ensures ReadCsv(text) == Some([IncomeHeaders] + IncomeTable(income))
    {
      ReadExportIncome(income);
      ExportIncome(income)
    }

    /** The Export Expense CSV button's text: it reads back as the header row and every logged expense, in order. */
    function ExpenseCsv(): (text: string)
      reads this
      ensures ReadCsv(text) == Some([ExpenseHeaders] + ExpenseTable(expenses))
    {
      ReadExportExpenses(expenses);
      ExportExpenses(expenses)
    }
  }

  /**
   A session: an incomplete income form is refused, then a complete income
   and a complete expense are each logged and their forms reset.
   */
  method Session()
  {
    var b := new Budget();
    b.EditIncomeForm(IncomeEntry("2024-01-01", "Acme", "Paycheck", "", ""));
    b.AddIncome();
    assert b.income == [];
    var paycheck := IncomeEntry("2024-01-01", "Acme", "Paycheck", "1000", "");
    b.EditIncomeForm(paycheck);
    b.AddIncome();
    assert b.income == [paycheck] && b.incForm == DefaultIncomeForm;
    var rent := ExpenseEntry("2024-01-02", "Rent", CATEGORIES[0], "Debit", "400", "");
    b.EditExpenseForm(rent);
    b.AddExpense();
    assert b.expenses == [rent] && b.income == [paycheck] && b.expForm == DefaultExpenseForm;
  }
}
