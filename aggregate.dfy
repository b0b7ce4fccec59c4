/**
 The dashboard totals: each log folded to the sum of its parsed amounts, an
 amount that does not parse counting as zero, and the net left. Parsing is
 a parameter: `parse(s)` is the amount `s` denotes (say, in cents), or None
 where JavaScript's `Number(s) || 0` falls back to 0.
 */
module Aggregate {

  import opened Optional
  import opened Entries

  /** `Number(amount) || 0`. */
  function AmountOrZero(parse: string -> Option<int>, amount: string): int
  {
    match parse(amount)
    case Some(n) => n
    case None => 0
  }

  /** `xs.reduce((s, x) => s + (Number(x.amount) || 0), acc)`: a left fold. */
  function Reduce<E>(parse: string -> Option<int>, amountOf: E -> string, acc: int, xs: seq<E>): int
    decreases |xs|
  {
    if xs == [] then acc
    else Reduce(parse, amountOf, acc + AmountOrZero(parse, amountOf(xs[0])), xs[1..])
  }

  /** The total of a log: the fold started at 0. */
  function Total<E>(parse: string -> Option<int>, amountOf: E -> string, xs: seq<E>): int
  {
    Reduce(parse, amountOf, 0, xs)
  }

  /** The amounts that parse, in log order; entries whose amount does not parse are skipped. */
  function Parsed<E>(parse: string -> Option<int>, amountOf: E -> string, xs: seq<E>): seq<int>
  {
    if xs == [] then []
    else
      match parse(amountOf(xs[0]))
      case Some(n) => [n] + Parsed(parse, amountOf, xs[1..])
      case None => Parsed(parse, amountOf, xs[1..])
  }

  /** The arithmetic sum of a list of numbers. */
  function Sum(ns: seq<int>): int
  {
    if ns == [] then 0 else ns[0] + Sum(ns[1..])
  }

  /** The fold's starting value is simply added to what the fold of the entries gives. */
  lemma {:induction false} ReduceShift<E>(parse: string -> Option<int>, amountOf: E -> string, acc: int, xs: seq<E>)
    ensures Reduce(parse, amountOf, acc, xs) == acc + Total(parse, amountOf, xs)
    decreases |xs|
  {
    if xs != [] {
      var a := AmountOrZero(parse, amountOf(xs[0]));
      ReduceShift(parse, amountOf, acc + a, xs[1..]);
      ReduceShift(parse, amountOf, a, xs[1..]);
    }
  }

  /**
   A total is the sum of the amounts that parse; every entry whose amount
   does not parse adds zero.
   */
  lemma {:induction false} TotalIsSumOfParsed<E>(parse: string -> Option<int>, amountOf: E -> string, xs: seq<E>)
    ensures Total(parse, amountOf, xs) == Sum(Parsed(parse, amountOf, xs))
    decreases |xs|
  {
    if xs != [] {
      ReduceShift(parse, amountOf, AmountOrZero(parse, amountOf(xs[0])), xs[1..]);
      TotalIsSumOfParsed(parse, amountOf, xs[1..]);
    }
  }

  /** The total of two logs one after the other is the sum of their totals. */
  lemma {:induction false} TotalConcat<E>(parse: string -> Option<int>, amountOf: E -> string, xs: seq<E>, ys: seq<E>)
    ensures Total(parse, amountOf, xs + ys) == Total(parse, amountOf, xs) + Total(parse, amountOf, ys)
    decreases |xs|
  {
    if xs == [] {
      assert xs + ys == ys;
    } else {
      var a := AmountOrZero(parse, amountOf(xs[0]));
      assert (xs + ys)[0] == xs[0] && (xs + ys)[1..] == xs[1..] + ys;
      ReduceShift(parse, amountOf, a, xs[1..] + ys);
      ReduceShift(parse, amountOf, a, xs[1..]);
      TotalConcat(parse, amountOf, xs[1..], ys);
    }
  }

  /** Appending an entry adds its parsed amount, or nothing when it does not parse. */
  lemma TotalAppend<E>(parse: string -> Option<int>, amountOf: E -> string, xs: seq<E>, x: E)
    ensures Total(parse, amountOf, xs + [x]) == Total(parse, amountOf, xs) + AmountOrZero(parse, amountOf(x))
    ensures parse(amountOf(x)).None? ==> Total(parse, amountOf, xs + [x]) == Total(parse, amountOf, xs)
  {
    TotalConcat(parse, amountOf, xs, [x]);
    assert [x][1..] == [];
    assert Total(parse, amountOf, [x]) == Reduce(parse, amountOf, AmountOrZero(parse, amountOf(x)), []);
  }

  /** The dashboard's `totals`: income, spending and the net left. */
  datatype Totals = Totals(inc: int, exp: int, net: int)

  /** `totals`: the two folds and their difference. */
  function ComputeTotals(parse: string -> Option<int>, income: seq<IncomeEntry>, expenses: seq<ExpenseEntry>): (t: Totals)
    ensures t.inc == Sum(Parsed(parse, IncomeAmount, income))
    ensures t.exp == Sum(Parsed(parse, ExpenseAmount, expenses))
    ensures t.net == t.inc - t.exp
  {
    TotalIsSumOfParsed(parse, IncomeAmount, income);
    TotalIsSumOfParsed(parse, ExpenseAmount, expenses);
    var inc := Total(parse, IncomeAmount, income);
    var exp := Total(parse, ExpenseAmount, expenses);
    Totals(inc, exp, inc - exp)
  }

  /** Adding an income entry raises income and net by its amount and leaves spending as it was. */
  lemma TotalsAfterIncome(parse: string -> Option<int>, income: seq<IncomeEntry>, expenses: seq<ExpenseEntry>, e: IncomeEntry)
    ensures var before, after := ComputeTotals(parse, income, expenses), ComputeTotals(parse, income + [e], expenses);
      && after.inc == before.inc + AmountOrZero(parse, e.amount)
      && after.exp == before.exp
      && after.net == before.net + AmountOrZero(parse, e.amount)
  {
    TotalAppend(parse, IncomeAmount, income, e);
    TotalIsSumOfParsed(parse, IncomeAmount, income);
    TotalIsSumOfParsed(parse, IncomeAmount, income + [e]);
  }

  /** Adding an expense raises spending by its amount, lowers net by as much and leaves income as it was. */
  lemma TotalsAfterExpense(parse: string -> Option<int>, income: seq<IncomeEntry>, expenses: seq<ExpenseEntry>, e: ExpenseEntry)
    ensures var before, after := ComputeTotals(parse, income, expenses), ComputeTotals(parse, income, expenses + [e]);
      && after.inc == before.inc
      && after.exp == before.exp + AmountOrZero(parse, e.amount)
      && after.net == before.net - AmountOrZero(parse, e.amount)
  {
    TotalAppend(parse, ExpenseAmount, expenses, e);
    TotalIsSumOfParsed(parse, ExpenseAmount, expenses);
    TotalIsSumOfParsed(parse, ExpenseAmount, expenses + [e]);
  }

  /**
   One paycheck of 1000 and one rent payment of 400 leave 600: the income
   entry counts towards income only and the expense towards spending only.
   */
  lemma ScenarioTotals(parse: string -> Option<int>)
    requires parse("1000") == Some(1000) && parse("400") == Some(400)
    ensures ComputeTotals(parse,
        [IncomeEntry("2024-01-01", "Acme", "Paycheck", "1000", "")],
        [ExpenseEntry("2024-01-02", "Rent", CATEGORIES[0], "Debit", "400", "")])
      == Totals(1000, 400, 600)
  {
    var inc := IncomeEntry("2024-01-01", "Acme", "Paycheck", "1000", "");
    var exp := ExpenseEntry("2024-01-02", "Rent", CATEGORIES[0], "Debit", "400", "");
    TotalsAfterIncome(parse, [], [], inc);
    TotalsAfterExpense(parse, [inc], [], exp);
    assert [] + [inc] == [inc] && [] + [exp] == [exp];
  }
}
