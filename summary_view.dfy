/**
 * `BudgetSummaryView`: it is handed the income and its own copy of the
 * expense dictionary, and computes the three figures again, word for word,
 * folding the values in whatever order that copy yields them.
 */
module SummaryView {
  import opened Figures
  import opened Ranking

  /** The four figures the summary shows. */
  datatype Summary = Summary(income: int, savings: int, totalExpenses: int, yearlySavings: int)

  /**
   * The summary's figures, with `values` the order the dictionary yields its
   * entries in: they are `ContentView`'s own figures for the same state.
   */
  ghost function Summarize(income: int, expenses: map<string, int>, values: seq<Entry>): (s: Summary)
    requires IsListing(expenses, values)
    ensures s == Summary(income, Figures.Savings(income, expenses), Total(expenses),
                         Figures.YearlySavings(income, expenses))
  {
    var totalExpenses := SumValues(values);
    var savings := income - totalExpenses;
    TotalOfListing(expenses, values);
    Summary(income, savings, totalExpenses, savings * 12)
  }
}
