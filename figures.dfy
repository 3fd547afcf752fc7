/**
 * The figures `ContentView` derives from its state on every read, and which
 * `BudgetSummaryView` recomputes word for word from the income and the
 * expense map it is handed: the expense total, the monthly savings and the
 * yearly savings. Nothing is clamped: savings go negative when the expenses
 * exceed the income.
 */
module Figures {

  /** One key of a non-empty map; which one is left open. */
  ghost function AnyKey(m: map<string, int>): (k: string)
    requires m != map[]
    ensures k in m
  {
    assert m.Keys != {};
    var k :| k in m; k
  }

  /**
   * `expenses.values.reduce(0, +)`: the sum of every amount in the map. The
   * dictionary hands out its values in an order of its own; `TotalRemove`
   * shows that any key may be taken first.
   */
  ghost function Total(m: map<string, int>): (r: int)
    ensures m == map[] ==> r == 0
    decreases |m|
  {
    if m == map[] then 0
    else
      var k := AnyKey(m);
      assert |m - {k}| == |m| - 1 by { assert (m - {k}).Keys == m.Keys - {k}; }
      m[k] + Total(m - {k})
  }

  /** `savings`: what is left of the income once the expenses are paid. */
  ghost function Savings(income: int, expenses: map<string, int>): (r: int)
    ensures r + Total(expenses) == income
    ensures r < 0 <==> Total(expenses) > income
  {
    income - Total(expenses)
  }

  /** `yearlySavings`: twelve months of the monthly savings. */
  ghost function YearlySavings(income: int, expenses: map<string, int>): (r: int)
    ensures r + 12 * Total(expenses) == 12 * income
  {
    Savings(income, expenses) * 12
  }

  lemma MapRemoveSize(m: map<string, int>, k: string)
    requires k in m
    ensures |m - {k}| == |m| - 1
  {
  }

  /** Whichever key is summed first, the total is the same. */
  lemma {:induction false} TotalRemove(m: map<string, int>, k: string)
    requires k in m
    ensures Total(m) == m[k] + Total(m - {k})
    decreases |m|
  {
    var j := AnyKey(m);
    if j != k {
      MapRemoveSize(m, j);
      MapRemoveSize(m, k);
      TotalRemove(m - {j}, k);
      TotalRemove(m - {k}, j);
      assert m - {j} - {k} == m - {k} - {j};
    }
  }

  /** Setting one amount moves the total by the difference to the amount it replaces. */
  lemma TotalUpdate(m: map<string, int>, k: string, v: int)
    ensures Total(m[k := v]) == Total(m) - (if k in m then m[k] else 0) + v
  {
    TotalRemove(m[k := v], k);
    if k in m {
      TotalRemove(m, k);
      assert m[k := v] - {k} == m - {k};
    } else {
      assert m[k := v] - {k} == m;
    }
  }

  /** The total of the empty map is zero. */
  lemma TotalEmpty()
    ensures Total(map[]) == 0
  {
  }

  /** With no negative amounts, the total is not negative and bounds each amount. */
  lemma {:induction false} TotalNonNegative(m: map<string, int>)
    requires forall k :: k in m ==> m[k] >= 0
    ensures Total(m) >= 0
    ensures forall k :: k in m ==> m[k] <= Total(m)
    decreases |m|
  {
    if m != map[] {
      var j := AnyKey(m);
      MapRemoveSize(m, j);
      TotalNonNegative(m - {j});
      forall k | k in m ensures m[k] <= Total(m) {
        if k != j {
          assert k in m - {j};
        }
      }
    }
  }

  /**
   * Savings are not clamped: they are negative exactly when the expenses
   * exceed the income, and the yearly figure has the same sign.
   */
  lemma SavingsSign(income: int, m: map<string, int>)
    ensures Savings(income, m) < 0 <==> Total(m) > income
    ensures Savings(income, m) == 0 <==> Total(m) == income
    ensures YearlySavings(income, m) < 0 <==> Total(m) > income
    ensures YearlySavings(income, m) == 0 <==> Total(m) == income
  {
  }

  /** The worked example: income 10000, Food 3000 and Rent 4000. */
  lemma FoodAndRent()
    ensures Total(map["Food" := 3000, "Rent" := 4000]) == 7000
    ensures Savings(10000, map["Food" := 3000, "Rent" := 4000]) == 3000
    ensures YearlySavings(10000, map["Food" := 3000, "Rent" := 4000]) == 36000
  {
    var m := map["Food" := 3000, "Rent" := 4000];
    TotalRemove(m, "Food");
    var rest := m - {"Food"};
    assert rest == map["Rent" := 4000];
    TotalRemove(rest, "Rent");
    assert rest - {"Rent"} == map[];
  }
}
