/**
 * `UserDefaults.standard` as the app uses it: two independent keys,
 * "listan" for the whole expense dictionary and "inkomst" for the income.
 * Every write replaces the whole value under one key; the other key is left
 * as it was.
 */
module Defaults {
  import opened Wrappers

  /**
   * What the store holds under each key. `None` stands for a key never
   * written, or one holding a value of another type.
   */
  datatype Store = Store(listan: Option<map<string, int>>, inkomst: Option<int>)

  /** `object(forKey: "listan") as? [String:Int] ?? [String:Int]()`. */
  function LoadExpenses(d: Store): (m: map<string, int>)
    ensures d.listan.Some? ==> m == d.listan.value
    ensures d.listan.None? ==> m == map[]
  {
    match d.listan
    case Some(m) => m
    case None => map[]
  }

  /** `float(forKey: "inkomst")`, which reads 0 when nothing was written. */
  function LoadIncome(d: Store): (v: int)
    ensures d.inkomst.Some? ==> v == d.inkomst.value
    ensures d.inkomst.None? ==> v == 0
  {
    match d.inkomst
    case Some(v) => v
    case None => 0
  }

  /** `set(expenses, forKey: "listan")`: reading back gives the map written, and the income is untouched. */
  function WriteExpenses(d: Store, m: map<string, int>): (d': Store)
    ensures LoadExpenses(d') == m
    ensures LoadIncome(d') == LoadIncome(d)
  {
    d.(listan := Some(m))
  }

  /** `set(income, forKey: "inkomst")`: reading back gives the income written, and the expenses are untouched. */
  function WriteIncome(d: Store, v: int): (d': Store)
    ensures LoadIncome(d') == v
    ensures LoadExpenses(d') == LoadExpenses(d)
  {
    d.(inkomst := Some(v))
  }

  /** On first launch the store is empty and the app starts with no expenses and no income. */
  lemma FirstLaunch()
    ensures LoadExpenses(Store(None, None)) == map[]
    ensures LoadIncome(Store(None, None)) == 0
  {
  }
}
