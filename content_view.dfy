/**
 * The state `ContentView` keeps and the actions that change it: saving and
 * deleting an expense, moving the income slider, and the "Starta" and
 * "Spara" buttons that write the income to the store.
 */
module BudgetApp {
  import opened Wrappers
  import opened IntParsing
  import Figures
  import opened Ranking
  import opened Defaults

  /** The upper end of both income sliders (`in: 0...70000`). */
  const MaxIncome: int := 70000

  /** No offset in `offsets` is below `i`. */
  predicate IsLeast(offsets: set<nat>, i: nat) {
    i in offsets && forall j :: j in offsets ==> i <= j
  }

  /** `IndexSet.first`: the smallest offset. */
  ghost function Least(offsets: set<nat>): (i: nat)
    requires offsets != {}
    ensures i in offsets && forall j :: j in offsets ==> i <= j
  {
    LeastExists(offsets);
    var i :| IsLeast(offsets, i); i
  }

  lemma {:induction false} LeastExists(s: set<nat>)
    requires s != {}
    ensures exists i :: IsLeast(s, i)
    decreases |s|
  {
    var x :| x in s;
    var rest := s - {x};
    var i := x;
    if rest != {} {
      LeastExists(rest);
      var y :| IsLeast(rest, y);
      i := if x < y then x else y;
    }
    forall j | j in s ensures i <= j {
      if j != x { assert j in rest; }
    }
    assert IsLeast(s, i);
  }

  /** What removing the key at position `p` of a descending sort does to the map. */
  lemma RemoveAtRank(m: map<string, int>, sorted: seq<Entry>, p: nat)
    requires IsSortedDescending(m, sorted) && p < |m|
    ensures p < |sorted| && sorted[p].key in m && RankedAt(m, sorted[p].key, p)
    ensures |m - {sorted[p].key}| == |m| - 1
    ensures Figures.Total(m - {sorted[p].key}) == Figures.Total(m) - m[sorted[p].key]
  {
    SortedPositionRank(m, sorted, p);
    Figures.TotalRemove(m, sorted[p].key);
    Figures.MapRemoveSize(m, sorted[p].key);
  }

  class ContentView {
    var expenses: map<string, int>
    var income: int
    var inputKey: string
    var inputValue: string
    var showAddView: bool
    var showEditView: bool
    /** What `UserDefaults` holds for this app. */
    ghost var store: Store

    /** The expense map in memory is always the one the store would load. */
    ghost predicate Valid()
      reads this
    {
      LoadExpenses(store) == expenses
    }

    /** The income in memory, and the one stored, lie in the slider range. */
    ghost predicate IncomeInRange()
      reads this
    {
      0 <= income <= MaxIncome && 0 <= LoadIncome(store) <= MaxIncome
    }

    /** The income in memory is the one the store would load. */
    ghost predicate IncomeSaved()
      reads this
    {
      LoadIncome(store) == income
    }

    /** `totalExpenses`: the fold over the values gives this in whatever order the dictionary yields them. */
    ghost function TotalExpenses(): (r: int)
      reads this
      ensures forall l :: IsListing(expenses, l) ==> r == SumValues(l)
    {
      TotalOfAnyListing(expenses);
      Figures.Total(expenses)
    }

    /** `savings`: the income is split into the expenses and the savings, which may be negative. */
    ghost function Savings(): (r: int)
      reads this
      ensures r + TotalExpenses() == income
      ensures r < 0 <==> TotalExpenses() > income
    {
      Figures.Savings(income, expenses)
    }

    /** `yearlySavings`. */
    ghost function YearlySavings(): (r: int)
      reads this
      ensures r + 12 * TotalExpenses() == 12 * income
    {
      Figures.YearlySavings(income, expenses)
    }

    /** The view's initial state, read from the store. */
    constructor (stored: Store)
      ensures Valid() && IncomeSaved()
      ensures store == stored
      ensures expenses == LoadExpenses(stored) && income == LoadIncome(stored)
      ensures inputKey == "" && inputValue == ""
      ensures !showAddView && !showEditView
      ensures IncomeInRange() <==> 0 <= LoadIncome(stored) <= MaxIncome
    {
      expenses := LoadExpenses(stored);
      income := LoadIncome(stored);
      inputKey := "";
      inputValue := "";
      showAddView := false;
      showEditView := false;
      store := stored;
    }

    /** A slider moved to `value`: only the income in memory changes. */
    method SetIncome(value: int)
      requires 0 <= value <= MaxIncome
      modifies this`income
      ensures income == value
      ensures old(IncomeInRange()) ==> IncomeInRange()
    {
      income := value;
    }

    /** "Starta": the income is written to the store. */
    method Start()
      requires Valid()
      modifies this`store
      ensures Valid() && IncomeSaved()
      ensures store == WriteIncome(old(store), income)
      ensures old(IncomeInRange()) ==> IncomeInRange()
    {
      store := WriteIncome(store, income);
    }

    /** "Spara" in the income sheet: the income is written and the sheet closes. */
    method SaveIncomeEdit()
      requires Valid()
      modifies this`store, this`showEditView
      ensures Valid() && IncomeSaved()
      ensures store == WriteIncome(old(store), income)
      ensures !showEditView
      ensures old(IncomeInRange()) ==> IncomeInRange()
    {
      store := WriteIncome(store, income);
      showEditView := false;
    }

    /**
     * `saveExpense`: when the amount text parses, the amount is stored under
     * the draft key (added or replacing the old amount), the whole map is
     * written, the drafts are cleared and the sheet closes; otherwise nothing
     * changes at all.
     */
    method SaveExpense()
      requires Valid()
      modifies this`expenses, this`store, this`inputKey, this`inputValue, this`showAddView
      ensures Valid()
      ensures ParseInt(old(inputValue)).None? ==> unchanged(this)
      ensures ParseInt(old(inputValue)).Some? ==>
        var v := ParseInt(old(inputValue)).value;
        && expenses == old(expenses)[old(inputKey) := v]
        && store == WriteExpenses(old(store), expenses)
        && inputKey == "" && inputValue == "" && !showAddView
      ensures ParseInt(old(inputValue)).Some? ==>
        && old(inputKey) in expenses
        && expenses[old(inputKey)] == ParseInt(old(inputValue)).value
        && (forall k :: k != old(inputKey) ==> (k in expenses <==> k in old(expenses)))
        && (forall k :: k != old(inputKey) && k in expenses ==> expenses[k] == old(expenses)[k])
        && |old(expenses)| <= |expenses| <= |old(expenses)| + 1
        && Figures.Total(expenses) == Figures.Total(old(expenses))
                              - (if old(inputKey) in old(expenses) then old(expenses)[old(inputKey)] else 0)
                              + ParseInt(old(inputValue)).value
    {
      var parsed := ParseInt(inputValue);
      if parsed.Some? {
        Figures.TotalUpdate(expenses, inputKey, parsed.value);
        expenses := expenses[inputKey := parsed.value];
        store := WriteExpenses(store, expenses);
        inputKey := "";
        inputValue := "";
        showAddView := false;
      }
    }

    /**
     * `deleteExpense(at:)`: `sorted` is the sort by descending amount that
     * `deleteExpense` makes of the dictionary; the key at the first offset of
     * that sort is removed and the whole map is written. With no offset
     * nothing changes.
     */
    method DeleteExpense(offsets: set<nat>, sorted: seq<Entry>)
      requires Valid()
      requires IsSortedDescending(expenses, sorted)
      requires offsets != {} ==> Least(offsets) < |expenses|
      modifies this`expenses, this`store
      ensures Valid()
      ensures offsets == {} ==> unchanged(this)
      ensures offsets != {} ==>
        var k := sorted[Least(offsets)].key;
        && k in old(expenses)
        && RankedAt(old(expenses), k, Least(offsets))
        && expenses == old(expenses) - {k}
        && |expenses| == |old(expenses)| - 1
        && store == WriteExpenses(old(store), expenses)
        && Figures.Total(expenses) == Figures.Total(old(expenses)) - old(expenses)[k]
    {
      if offsets != {} {
        LeastExists(offsets);
        var index: nat :| IsLeast(offsets, index);
        assert index == Least(offsets);
        RemoveAtRank(expenses, sorted, index);
        var item := sorted[index];
        expenses := expenses - {item.key};
        store := WriteExpenses(store, expenses);
      }
    }
  }

  /** Saving "50" and then "75" under "Coffee" leaves the single entry Coffee: 75. */
  method RepeatedSave(view: ContentView)
    requires view.Valid()
    modifies view
    ensures view.Valid()
    ensures view.expenses == old(view.expenses)["Coffee" := 75]
  {
    ParseExamples();
    view.inputKey, view.inputValue := "Coffee", "50";
    view.SaveExpense();
    view.inputKey, view.inputValue := "Coffee", "75";
    view.SaveExpense();
  }

  /** An amount that does not parse, such as "abc", leaves the view and the store as they were. */
  method RejectedSave(view: ContentView)
    requires view.Valid()
    modifies view
    ensures view.Valid()
    ensures view.expenses == old(view.expenses) && view.store == old(view.store)
    ensures view.inputKey == "Coffee" && view.inputValue == "abc"
  {
    ParseExamples();
    view.inputKey, view.inputValue := "Coffee", "abc";
    view.SaveExpense();
  }
}
