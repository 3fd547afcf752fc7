# iBudget budget state, in Dafny

iBudget is a one-screen SwiftUI budget tracker. Its only logic beyond
presentation is the state held by `ContentView` in
`iBudget/ContentView.swift`:

- an expense dictionary `[String:Int]` (category label to amount) and a monthly income;
- the figures derived from them on every read: `totalExpenses`, `savings` and
  `yearlySavings`, which `BudgetSummaryView` computes again from the same two values;
- `saveExpense`, which parses the amount text with Swift's `Int(String)` and
  inserts or overwrites one dictionary entry;
- `deleteExpense(at:)`, which sorts the dictionary by descending amount, takes
  the entry at the first swiped row and removes its key;
- persistence in `UserDefaults`: the whole dictionary under "listan" after each
  expense change, and the income under "inkomst" when "Starta" or "Spara" is pressed.

The project models this in seven modules:

- `Wrappers`: the `Option` type.
- `IntParsing`: `Int(String)` over 64-bit `Int` (optional sign, one or more ASCII digits, range check) and the decimal text `"\(n)"`.
- `Figures`: the expense total, savings and yearly savings.
- `SummaryView`: `BudgetSummaryView`'s own copy of the three figures, folded over its copy of the dictionary.
- `Ranking`: the dictionary sorted by descending amount, and the rank of a key in that order, stated without reference to how ties are ordered.
- `Defaults`: the two stored keys as a value, with load and write.
- `BudgetApp`: the class `ContentView`. Its fields are the Swift view's `@State` fields. A ghost field `store` records what `UserDefaults` holds. Its invariant `Valid()` says that the expense map in memory is always the map the store would load.

Behaviour as coded, which the model follows:

- `Int(String)` accepts a leading `-`, so a negative amount can be saved.
- `saveExpense` itself accepts an empty key. Only the disabled "Spara" button keeps an empty key or empty amount from reaching it.
- The code has no display name, no spending ratio and no ratio-based status. The bar in the summary has the fixed width 159.
- Moving a slider changes the income in memory only. The store keeps the old income until "Starta" or "Spara" is pressed.
- `showMainView` starts `false` (line 14) and is only ever set to `false` (line 120). So `ContentView` as written never shows `WelcomeView`, and its "Starta" button cannot be reached. `ContentView.Start` models what that button does when pressed. Only "Spara" in the income sheet actually writes the income.

## Model

| member | source | states |
|---|---|---|
| IntParsing.ParseInt | iBudget/ContentView.swift:56 | `Int(inputValue)` succeeds only on an optional sign followed by digits only, and only with a value inside the 64-bit range; a negative result needs a leading `-` |
| IntParsing.ParseAccepts | iBudget/ContentView.swift:56 | every optional sign ("", "+" or "-") followed by one or more digits whose signed value fits in 64 bits parses, to that signed value; this covers "+5", "007" and "-0" |
| IntParsing.ParseSound | iBudget/ContentView.swift:56 | every successful parse comes from an optional sign followed by one or more digits, and its value is the digits' value under that sign |
| IntParsing.ParseExamples | iBudget/ContentView.swift:56 | the amount texts "50" and "75" parse to 50 and 75; "abc" does not parse |
| IntParsing.ParseFormat | iBudget/ContentView.swift:56 | every 64-bit amount, written as decimal text and parsed again, gives back that amount |
| IntParsing.Format | iBudget/ContentView.swift:159 | the text shown for an amount is non-empty and starts with `-` exactly when the amount is negative |
| IntParsing.ParseRejectsBare | iBudget/ContentView.swift:56 | empty amount text, or a lone sign, does not parse |
| IntParsing.ParseRejectsNonDigit | iBudget/ContentView.swift:56 | a non-digit character after the first position makes the parse fail |
| Figures.Total | iBudget/ContentView.swift:23-25 | `totalExpenses` of the empty dictionary is 0; the fold's laws are the lemmas below |
| Figures.Savings | iBudget/ContentView.swift:27-29 | savings and the expense total add up to the income, and savings are negative exactly when the total exceeds the income |
| Figures.YearlySavings | iBudget/ContentView.swift:31-33 | yearly savings plus twelve times the expense total is twelve times the income |
| Figures.TotalRemove | iBudget/ContentView.swift:23-25 | the total is the same whichever key is summed first: it equals one amount plus the total of the other entries |
| Figures.TotalEmpty | iBudget/ContentView.swift:23-25 | the total of the empty dictionary is 0 |
| Figures.TotalUpdate | iBudget/ContentView.swift:23-25 | setting one key to `v` changes the total by `v` minus the amount it replaces (0 for a new key) |
| Figures.TotalNonNegative | iBudget/ContentView.swift:23-25 | with no negative amounts the total is at least 0 and at least every single amount |
| Figures.SavingsSign | iBudget/ContentView.swift:27-33 | savings are not clamped: monthly and yearly savings are negative exactly when the total exceeds the income, and zero exactly when they are equal |
| Figures.FoodAndRent | iBudget/ContentView.swift:23-33 | income 10000 with Food 3000 and Rent 4000 gives total 7000, savings 3000, yearly savings 36000 |
| Ranking.SumValues | iBudget/ContentView.swift:24 | folding `+` from 0 over no entries gives 0, over entries that are all non-negative a non-negative sum, and over entries that are all non-positive a non-positive one |
| Ranking.TotalOfListing | iBudget/ContentView.swift:24 | folding `+` over the values in any order that lists each entry once gives the same total |
| Ranking.TotalOfAnyListing | iBudget/ContentView.swift:24 | every order in which the dictionary can yield its entries folds to the same total |
| Ranking.SortByValueDesc | iBudget/ContentView.swift:67 | every dictionary has a listing of all its entries, each once, in descending order of amount |
| Ranking.SortedPositionRank | iBudget/ContentView.swift:67 | in any descending sort, the key at position `p` has at most `p` keys with a larger amount and more than `p` keys with an amount at least as large |
| Ranking.RankedKeyHasSort | iBudget/ContentView.swift:67 | conversely, every key ranked at position `i` stands at position `i` of some descending sort, so the ranked keys are exactly the ones a sort may put at a row |
| Ranking.RankExists | iBudget/ContentView.swift:67 | every position below the dictionary's size has a key ranked there |
| Ranking.RankDeterminesValue | iBudget/ContentView.swift:67 | two keys ranked at the same position have the same amount |
| Ranking.RankUniqueWithoutTies | iBudget/ContentView.swift:67 | when no two amounts are equal, the key at each position is unique |
| Ranking.SortsAgreeOnValues | iBudget/ContentView.swift:155 | the sort the list shows and the sort `deleteExpense` makes may order ties differently but hold the same amount at every row |
| SummaryView.Summarize | iBudget/ContentView.swift:214-224 | `BudgetSummaryView`'s copy of the figures, folded over its own copy of the dictionary in whatever order that copy yields, equals `ContentView`'s total, savings and yearly savings for the same income and dictionary |
| Defaults.LoadExpenses | iBudget/ContentView.swift:12 | the dictionary stored under "listan" is loaded as it is; with none stored, the expenses start empty |
| Defaults.LoadIncome | iBudget/ContentView.swift:13 | the income stored under "inkomst" is loaded as it is; with none stored, it reads 0 |
| Defaults.WriteExpenses | iBudget/ContentView.swift:58 | after the dictionary is written under "listan", loading gives that dictionary back, and the stored income is unchanged |
| Defaults.WriteIncome | iBudget/ContentView.swift:115 | after the income is written under "inkomst", loading gives that income back, and the stored expenses are unchanged |
| Defaults.FirstLaunch | iBudget/ContentView.swift:12-13 | with nothing stored, the app starts with no expenses and income 0 |
| BudgetApp.Least | iBudget/ContentView.swift:66 | `offsets.first` is an offset of the set and no offset is smaller |
| BudgetApp.RemoveAtRank | iBudget/ContentView.swift:67-68 | removing the key at a position of a descending sort removes a key ranked there, shrinks the map by one and lowers the total by that key's amount |
| BudgetApp.ContentView.TotalExpenses | iBudget/ContentView.swift:23-25 | the view's `totalExpenses` equals the fold over the values in every order the dictionary can yield them |
| BudgetApp.ContentView.Savings | iBudget/ContentView.swift:27-29 | the view's savings and total expenses add up to its income, and savings are negative exactly when the total exceeds the income |
| BudgetApp.ContentView.YearlySavings | iBudget/ContentView.swift:31-33 | the view's yearly savings plus twelve times its total expenses is twelve times its income |
| BudgetApp.ContentView.constructor | iBudget/ContentView.swift:12-19 | the view starts with the stored dictionary and income, empty drafts and closed sheets, in step with the store |
| BudgetApp.ContentView.SetIncome | iBudget/ContentView.swift:109 | a slider sets the income in memory to a value in 0…70000 and writes nothing |
| BudgetApp.ContentView.Start | iBudget/ContentView.swift:114-115 | "Starta" writes the current income to the store; afterwards the stored income equals the income in memory and stays in the slider range (as written, the button is never shown) |
| BudgetApp.ContentView.SaveIncomeEdit | iBudget/ContentView.swift:291-293 | "Spara" writes the current income to the store and closes the sheet |
| BudgetApp.ContentView.SaveExpense | iBudget/ContentView.swift:55-63 | on a parsed amount: the draft key maps to it, every other key keeps its amount, the map grows by at most one, the total moves by the difference, the store holds the new map, drafts are cleared and the sheet closes; on a failed parse nothing changes, store included |
| BudgetApp.ContentView.DeleteExpense | iBudget/ContentView.swift:65-71 | only the expenses and the store may change; with no offset nothing changes; otherwise exactly the key at the first offset of the descending sort is removed, that key is ranked at that row, the map shrinks by one, the total drops by its amount and the store holds the new map |
| BudgetApp.RepeatedSave | iBudget/ContentView.swift:55-58 | saving "50" and then "75" under "Coffee" leaves a single entry Coffee: 75 |
| BudgetApp.RejectedSave | iBudget/ContentView.swift:56-62 | saving the amount "abc" leaves the dictionary, the store and the drafts as they were |

## Left out

- All SwiftUI layout, styling, sheets, navigation and animation. This includes `showMainView`, `showSecondView`, `animationEffect` and the delayed screen switch after "Starta" (`DispatchQueue.main.asyncAfter`, timing only).
- The "Avbryt" buttons of both sheets and the "edit"/"add" toolbar buttons only set presentation flags and drafts. They are not modelled.
- The `.disabled(inputKey.isEmpty || inputValue.isEmpty)` gating of the save button is presentation. `SaveExpense` models `saveExpense` itself, which has no such check.
- Figures.Total: Swift traps when `reduce(0, +)`, `Int(income) - totalExpenses` or `savings * 12` overflows 64 bits. The model uses unbounded integers and does not model the trap.
- BudgetApp.ContentView.SetIncome: income is a `Float` in the app and is shown through `Int(income)`. The model uses whole numbers, which is what the sliders' steps of 500 and 1000 produce. The step itself is not required.
- BudgetApp.ContentView.DeleteExpense: `sorted(by:)` is library code whose tie order is not visible. Its result is a parameter, required to be some descending sort of the dictionary. `Ranking.SortByValueDesc` shows that such a sort always exists. An offset beyond the list, which traps in Swift, is excluded by the requires.
- `UserDefaults` is modelled as the ghost value `store`. Real I/O, write failures and a stored value of the wrong type are not modelled; the last is folded into "absent".
- Expense keys are compared as sequences of Unicode scalars. Swift's `String` equality, and so `Dictionary` lookup, treats canonically equivalent strings as equal (a precomposed "é" and "e" followed by a combining accent). The model treats them as two different keys. "Every other key keeps its amount" in `SaveExpense` and "exactly that key is removed" in `DeleteExpense` are meant under the model's equality.
- `IndexSet` is modelled as a set of natural numbers. Only its `first` is used.
- EasyBudget/String+Localization.swift is not part of this model. It only wraps `Locale`, `Bundle` and `NSLocalizedString`.
