/**
 * The expense tracker (components/ExpensesView.tsx, recording through
 * App.tsx): recording an expense, the spend totals, and the list of expense
 * categories a user may extend and prune.
 */
module Expenses {
  import opened Wrappers
  import opened Types
  import opened Text
  import opened Seqs

  /** The categories the application starts with. */
  const DefaultCategories: seq<string> := ["Operational", "Utilities", "Marketing", "Salaries", "Maintenance", "Rent", "Logistics"]

  /** The form of the "Record Expense" dialog; the amount has already gone through `Number`. */
  datatype ExpenseForm = ExpenseForm(title: string, category: string, amount: real, note: string, isRecurring: bool)

  /** `categories[0] || 'Operational'` */
  function FirstCategory(categories: seq<string>): (r: string)
    ensures r != ""
    ensures |categories| > 0 && categories[0] != "" ==> r == categories[0]
    ensures |categories| == 0 || categories[0] == "" ==> r == "Operational"
  {
    OrElse(if |categories| > 0 then categories[0] else "", "Operational")
  }

  /** The empty form the dialog opens with and returns to after a save. */
  function BlankForm(categories: seq<string>): ExpenseForm {
    ExpenseForm("", FirstCategory(categories), 0.0, "", false)
  }

  /**
   * `handleSubmit` together with the shell's `onAddExpense`: a form without a
   * title or with a zero amount is ignored; otherwise the new expense goes in
   * front of the list and the form is reset.
   */
  function SubmitExpense(expenses: seq<Expense>, form: ExpenseForm, categories: seq<string>, now: nat)
    : (r: (seq<Expense>, ExpenseForm))
    ensures form.title == "" || form.amount == 0.0 ==> r == (expenses, form)
    ensures form.title != "" && form.amount != 0.0 ==>
      |r.0| == |expenses| + 1 && r.0[1..] == expenses && r.1 == BlankForm(categories) &&
      var e := r.0[0];
      e.id == "e-" + NatToString(now) && e.date == now &&
      e.title == form.title && e.amount == form.amount && e.note == form.note &&
      e.isRecurring == Some(form.isRecurring) &&
      e.category == (if form.category == "" then FirstCategory(categories) else form.category)
  {
    if form.title == "" || form.amount == 0.0 then (expenses, form)
    else
      var e := Expense("e-" + NatToString(now), form.title, OrElse(form.category, FirstCategory(categories)),
                       form.amount, now, form.note, Some(form.isRecurring));
      ([e] + expenses, BlankForm(categories))
  }

  function Amount(e: Expense): real { e.amount }

  predicate Recurring(e: Expense) { e.isRecurring == Some(true) }

  /** "Total Periodic Spend": the sum of all amounts. */
  function TotalSpend(expenses: seq<Expense>): real {
    SumBy(expenses, Amount)
  }

  /** "Fixed Monthly Burn": the sum of the recurring expenses' amounts. */
  function RecurringSpend(expenses: seq<Expense>): real {
    SumBy(Filter(expenses, Recurring), Amount)
  }

  /** Recording an expense adds its amount to the total, and to the fixed burn exactly when it recurs. */
  lemma SubmitAddsToSpend(expenses: seq<Expense>, form: ExpenseForm, categories: seq<string>, now: nat)
    requires form.title != "" && form.amount != 0.0
    ensures var es := SubmitExpense(expenses, form, categories, now).0;
      TotalSpend(es) == TotalSpend(expenses) + form.amount &&
      RecurringSpend(es) == RecurringSpend(expenses) + (if form.isRecurring then form.amount else 0.0)
  {
    var es := SubmitExpense(expenses, form, categories, now).0;
    assert es == [es[0]] + expenses;
    FilterAppend([es[0]], expenses, Recurring);
    SumByAppend(Filter([es[0]], Recurring), Filter(expenses, Recurring), Amount);
  }

  /** With no negative amounts, the fixed burn is at most the total spend. */
  lemma RecurringWithinTotal(expenses: seq<Expense>)
    requires forall i | 0 <= i < |expenses| :: expenses[i].amount >= 0.0
    ensures 0.0 <= RecurringSpend(expenses) <= TotalSpend(expenses)
  {
    var p := Recurring;
    var q := (e: Expense) => !Recurring(e);
    SumByPartition(expenses, Amount, p, q);
    var once := Filter(expenses, q);
    var fixed := Filter(expenses, p);
    assert forall i | 0 <= i < |once| :: once[i] in expenses;
    assert forall i | 0 <= i < |fixed| :: fixed[i] in expenses;
    SumByNonNeg(once, Amount);
    SumByNonNeg(fixed, Amount);
  }

  ghost predicate Distinct(categories: seq<string>) {
    forall i, j | 0 <= i < j < |categories| :: categories[i] != categories[j]
  }

  /** A usable category list: at least one entry, no blanks, no repeats. */
  ghost predicate ValidCategories(categories: seq<string>) {
    |categories| >= 1 && Distinct(categories) && forall i | 0 <= i < |categories| :: Trim(categories[i]) != ""
  }

  lemma DefaultCategoriesValid()
    ensures ValidCategories(DefaultCategories)
  {
    assert Distinct(DefaultCategories) by {
      assert forall i, j | 0 <= i < j < |DefaultCategories| :: DefaultCategories[i] != DefaultCategories[j];
    }
    forall i | 0 <= i < |DefaultCategories|
      ensures Trim(DefaultCategories[i]) != ""
    {
      TrimKeepsTrimmed(DefaultCategories[i]);
    }
  }

  /**
   * `handleAddCategory`: the typed name is trimmed; a blank name or one
   * already in the list is refused, any other is appended.
   */
  function AddCategory(categories: seq<string>, input: string): (r: seq<string>)
    ensures Trim(input) == "" || Trim(input) in categories ==> r == categories
    ensures Trim(input) != "" && Trim(input) !in categories ==> r == categories + [Trim(input)]
    ensures Trim(input) in r || Trim(input) == ""
  {
    var name := Trim(input);
    if name == "" || name in categories then categories else categories + [name]
  }

  function OtherCategory(cat: string): string -> bool {
    (c: string) => c != cat
  }

  /**
   * `handleDeleteCategory`: the last category cannot be deleted; otherwise
   * every entry equal to `cat` goes and the others stay in their order.
   */
  function DeleteCategory(categories: seq<string>, cat: string): (r: seq<string>)
    ensures |categories| <= 1 ==> r == categories
    ensures |categories| > 1 ==> Filtered(r, categories, OtherCategory(cat))
    ensures |categories| > 1 ==> cat !in r
    ensures forall c | c in r :: c in categories
    ensures forall c | c in categories && (c != cat || |categories| <= 1) :: c in r
  {
    FilterIsFiltered(categories, OtherCategory(cat));
    if |categories| <= 1 then categories else Filter(categories, OtherCategory(cat))
  }

  /** Adding a category keeps the list usable. */
  lemma AddCategoryKeepsValid(categories: seq<string>, input: string)
    requires ValidCategories(categories)
    ensures ValidCategories(AddCategory(categories, input))
  {
    var name := Trim(input);
    if name != "" && name !in categories {
      TrimIdempotent(input);
      AppendKeepsValid(categories, name);
    }
  }

  lemma AppendKeepsValid(categories: seq<string>, name: string)
    requires ValidCategories(categories) && Trim(name) != "" && name !in categories
    ensures ValidCategories(categories + [name])
  {
    var r := categories + [name];
    forall i, j | 0 <= i < j < |r| ensures r[i] != r[j] {
      assert r[i] == categories[i];
      if j < |categories| {
        assert r[j] == categories[j];
      }
    }
    forall i | 0 <= i < |r| ensures Trim(r[i]) != "" {
      if i < |categories| {
        assert r[i] == categories[i];
      }
    }
  }

  /** In a list without repeats, deleting a listed category removes exactly one entry, so one always remains. */
  lemma {:induction false} DeleteRemovesOne(categories: seq<string>, cat: string)
    requires Distinct(categories)
    ensures |Filter(categories, OtherCategory(cat))| == if cat in categories then |categories| - 1 else |categories|
  {
    if |categories| > 0 {
      assert Distinct(categories[1..]);
      DeleteRemovesOne(categories[1..], cat);
      if categories[0] == cat {
        assert cat !in categories[1..];
      }
    }
  }

  lemma {:induction false} FilterKeepsDistinct(categories: seq<string>, cat: string)
    requires Distinct(categories)
    ensures Distinct(Filter(categories, OtherCategory(cat)))
  {
    if |categories| > 0 {
      assert Distinct(categories[1..]);
      FilterKeepsDistinct(categories[1..], cat);
      var rest := Filter(categories[1..], OtherCategory(cat));
      assert categories[0] !in rest;
    }
  }

  /** Deleting a category keeps the list usable. */
  lemma DeleteCategoryKeepsValid(categories: seq<string>, cat: string)
    requires ValidCategories(categories)
    ensures ValidCategories(DeleteCategory(categories, cat))
  {
    if |categories| > 1 {
      DeleteRemovesOne(categories, cat);
      FilterKeepsDistinct(categories, cat);
      var r := Filter(categories, OtherCategory(cat));
      forall i | 0 <= i < |r| ensures Trim(r[i]) != "" {
        var j :| 0 <= j < |categories| && categories[j] == r[i];
      }
      assert DeleteCategory(categories, cat) == r;
    }
  }

  /** In a list without repeats, deleting the category at position `k` removes just that entry. */
  lemma DeleteCategoryAt(categories: seq<string>, k: nat)
    requires Distinct(categories) && |categories| > 1 && k < |categories|
    ensures DeleteCategory(categories, categories[k]) == categories[..k] + categories[k + 1..]
  {
    FilterDropsOne(categories, k, OtherCategory(categories[k]));
  }

  /** Without the no-repeats rule the guard is not enough: two copies of one name can both go. */
  lemma RepeatedCategoryEmptiesList()
    ensures DeleteCategory(["Rent", "Rent"], "Rent") == []
  {
  }

  /** Deleting a category just added gives back the previous list. */
  lemma AddThenDeleteCategory(categories: seq<string>, input: string)
    requires |categories| >= 1 && Trim(input) != "" && Trim(input) !in categories
    ensures DeleteCategory(AddCategory(categories, input), Trim(input)) == categories
  {
    var name := Trim(input);
    var p := OtherCategory(name);
    FilterAppend(categories, [name], p);
    FilterAll(categories, p);
  }
}
