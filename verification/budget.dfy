/** The `/budget-analysis` handler.

    It sums the expense amounts, compares the savings left over with a goal
    given as a percentage of income, and groups the expenses by category,
    giving each category's total and its share of income. The grouping
    object keeps categories in the order they are first met, and a category
    seen again adds to its existing total. */
module Budget {
  import opened Common
  import opened Rounding

  /** One element of the `expenses` array. */
  datatype Expense = Expense(category: string, amount: real)

  /** The `expenses` field: an array, or anything that is not one. */
  datatype ExpensesField = Array(items: seq<Expense>) | NotArray

  /** One entry of the grouping object: a category and its running total. */
  datatype Group = Group(category: string, amount: real)

  /** `expenses.reduce((sum, expense) => sum + expense.amount, 0)`. */
  function Total(expenses: seq<Expense>): real
  {
    if |expenses| == 0 then 0.0
    else Total(expenses[..|expenses| - 1]) + expenses[|expenses| - 1].amount
  }

  /** The sum of the amounts of the expenses in one category: the reference
      the grouping is measured against. */
  function CategoryTotal(expenses: seq<Expense>, category: string): real
  {
    if |expenses| == 0 then 0.0
    else CategoryTotal(expenses[..|expenses| - 1], category)
         + (if expenses[|expenses| - 1].category == category then expenses[|expenses| - 1].amount else 0.0)
  }

  /** The categories that occur among the expenses. */
  function ExpenseCategories(expenses: seq<Expense>): set<string>
  {
    set i | 0 <= i < |expenses| :: expenses[i].category
  }

  /** The categories that have a group. */
  function GroupCategories(groups: seq<Group>): set<string>
  {
    set i | 0 <= i < |groups| :: groups[i].category
  }

  /** No category has two groups. */
  predicate Distinct(groups: seq<Group>)
  {
    forall i, j :: 0 <= i < j < |groups| ==> groups[i].category != groups[j].category
  }

  /** The total recorded for a category: that of its first group, or 0 when
      it has none. */
  function AmountOf(groups: seq<Group>, category: string): real
  {
    if |groups| == 0 then 0.0
    else if groups[0].category == category then groups[0].amount
    else AmountOf(groups[1..], category)
  }

  /** The sum of the group totals. */
  function GroupsSum(groups: seq<Group>): real
  {
    if |groups| == 0 then 0.0 else groups[0].amount + GroupsSum(groups[1..])
  }

  /** One step of the grouping `reduce`: a category already present has the
      amount added to its total in place; a new one is appended at the end,
      starting from 0. */
  function AddExpense(groups: seq<Group>, expense: Expense): (r: seq<Group>)
    ensures |r| == |groups| || |r| == |groups| + 1
    ensures forall i :: 0 <= i < |groups| ==> r[i].category == groups[i].category
    ensures |r| == |groups| + 1 <==> expense.category !in GroupCategories(groups)
    ensures |r| == |groups| + 1 ==> r[|groups|] == Group(expense.category, 0.0 + expense.amount)
    ensures GroupCategories(r) == GroupCategories(groups) + {expense.category}
  {
    if |groups| == 0 then [Group(expense.category, 0.0 + expense.amount)]
    else if groups[0].category == expense.category
    then [Group(expense.category, groups[0].amount + expense.amount)] + groups[1..]
    else
      GroupCategoriesCons(groups[0], groups[1..]);
      GroupCategoriesCons(groups[0], AddExpense(groups[1..], expense));
      assert groups == [groups[0]] + groups[1..];
      [groups[0]] + AddExpense(groups[1..], expense)
  }

  /** The categories of a list are those of its head and of its tail. */
  lemma GroupCategoriesCons(head: Group, tail: seq<Group>)
    ensures GroupCategories([head] + tail) == {head.category} + GroupCategories(tail)
  {
    var list := [head] + tail;
    forall c | c in GroupCategories(list)
      ensures c in {head.category} + GroupCategories(tail)
    {
      var i :| 0 <= i < |list| && list[i].category == c;
      if i > 0 {
        assert tail[i - 1] == list[i];
      }
    }
    forall c | c in GroupCategories(tail)
      ensures c in GroupCategories(list)
    {
      var i :| 0 <= i < |tail| && tail[i].category == c;
      assert list[i + 1] == tail[i];
    }
    assert list[0] == head;
  }

  /** `expenses.reduce(..., {})`: the grouping object, as a list of entries
      in insertion order. */
  function GroupByCategory(expenses: seq<Expense>): seq<Group>
  {
    if |expenses| == 0 then []
    else AddExpense(GroupByCategory(expenses[..|expenses| - 1]), expenses[|expenses| - 1])
  }

  /** `parseFloat(((amount / monthlyIncome) * 100).toFixed(2))`; a zero income
      gives a non-finite value, which the JSON response writes as `null`. */
  function Percentage(amount: real, income: real): (p: Option<real>)
    ensures p.None? <==> income == 0.0
    ensures p.Some? ==> p.value - amount / income * 100.0 <= 0.005 && amount / income * 100.0 - p.value <= 0.005
  {
    if income == 0.0 then None else Some(Round2(amount / income * 100.0))
  }

  /** One entry of `expenseBreakdown`. */
  datatype Share = Share(category: string, amount: real, percentage: Option<real>)

  /** The response body. */
  datatype BudgetReport = BudgetReport(
    income: real,
    totalExpenses: real,
    currentSavings: real,
    savingsRate: Option<real>,
    savingsGoal: real,
    savingsGap: real,
    meetingSavingsGoal: bool,
    expenseBreakdown: seq<Share>)

  /** The 400 response. */
  datatype BudgetError = InvalidInput

  /** The shares of income of a list of groups, in the same order. */
  function Shares(groups: seq<Group>, income: real): (shares: seq<Share>)
    ensures |shares| == |groups|
    ensures forall i :: 0 <= i < |groups| ==>
              shares[i].category == groups[i].category && shares[i].amount == groups[i].amount
              && shares[i].percentage == Percentage(groups[i].amount, income)
  {
    seq(|groups|, i requires 0 <= i < |groups| => Share(groups[i].category, groups[i].amount,
                                                         Percentage(groups[i].amount, income)))
  }

  /** The sum of the amounts of a list of shares. */
  function SharesSum(shares: seq<Share>): real
  {
    if |shares| == 0 then 0.0 else shares[0].amount + SharesSum(shares[1..])
  }

  // ---------------------------------------------------------------------------
  // The handler

  /** The two `reduce` calls, as the loops they run. */
  method SumAndGroup(expenses: seq<Expense>) returns (total: real, groups: seq<Group>)
    ensures total == Total(expenses)
    ensures groups == GroupByCategory(expenses)
  {
    total := 0.0;
    var i := 0;
    while i < |expenses|
      invariant 0 <= i <= |expenses|
      invariant total == Total(expenses[..i])
    {
      assert expenses[..i + 1][..i] == expenses[..i];
      total := total + expenses[i].amount;
      i := i + 1;
    }
    assert expenses[..i] == expenses;
    groups := [];
    i := 0;
    while i < |expenses|
      invariant 0 <= i <= |expenses|
      invariant groups == GroupByCategory(expenses[..i])
    {
      assert expenses[..i + 1][..i] == expenses[..i];
      groups := AddExpense(groups, expenses[i]);
      i := i + 1;
    }
    assert expenses[..i] == expenses;
  }

  /** `monthlyIncome * (savingsGoalPercent / 100)`. */
  function SavingsGoal(income: real, percent: real): real
  {
    income * (percent / 100.0)
  }

  method BudgetAnalysis(monthlyIncome: Field, expenses: ExpensesField, savingsGoalPercent: Field)
    returns (r: Result<BudgetReport, BudgetError>)
    ensures r.Ok? <==> monthlyIncome.Num? && expenses.Array? && savingsGoalPercent.Num?
    ensures r.Err? ==> r.error == InvalidInput
    ensures r.Ok? ==> r.value.income == monthlyIncome.value
    ensures r.Ok? ==> r.value.totalExpenses == Total(expenses.items)
    ensures r.Ok? ==> r.value.currentSavings == monthlyIncome.value - Total(expenses.items)
    ensures r.Ok? ==> r.value.savingsRate == Percentage(r.value.currentSavings, monthlyIncome.value)
    ensures r.Ok? ==> r.value.savingsGoal == SavingsGoal(monthlyIncome.value, savingsGoalPercent.value)
    ensures r.Ok? ==> r.value.savingsGap == Round2(r.value.savingsGoal - r.value.currentSavings)
    ensures r.Ok? ==> (r.value.meetingSavingsGoal <==>
                         monthlyIncome.value - Total(expenses.items) >= SavingsGoal(monthlyIncome.value, savingsGoalPercent.value))
    ensures r.Ok? ==> r.value.expenseBreakdown == Shares(GroupByCategory(expenses.items), monthlyIncome.value)
  {
    if !monthlyIncome.Num? || !expenses.Array? || !savingsGoalPercent.Num? {
      return Err(InvalidInput);
    }
    var income := monthlyIncome.value;
    var totalExpenses, expensesByCategory := SumAndGroup(expenses.items);
    var currentSavings := income - totalExpenses;
    var savingsRate := Percentage(currentSavings, income);
    var savingsGoal := SavingsGoal(income, savingsGoalPercent.value);
    var savingsGap := Round2(savingsGoal - currentSavings);
    var expensePercentages := Shares(expensesByCategory, income);
    r := Ok(BudgetReport(income, totalExpenses, currentSavings, savingsRate, savingsGoal, savingsGap,
                         currentSavings >= savingsGoal, expensePercentages));
  }

  // ---------------------------------------------------------------------------
  // Properties of the grouping

  /** Adding an expense raises its category's recorded total by its amount
      and leaves every other category's total alone. */
  lemma {:induction false} AddExpenseAmount(groups: seq<Group>, expense: Expense, category: string)
    ensures AmountOf(AddExpense(groups, expense), category)
            == AmountOf(groups, category) + (if expense.category == category then expense.amount else 0.0)
  {
    if |groups| > 0 && groups[0].category != expense.category {
      AddExpenseAmount(groups[1..], expense, category);
      assert AddExpense(groups, expense)[1..] == AddExpense(groups[1..], expense);
    }
  }

  /** Adding an expense raises the sum of the group totals by its amount. */
  lemma {:induction false} AddExpenseSum(groups: seq<Group>, expense: Expense)
    ensures GroupsSum(AddExpense(groups, expense)) == GroupsSum(groups) + expense.amount
  {
    if |groups| > 0 {
      if groups[0].category == expense.category {
        assert AddExpense(groups, expense)[1..] == groups[1..];
      } else {
        AddExpenseSum(groups[1..], expense);
        assert AddExpense(groups, expense)[1..] == AddExpense(groups[1..], expense);
      }
    }
  }

  /** The grouping lists each category once. */
  lemma {:induction false} GroupsDistinct(expenses: seq<Expense>)
    ensures Distinct(GroupByCategory(expenses))
  {
    if |expenses| > 0 {
      var before := GroupByCategory(expenses[..|expenses| - 1]);
      GroupsDistinct(expenses[..|expenses| - 1]);
      var after := AddExpense(before, expenses[|expenses| - 1]);
      forall i, j | 0 <= i < j < |after|
        ensures after[i].category != after[j].category
      {
        if j == |before| {
          assert after[i].category == before[i].category;
          assert before[i].category in GroupCategories(before);
        }
      }
    }
  }

  /** A category has a group exactly when some expense carries it. */
  lemma {:induction false} GroupsCoverCategories(expenses: seq<Expense>)
    ensures GroupCategories(GroupByCategory(expenses)) == ExpenseCategories(expenses)
  {
    if |expenses| > 0 {
      var prefix := expenses[..|expenses| - 1];
      var last := expenses[|expenses| - 1];
      GroupsCoverCategories(prefix);
      assert GroupCategories(GroupByCategory(expenses))
             == GroupCategories(GroupByCategory(prefix)) + {last.category};
      ExpenseCategoriesLast(expenses);
    }
  }

  /** The categories of a non-empty list: those before the last expense,
      and the last expense's. */
  lemma ExpenseCategoriesLast(expenses: seq<Expense>)
    requires |expenses| > 0
    ensures ExpenseCategories(expenses)
            == ExpenseCategories(expenses[..|expenses| - 1]) + {expenses[|expenses| - 1].category}
  {
    var prefix := expenses[..|expenses| - 1];
    forall c | c in ExpenseCategories(expenses)
      ensures c in ExpenseCategories(prefix) + {expenses[|expenses| - 1].category}
    {
      var i :| 0 <= i < |expenses| && expenses[i].category == c;
      if i < |prefix| {
        assert prefix[i] == expenses[i];
      }
    }
    forall c | c in ExpenseCategories(prefix)
      ensures c in ExpenseCategories(expenses)
    {
      var i :| 0 <= i < |prefix| && prefix[i].category == c;
      assert expenses[i] == prefix[i];
    }
  }

  /** Each category's grouped amount is the sum of that category's expenses. */
  lemma {:induction false} GroupAmountIsCategoryTotal(expenses: seq<Expense>, category: string)
    ensures AmountOf(GroupByCategory(expenses), category) == CategoryTotal(expenses, category)
  {
    if |expenses| > 0 {
      GroupAmountIsCategoryTotal(expenses[..|expenses| - 1], category);
      AddExpenseAmount(GroupByCategory(expenses[..|expenses| - 1]), expenses[|expenses| - 1], category);
    }
  }

  /** The grouped amounts add up to `totalExpenses`. */
  lemma {:induction false} GroupsSumIsTotal(expenses: seq<Expense>)
    ensures GroupsSum(GroupByCategory(expenses)) == Total(expenses)
  {
    if |expenses| > 0 {
      GroupsSumIsTotal(expenses[..|expenses| - 1]);
      AddExpenseSum(GroupByCategory(expenses[..|expenses| - 1]), expenses[|expenses| - 1]);
    }
  }

  /** In a list with one group per category, the first group of a category
      is its only group. */
  lemma {:induction false} AmountOfDistinct(groups: seq<Group>, i: nat)
    requires Distinct(groups) && i < |groups|
    ensures AmountOf(groups, groups[i].category) == groups[i].amount
  {
    if i > 0 {
      assert groups[0].category != groups[i].category;
      AmountOfDistinct(groups[1..], i - 1);
    }
  }

  /** The shares carry the group totals, so they also add up to the total. */
  lemma {:induction false} SharesSumIsGroupsSum(groups: seq<Group>, income: real)
    ensures SharesSum(Shares(groups, income)) == GroupsSum(groups)
  {
    if |groups| > 0 {
      SharesSumIsGroupsSum(groups[1..], income);
      assert Shares(groups, income)[1..] == Shares(groups[1..], income);
    }
  }

  /** What the breakdown of a successful response says about the expenses:
      one entry per category that occurs, each with that category's sum and
      its share of income, and amounts that add up to `totalExpenses`. */
  lemma Breakdown(expenses: seq<Expense>, income: real)
    ensures var shares := Shares(GroupByCategory(expenses), income);
            && (forall i, j :: 0 <= i < j < |shares| ==> shares[i].category != shares[j].category)
            && (set i | 0 <= i < |shares| :: shares[i].category) == ExpenseCategories(expenses)
            && (forall i :: 0 <= i < |shares| ==>
                  shares[i].amount == CategoryTotal(expenses, shares[i].category)
                  && shares[i].percentage == Percentage(CategoryTotal(expenses, shares[i].category), income))
            && SharesSum(shares) == Total(expenses)
  {
    var groups := GroupByCategory(expenses);
    var shares := Shares(groups, income);
    GroupsDistinct(expenses);
    GroupsCoverCategories(expenses);
    assert (set i | 0 <= i < |shares| :: shares[i].category) == GroupCategories(groups);
    forall i | 0 <= i < |shares|
      ensures shares[i].amount == CategoryTotal(expenses, shares[i].category)
    {
      AmountOfDistinct(groups, i);
      GroupAmountIsCategoryTotal(expenses, groups[i].category);
    }
    SharesSumIsGroupsSum(groups, income);
    GroupsSumIsTotal(expenses);
  }
}
