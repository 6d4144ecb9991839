/**
 * The expense tracker's controller: the state it keeps between user actions
 * (categories, expenses, income and the active month and year) and the
 * actions that change it. Rendering, storage and dialogs are not modelled;
 * the summary it renders is Budget.Summarize over this state.
 */
module ExpenseTracker {
  import opened Budget
  import Text

  /** The six categories a new controller starts with; their percentages add up to 100. */
  function DefaultCategories(): (r: seq<Category>)
    ensures IsBalanced(r) && PercentagesInRange(r) && DistinctIds(r)
  {
    var r := [ Category("custos_fixos", "Custos fixos", 30, "bg-red-500"),
               Category("conforto", "Conforto", 15, "bg-blue-500"),
               Category("metas", "Metas", 15, "bg-green-500"),
               Category("prazeres", "Prazeres", 10, "bg-pink-500"),
               Category("liberdade_financeira", "Liberdade financeira", 25, "bg-yellow-500"),
               Category("conhecimento", "Conhecimento", 5, "bg-purple-500") ];
    // Ids of equal length already differ in their second or fourth letter.
    assert r[0].id[1] != r[5].id[1] && r[1].id[3] != r[5].id[3] && r[1].id[0] != r[3].id[0];
    r
  }

  /** Why an expense was or was not added (the source shows an alert for each refusal). */
  datatype AddOutcome = Added | MissingDescription | InvalidValue

  class ExpenseController {
    var categories: seq<Category>
    var expenses: seq<Expense>
    var monthlyIncome: real
    var currentMonth: int
    var currentYear: int

    /** A fresh controller for the month and year the clock gives. */
    constructor (month: int, year: int)
      ensures categories == DefaultCategories() && expenses == []
      ensures monthlyIncome == 5000.0 && currentMonth == month && currentYear == year
    {
      categories := DefaultCategories();
      expenses := [];
      monthlyIncome := 5000.0;
      currentMonth := month;
      currentYear := year;
    }

    /** getCurrentPeriodExpenses. */
    function CurrentPeriodExpenses(): seq<Expense>
      reads this
    {
      PeriodExpenses(expenses, currentMonth, currentYear)
    }

    /** addExpense: refused when the trimmed description is empty or the
        value is not positive; otherwise one expense is appended, dated on
        today's day of the month in the active month and year (a day the
        month lacks rolls over into the next month). `id` stands for the
        clock-based id, `today` for the clock's day of the month and `value`
        for the parsed value field. */
    method AddExpense(categoryId: string, description: string, value: real, id: string, today: int)
      returns (outcome: AddOutcome)
      requires 1 <= today <= 31
      modifies this`expenses
      ensures Text.Trim(description) == [] ==>
        outcome == MissingDescription && expenses == old(expenses)
      ensures Text.Trim(description) != [] && value <= 0.0 ==>
        outcome == InvalidValue && expenses == old(expenses)
      ensures Text.Trim(description) != [] && value > 0.0 ==>
        && outcome == Added
        && expenses == old(expenses) + [Expense(id, categoryId, Text.Trim(description), value,
                                                ExpenseDate(currentYear, currentMonth, today))]
        && CurrentPeriodExpenses() == old(CurrentPeriodExpenses())
             + (if ExpenseDate(currentYear, currentMonth, today) == Period(currentYear, currentMonth)
                then [expenses[|expenses| - 1]] else [])
    {
      var trimmed := Text.Trim(description);
      if trimmed == [] {
        return MissingDescription;
      }
      if value <= 0.0 {
        return InvalidValue;
      }
      var expense := Expense(id, categoryId, trimmed, value, ExpenseDate(currentYear, currentMonth, today));
      PeriodOfAppend(expenses, expense, currentMonth, currentYear);
      expenses := expenses + [expense];
      outcome := Added;
    }

    /** deleteExpense: every expense with the id goes, the rest stay in order. */
    method DeleteExpense(expenseId: string)
      modifies this`expenses
      ensures expenses == WithoutId(old(expenses), expenseId)
      ensures forall e :: e in expenses <==> e in old(expenses) && e.id != expenseId
    {
      DeletePreservesOthers(expenses, [], expenseId);
      assert expenses + [] == expenses;
      expenses := WithoutId(expenses, expenseId);
    }

    /** clearCurrentPeriodExpenses: keeps exactly the expenses of other
        periods, in order; afterwards the active period has none. */
    method ClearCurrentPeriodExpenses()
      modifies this`expenses
      ensures expenses == OtherPeriodExpenses(old(expenses), currentMonth, currentYear)
      ensures multiset(expenses) + multiset(old(CurrentPeriodExpenses())) == multiset(old(expenses))
      ensures CurrentPeriodExpenses() == []
    {
      PeriodPartition(expenses, currentMonth, currentYear);
      expenses := OtherPeriodExpenses(expenses, currentMonth, currentYear);
    }

    /** updateCategoryPercentage: the first category with the id gets the
        value clamped to 0..100; nothing happens for an unknown id. */
    method UpdateCategoryPercentage(categoryId: string, newValue: int)
      modifies this`categories
      ensures FindCategory(old(categories), categoryId).None? ==> categories == old(categories)
      ensures FindCategory(old(categories), categoryId).Some? ==>
        var k := FindCategory(old(categories), categoryId).value;
        && categories == old(categories)[k := old(categories)[k].(percentage := Clamp(newValue))]
        && SumPercentages(categories)
             == SumPercentages(old(categories)) - old(categories)[k].percentage + Clamp(newValue)
      ensures PercentagesInRange(old(categories)) ==> PercentagesInRange(categories)
    {
      match FindCategory(categories, categoryId)
      case None =>
      case Some(k) =>
        var category := categories[k];
        SumAfterUpdate(categories, k, Clamp(newValue));
        categories := categories[k := category.(percentage := Clamp(newValue))];
    }
  }
}
