/**
 * The budget side of the expense tracker: monthly income split across
 * categories by percentage, expenses filtered to the active month and year,
 * and the per-category and total summary (allocation, spent, utilisation,
 * remaining).
 *
 * Money is modelled as `real`; an expense's date is abstracted to the
 * (year, month) it falls in.
 */
module Budget {
  import opened Wrappers


  /** A calendar month: the only part of an expense's date the tracker reads. */
  datatype Period = Period(year: int, month: int)

  datatype Category = Category(id: string, name: string, percentage: int, color: string)

  datatype Expense = Expense(id: string, categoryId: string, description: string,
                             value: real, date: Period)

  /** One line of the summary table. */
  datatype CategorySummary = CategorySummary(category: Category, allocation: real, spent: real,
                                             utilization: real, remaining: real)

  /** The summary table's totals line. */
  datatype Totals = Totals(spent: real, allocation: real, utilization: real, remaining: real)

  // ---------------------------------------------------------------------------
  // Filtering
  // ---------------------------------------------------------------------------

  /** The elements of `s` that satisfy `p`, in their original order. */
  function Filter<T>(p: T -> bool, s: seq<T>): seq<T>
  {
    if s == [] then [] else (if p(s[0]) then [s[0]] else []) + Filter(p, s[1..])
  }

  lemma {:induction false} FilterMembers<T>(p: T -> bool, s: seq<T>)
    ensures forall x :: x in Filter(p, s) <==> x in s && p(x)
  {
    if s != [] {
      FilterMembers(p, s[1..]);
      assert s == [s[0]] + s[1..];
    }
  }

  /** Filtering commutes with concatenation, which is what keeps the order. */
  lemma {:induction false} FilterConcat<T>(p: T -> bool, a: seq<T>, b: seq<T>)
    ensures Filter(p, a + b) == Filter(p, a) + Filter(p, b)
  {
    if a != [] {
      assert (a + b)[0] == a[0];
      assert (a + b)[1..] == a[1..] + b;
      FilterConcat(p, a[1..], b);
      var head := if p(a[0]) then [a[0]] else [];
      assert Filter(p, a + b) == head + Filter(p, a[1..] + b);
      assert Filter(p, a) == head + Filter(p, a[1..]);
    } else {
      assert a + b == b;
    }
  }

  /** Filtering with a predicate and with its negation splits `s` in two. */
  lemma {:induction false} FilterSplit<T>(p: T -> bool, q: T -> bool, s: seq<T>)
    requires forall x :: q(x) == !p(x)
    ensures multiset(Filter(p, s)) + multiset(Filter(q, s)) == multiset(s)
    ensures |Filter(p, s)| + |Filter(q, s)| == |s|
  {
    if s != [] {
      FilterSplit(p, q, s[1..]);
      assert s == [s[0]] + s[1..];
    }
  }

  lemma {:induction false} FilterAll<T>(p: T -> bool, s: seq<T>)
    requires forall i :: 0 <= i < |s| ==> p(s[i])
    ensures Filter(p, s) == s
  {
    if s != [] {
      FilterAll(p, s[1..]);
      assert s == [s[0]] + s[1..];
    }
  }

  lemma {:induction false} FilterNone<T>(p: T -> bool, s: seq<T>)
    requires forall i :: 0 <= i < |s| ==> !p(s[i])
    ensures Filter(p, s) == []
  {
    if s != [] {
      FilterNone(p, s[1..]);
    }
  }

  /** The sum of the expenses' values, as `reduce((sum, e) => sum + e.value, 0)`. */
  function SumValues(s: seq<Expense>): real
  {
    if s == [] then 0.0 else s[0].value + SumValues(s[1..])
  }

  lemma {:induction false} SumValuesConcat(a: seq<Expense>, b: seq<Expense>)
    ensures SumValues(a + b) == SumValues(a) + SumValues(b)
  {
    if a != [] {
      assert (a + b)[0] == a[0];
      assert (a + b)[1..] == a[1..] + b;
      SumValuesConcat(a[1..], b);
      assert SumValues(a + b) == a[0].value + SumValues(a[1..] + b);
    } else {
      assert a + b == b;
    }
  }

  // ---------------------------------------------------------------------------
  // The active period
  // ---------------------------------------------------------------------------

  predicate InPeriod(e: Expense, month: int, year: int)
  {
    e.date.month == month && e.date.year == year
  }

  function InPeriodTest(month: int, year: int): Expense -> bool
  {
    (e: Expense) => InPeriod(e, month, year)
  }

  // ---------------------------------------------------------------------------
  // Dating a new expense
  // ---------------------------------------------------------------------------

  /** A leap year of the Gregorian calendar that JavaScript's Date uses. */
  predicate IsLeapYear(year: int)
  {
    (year % 4 == 0 && year % 100 != 0) || year % 400 == 0
  }

  /** The number of days of a month. */
  function DaysIn(year: int, month: int): (d: int)
    requires 1 <= month <= 12
    ensures 28 <= d <= 31
    ensures month == 12 ==> d == 31
    ensures month == 2 ==> (d == 29 <==> IsLeapYear(year))
  {
    if month == 2 then (if IsLeapYear(year) then 29 else 28)
    else if month == 4 || month == 6 || month == 9 || month == 11 then 30
    else 31
  }

  /** The month and year of `new Date(year, month - 1, day)` for a day of the
      month: a month outside 1..12 carries into the year, and a day past the
      end of the month moves the date into the following month. */
  function ExpenseDate(year: int, month: int, day: int): (p: Period)
    requires 1 <= day <= 31
    ensures 1 <= p.month <= 12
  {
    var y := year + (month - 1) / 12;
    var m := (month - 1) % 12 + 1;
    if day <= DaysIn(y, m) then Period(y, m) else Period(y, m + 1)
  }

  /** In a month 1..12 a new expense keeps the month exactly when the day
      exists in it; otherwise it lands in the next month of the same year. */
  lemma ExpenseDateInMonth(year: int, month: int, day: int)
    requires 1 <= month <= 12 && 1 <= day <= 31
    ensures ExpenseDate(year, month, day) == Period(year, month) <==> day <= DaysIn(year, month)
    ensures day > DaysIn(year, month) ==>
      month < 12 && ExpenseDate(year, month, day) == Period(year, month + 1)
    ensures day <= 28 ==> ExpenseDate(year, month, day) == Period(year, month)
  {
    assert (month - 1) / 12 == 0 && (month - 1) % 12 == month - 1;
  }

  /** February 2026 has 28 days: an expense added on the 30th is dated in March. */
  lemma FebruaryRollover()
    ensures ExpenseDate(2026, 2, 30) == Period(2026, 3)
    ensures ExpenseDate(2024, 2, 29) == Period(2024, 2)
  {
    ExpenseDateInMonth(2026, 2, 30);
    ExpenseDateInMonth(2024, 2, 29);
  }

  function OutsidePeriodTest(month: int, year: int): Expense -> bool
  {
    (e: Expense) => !InPeriod(e, month, year)
  }

  /** getCurrentPeriodExpenses: the expenses dated in the given month and year. */
  function PeriodExpenses(expenses: seq<Expense>, month: int, year: int): (r: seq<Expense>)
    ensures forall e :: e in r <==> e in expenses && InPeriod(e, month, year)
  {
    FilterMembers(InPeriodTest(month, year), expenses);
    Filter(InPeriodTest(month, year), expenses)
  }

  /** What clearing the period keeps: the expenses dated in any other month or year. */
  function OtherPeriodExpenses(expenses: seq<Expense>, month: int, year: int): seq<Expense>
  {
    Filter(OutsidePeriodTest(month, year), expenses)
  }

  function WithoutIdTest(id: string): Expense -> bool
  {
    (e: Expense) => e.id != id
  }

  /** What deleting an id keeps: every expense with another id. */
  function WithoutId(expenses: seq<Expense>, id: string): seq<Expense>
  {
    Filter(WithoutIdTest(id), expenses)
  }

  /** The expenses of the period and those kept by clearing it partition the
      list: each expense is in exactly one of them, and clearing leaves
      nothing in the period. */
  lemma PeriodPartition(expenses: seq<Expense>, month: int, year: int)
    ensures multiset(PeriodExpenses(expenses, month, year))
              + multiset(OtherPeriodExpenses(expenses, month, year)) == multiset(expenses)
    ensures forall e :: e in PeriodExpenses(expenses, month, year) <==>
                          e in expenses && InPeriod(e, month, year)
    ensures forall e :: e in OtherPeriodExpenses(expenses, month, year) <==>
                          e in expenses && !InPeriod(e, month, year)
    ensures PeriodExpenses(OtherPeriodExpenses(expenses, month, year), month, year) == []
  {
    FilterSplit(InPeriodTest(month, year), OutsidePeriodTest(month, year), expenses);
    FilterMembers(InPeriodTest(month, year), expenses);
    var kept := OtherPeriodExpenses(expenses, month, year);
    FilterMembers(OutsidePeriodTest(month, year), expenses);
    assert forall i :: 0 <= i < |kept| ==> kept[i] in kept;
    FilterNone(InPeriodTest(month, year), kept);
  }

  /** An expense added to the period shows up at the end of the period's list;
      one dated elsewhere does not change it. */
  lemma PeriodOfAppend(expenses: seq<Expense>, e: Expense, month: int, year: int)
    ensures PeriodExpenses(expenses + [e], month, year)
      == PeriodExpenses(expenses, month, year) + (if InPeriod(e, month, year) then [e] else [])
  {
    FilterConcat(InPeriodTest(month, year), expenses, [e]);
    assert Filter(InPeriodTest(month, year), [e])
      == (if InPeriod(e, month, year) then [e] else []) + Filter(InPeriodTest(month, year), []);
  }

  /** An expense dated outside the period, wherever it sits in the list,
      never reaches the period's list. */
  lemma OtherPeriodIgnored(a: seq<Expense>, e: Expense, b: seq<Expense>, month: int, year: int)
    requires !InPeriod(e, month, year)
    ensures PeriodExpenses(a + [e] + b, month, year) == PeriodExpenses(a + b, month, year)
  {
    var p := InPeriodTest(month, year);
    FilterConcat(p, a + [e], b);
    FilterConcat(p, a, [e]);
    FilterConcat(p, a, b);
    assert Filter(p, [e]) == [] + Filter(p, []);
  }

  /** Deleting an id removes every expense with it and keeps the others in order. */
  lemma DeletePreservesOthers(a: seq<Expense>, b: seq<Expense>, id: string)
    ensures forall e :: e in WithoutId(a + b, id) <==> e in a + b && e.id != id
    ensures WithoutId(a + b, id) == WithoutId(a, id) + WithoutId(b, id)
    ensures (forall i :: 0 <= i < |a| ==> a[i].id != id) ==> WithoutId(a, id) == a
  {
    FilterMembers(WithoutIdTest(id), a + b);
    FilterConcat(WithoutIdTest(id), a, b);
    if forall i :: 0 <= i < |a| ==> a[i].id != id {
      FilterAll(WithoutIdTest(id), a);
    }
  }

  // ---------------------------------------------------------------------------
  // Per-category figures
  // ---------------------------------------------------------------------------

  /** What a category should receive: income times its percentage over 100. */
  function Allocated(income: real, percentage: int): real
  {
    income * (percentage as real) / 100.0
  }

  function OfCategoryTest(categoryId: string): Expense -> bool
  {
    (e: Expense) => e.categoryId == categoryId
  }

  /** What was spent in a category: the values of its expenses added up. */
  function Spent(expenses: seq<Expense>, categoryId: string): real
  {
    SumValues(Filter(OfCategoryTest(categoryId), expenses))
  }

  /** Spent as a percentage of allocation, defined as 0 when nothing is allocated. */
  function Utilization(spent: real, allocation: real): real
  {
    if allocation > 0.0 then spent / allocation * 100.0 else 0.0
  }

  function Summary(income: real, c: Category, current: seq<Expense>): CategorySummary
  {
    var allocation := Allocated(income, c.percentage);
    var spent := Spent(current, c.id);
    CategorySummary(c, allocation, spent, Utilization(spent, allocation), allocation - spent)
  }

  /** The running totals of the summary loop, over the categories in order. */
  function TotalSpent(categories: seq<Category>, current: seq<Expense>): real
  {
    if categories == [] then 0.0
    else TotalSpent(categories[..|categories| - 1], current)
         + Spent(current, categories[|categories| - 1].id)
  }

  function TotalAllocated(income: real, categories: seq<Category>): real
  {
    if categories == [] then 0.0
    else TotalAllocated(income, categories[..|categories| - 1])
         + Allocated(income, categories[|categories| - 1].percentage)
  }

  /** The sum of the per-category remaining amounts. */
  function TotalRemaining(income: real, categories: seq<Category>, current: seq<Expense>): real
  {
    if categories == [] then 0.0
    else TotalRemaining(income, categories[..|categories| - 1], current)
         + Summary(income, categories[|categories| - 1], current).remaining
  }

  /** renderResumo: one summary line per category, in the categories' order,
      over the expenses of the active period, with the totals accumulated
      along the way. */
  method Summarize(income: real, categories: seq<Category>, expenses: seq<Expense>,
                   month: int, year: int)
    returns (summaries: seq<CategorySummary>, totals: Totals)
    ensures |summaries| == |categories|
    ensures forall i :: 0 <= i < |categories| ==>
      summaries[i] == Summary(income, categories[i], PeriodExpenses(expenses, month, year))
    ensures forall i :: 0 <= i < |categories| ==>
      && summaries[i].category == categories[i]
      && summaries[i].allocation == income * (categories[i].percentage as real) / 100.0
      && summaries[i].remaining == summaries[i].allocation - summaries[i].spent
      && (summaries[i].allocation > 0.0 ==>
            summaries[i].utilization == summaries[i].spent / summaries[i].allocation * 100.0)
      && (summaries[i].allocation <= 0.0 ==> summaries[i].utilization == 0.0)
    ensures totals.spent == TotalSpent(categories, PeriodExpenses(expenses, month, year))
    ensures totals.allocation == TotalAllocated(income, categories)
    ensures totals.allocation > 0.0 ==> totals.utilization == totals.spent / totals.allocation * 100.0
    ensures totals.allocation <= 0.0 ==> totals.utilization == 0.0
    ensures totals.remaining == totals.allocation - totals.spent
  {
    var current := PeriodExpenses(expenses, month, year);
    var totalSpent := 0.0;
    var totalAllocated := 0.0;
    summaries := [];
    var i := 0;
    while i < |categories|
      invariant 0 <= i <= |categories|
      invariant |summaries| == i
      invariant forall k :: 0 <= k < i ==> summaries[k] == Summary(income, categories[k], current)
      invariant totalSpent == TotalSpent(categories[..i], current)
      invariant totalAllocated == TotalAllocated(income, categories[..i])
    {
      var c := categories[i];
      var allocation := income * (c.percentage as real) / 100.0;
      var spent := SumValues(Filter(OfCategoryTest(c.id), current));
      var utilization := if allocation > 0.0 then spent / allocation * 100.0 else 0.0;
      var remaining := allocation - spent;
      totalSpent := totalSpent + spent;
      totalAllocated := totalAllocated + allocation;
      assert CategorySummary(c, allocation, spent, utilization, remaining) == Summary(income, c, current);
      summaries := summaries + [CategorySummary(c, allocation, spent, utilization, remaining)];
      assert categories[..i + 1][..i] == categories[..i];
      assert TotalSpent(categories[..i + 1], current) == TotalSpent(categories[..i], current) + spent;
      assert TotalAllocated(income, categories[..i + 1])
        == TotalAllocated(income, categories[..i]) + allocation;
      i := i + 1;
    }
    assert categories[..i] == categories;
    SummaryLines(income, categories, current, summaries);
    var utilization := if totalAllocated > 0.0 then totalSpent / totalAllocated * 100.0 else 0.0;
    totals := Totals(totalSpent, totalAllocated, utilization, totalAllocated - totalSpent);
  }

  /** What each field of the summary lines means. */
  lemma SummaryLines(income: real, categories: seq<Category>, current: seq<Expense>,
                     summaries: seq<CategorySummary>)
    requires |summaries| == |categories|
    requires forall i :: 0 <= i < |categories| ==> summaries[i] == Summary(income, categories[i], current)
    ensures forall i :: 0 <= i < |categories| ==>
      && summaries[i].category == categories[i]
      && summaries[i].allocation == income * (categories[i].percentage as real) / 100.0
      && summaries[i].remaining == summaries[i].allocation - summaries[i].spent
      && (summaries[i].allocation > 0.0 ==>
            summaries[i].utilization == summaries[i].spent / summaries[i].allocation * 100.0)
      && (summaries[i].allocation <= 0.0 ==> summaries[i].utilization == 0.0)
  {
    forall k | 0 <= k < |categories|
      ensures summaries[k].category == categories[k]
      ensures summaries[k].allocation == income * (categories[k].percentage as real) / 100.0
      ensures summaries[k].remaining == summaries[k].allocation - summaries[k].spent
      ensures summaries[k].allocation > 0.0 ==>
        summaries[k].utilization == summaries[k].spent / summaries[k].allocation * 100.0
      ensures summaries[k].allocation <= 0.0 ==> summaries[k].utilization == 0.0
    {
      SummaryMeaning(income, categories[k], current);
    }
  }

  /** What each field of a summary line means. */
  lemma SummaryMeaning(income: real, c: Category, current: seq<Expense>)
    ensures var line := Summary(income, c, current);
      && line.category == c
      && line.allocation == income * (c.percentage as real) / 100.0
      && line.spent == Spent(current, c.id)
      && line.remaining == line.allocation - line.spent
      && (line.allocation > 0.0 ==> line.utilization == line.spent / line.allocation * 100.0)
      && (line.allocation <= 0.0 ==> line.utilization == 0.0)
  {
  }

  /** The totals line's remaining amount is the sum of the lines' remaining amounts. */
  lemma {:induction false} TotalRemainingIsDifference(income: real, categories: seq<Category>,
                                                      current: seq<Expense>)
    ensures TotalRemaining(income, categories, current)
      == TotalAllocated(income, categories) - TotalSpent(categories, current)
  {
    if categories != [] {
      TotalRemainingIsDifference(income, categories[..|categories| - 1], current);
    }
  }

  /** A category with percentage 0 is allocated nothing and shows 0% used,
      whatever was spent in it. */
  lemma ZeroPercentageCategory(income: real, c: Category, current: seq<Expense>)
    requires c.percentage == 0
    ensures Summary(income, c, current).allocation == 0.0
    ensures Summary(income, c, current).utilization == 0.0
    ensures Summary(income, c, current).remaining == -Spent(current, c.id)
  {
  }

  /** With something allocated, a category is over budget (more than 100%
      used) exactly when it spent more than it was allocated. */
  lemma OverBudgetExactly(spent: real, allocation: real)
    requires allocation > 0.0
    ensures Utilization(spent, allocation) > 100.0 <==> spent > allocation
    ensures Utilization(spent, allocation) == 100.0 <==> spent == allocation
  {
    var u := Utilization(spent, allocation);
    assert u * allocation == spent * 100.0;
  }

  /** Income 5000 split 30/70 with no expenses: 1500 and 3500 allocated,
      nothing spent, everything remaining. */
  lemma SplitExample(current: seq<Expense>)
    requires current == []
    ensures var c1 := Category("a", "A", 30, ""); var c2 := Category("b", "B", 70, "");
      && Summary(5000.0, c1, current).allocation == 1500.0
      && Summary(5000.0, c2, current).allocation == 3500.0
      && Summary(5000.0, c1, current).spent == 0.0
      && Summary(5000.0, c2, current).spent == 0.0
      && Summary(5000.0, c1, current).remaining == 1500.0
      && Summary(5000.0, c2, current).remaining == 3500.0
  {
  }

  // ---------------------------------------------------------------------------
  // Unknown categories
  // ---------------------------------------------------------------------------

  function Ids(categories: seq<Category>): set<string>
  {
    set c | c in categories :: c.id
  }

  predicate DistinctIds(categories: seq<Category>)
  {
    forall i, j :: 0 <= i < j < |categories| ==> categories[i].id != categories[j].id
  }

  /** An expense whose category is unknown, wherever it sits in the list,
      changes no summary line and no total. */
  lemma OrphanExpenseIgnored(income: real, categories: seq<Category>,
                             a: seq<Expense>, e: Expense, b: seq<Expense>)
    requires e.categoryId !in Ids(categories)
    ensures forall i :: 0 <= i < |categories| ==>
      Summary(income, categories[i], a + [e] + b) == Summary(income, categories[i], a + b)
    ensures TotalSpent(categories, a + [e] + b) == TotalSpent(categories, a + b)
  {
    forall c | c in categories
      ensures Spent(a + [e] + b, c.id) == Spent(a + b, c.id)
    {
      OrphanSpent(a, e, b, c.id);
    }
    OrphanTotal(categories, a, e, b);
  }

  lemma OrphanSpent(a: seq<Expense>, e: Expense, b: seq<Expense>, id: string)
    requires e.categoryId != id
    ensures Spent(a + [e] + b, id) == Spent(a + b, id)
  {
    var p := OfCategoryTest(id);
    FilterConcat(p, a + [e], b);
    FilterConcat(p, a, [e]);
    FilterConcat(p, a, b);
    assert !p(e);
    assert Filter(p, [e]) == [] + Filter(p, []);
    assert Filter(p, a + [e] + b) == Filter(p, a + b);
  }

  lemma {:induction false} OrphanTotal(categories: seq<Category>,
                                       a: seq<Expense>, e: Expense, b: seq<Expense>)
    requires e.categoryId !in Ids(categories)
    ensures TotalSpent(categories, a + [e] + b) == TotalSpent(categories, a + b)
  {
    if categories != [] {
      var init := categories[..|categories| - 1];
      var last := categories[|categories| - 1];
      assert Ids(init) <= Ids(categories) by {
        forall c | c in init ensures c in categories { }
      }
      assert last in categories;
      OrphanTotal(init, a, e, b);
      OrphanSpent(a, e, b, last.id);
    }
  }

  function KnownCategoryTest(ids: set<string>): Expense -> bool
  {
    (e: Expense) => e.categoryId in ids
  }

  /** With distinct category ids, the total spent is the sum of exactly the
      expenses whose category exists: each counts once, orphans not at all. */
  lemma {:induction false} TotalSpentIsKnownSpending(categories: seq<Category>, current: seq<Expense>)
    requires DistinctIds(categories)
    ensures TotalSpent(categories, current)
      == SumValues(Filter(KnownCategoryTest(Ids(categories)), current))
  {
    if categories == [] {
      assert Ids(categories) == {};
      NoneKnown(current);
    } else {
      var init := categories[..|categories| - 1];
      var last := categories[|categories| - 1];
      assert DistinctIds(init);
      TotalSpentIsKnownSpending(init, current);
      assert Ids(categories) == Ids(init) + {last.id} by {
        assert categories == init + [last];
      }
      assert last.id !in Ids(init);
      KnownSplit(Ids(init), last.id, current);
    }
  }

  lemma {:induction false} NoneKnown(s: seq<Expense>)
    ensures SumValues(Filter(KnownCategoryTest({}), s)) == 0.0
  {
    if s != [] {
      NoneKnown(s[1..]);
      assert !KnownCategoryTest({})(s[0]);
      assert Filter(KnownCategoryTest({}), s) == Filter(KnownCategoryTest({}), s[1..]);
    }
  }

  /** Summing the expenses of one more category adds that category's spending. */
  lemma {:induction false} KnownSplit(ids: set<string>, id: string, s: seq<Expense>)
    requires id !in ids
    ensures SumValues(Filter(KnownCategoryTest(ids + {id}), s))
      == SumValues(Filter(KnownCategoryTest(ids), s)) + Spent(s, id)
  {
    if s != [] {
      KnownSplit(ids, id, s[1..]);
      var e := s[0];
      var all := KnownCategoryTest(ids + {id});
      var known := KnownCategoryTest(ids);
      var mine := OfCategoryTest(id);
      assert Filter(all, s) == (if all(e) then [e] else []) + Filter(all, s[1..]);
      assert Filter(known, s) == (if known(e) then [e] else []) + Filter(known, s[1..]);
      assert Filter(mine, s) == (if mine(e) then [e] else []) + Filter(mine, s[1..]);
      SumValuesConcat(if all(e) then [e] else [], Filter(all, s[1..]));
      SumValuesConcat(if known(e) then [e] else [], Filter(known, s[1..]));
      SumValuesConcat(if mine(e) then [e] else [], Filter(mine, s[1..]));
    }
  }

  // ---------------------------------------------------------------------------
  // Percentages
  // ---------------------------------------------------------------------------

  /** The reduce in updateTotalPercentage. */
  function SumPercentages(categories: seq<Category>): (r: int)
  {
    if categories == [] then 0 else categories[0].percentage + SumPercentages(categories[1..])
  }

  /** The percentage display is in its balanced (green, no warning) state. */
  predicate IsBalanced(categories: seq<Category>)
  {
    SumPercentages(categories) == 100
  }

  predicate PercentagesInRange(categories: seq<Category>)
  {
    forall i :: 0 <= i < |categories| ==> 0 <= categories[i].percentage <= 100
  }

  /** Math.max(0, Math.min(100, v)). */
  function Clamp(v: int): (r: int)
    ensures 0 <= r <= 100
    ensures 0 <= v <= 100 ==> r == v
    ensures v < 0 ==> r == 0
    ensures v > 100 ==> r == 100
  {
    if v < 0 then 0 else if v > 100 then 100 else v
  }

  /** categories.find(c => c.id === id), as an index: the first match. */
  function FindCategory(categories: seq<Category>, id: string): (r: Option<nat>)
    ensures r.None? <==> forall i :: 0 <= i < |categories| ==> categories[i].id != id
    ensures r.Some? ==>
      && r.value < |categories| && categories[r.value].id == id
      && forall j :: 0 <= j < r.value ==> categories[j].id != id
  {
    if categories == [] then None
    else if categories[0].id == id then Some(0)
    else match FindCategory(categories[1..], id)
      case None => None
      case Some(k) => Some(k + 1)
  }

  /** Changing one category's percentage changes the sum by the difference. */
  lemma {:induction false} SumAfterUpdate(categories: seq<Category>, k: nat, p: int)
    requires k < |categories|
    ensures SumPercentages(categories[k := categories[k].(percentage := p)])
      == SumPercentages(categories) - categories[k].percentage + p
  {
    var updated := categories[k := categories[k].(percentage := p)];
    if k > 0 {
      SumAfterUpdate(categories[1..], k - 1, p);
      assert updated[1..] == categories[1..][k - 1 := categories[k].(percentage := p)];
    } else {
      assert updated[1..] == categories[1..];
    }
  }

  /** Percentages within 0..100 keep the total within 0..100 per category. */
  lemma {:induction false} PercentageTotalBound(categories: seq<Category>)
    requires PercentagesInRange(categories)
    ensures 0 <= SumPercentages(categories) <= 100 * |categories|
  {
    if categories != [] {
      assert categories[0].percentage <= 100;
      PercentageTotalBound(categories[1..]);
    }
  }

  lemma {:induction false} SumPercentagesAppend(a: seq<Category>, c: Category)
    ensures SumPercentages(a + [c]) == SumPercentages(a) + c.percentage
  {
    if a == [] {
      assert a + [c] == [c];
    } else {
      assert (a + [c])[1..] == a[1..] + [c];
      SumPercentagesAppend(a[1..], c);
    }
  }

  /** The summary's allocations add up to the income's share given by the
      percentage total. */
  lemma {:induction false} TotalAllocatedIsShare(income: real, categories: seq<Category>)
    ensures TotalAllocated(income, categories) == income * (SumPercentages(categories) as real) / 100.0
  {
    if categories != [] {
      var init := categories[..|categories| - 1];
      var last := categories[|categories| - 1];
      TotalAllocatedIsShare(income, init);
      SumPercentagesLast(categories);
      ShareStep(income, TotalAllocated(income, init), SumPercentages(init), last.percentage);
    }
  }

  lemma SumPercentagesLast(categories: seq<Category>)
    requires categories != []
    ensures SumPercentages(categories)
      == SumPercentages(categories[..|categories| - 1]) + categories[|categories| - 1].percentage
  {
    var init := categories[..|categories| - 1];
    assert categories == init + [categories[|categories| - 1]];
    SumPercentagesAppend(init, categories[|categories| - 1]);
  }

  /** One more category adds its own share to the running allocation. */
  lemma ShareStep(income: real, before: real, sum: int, percentage: int)
    requires before == income * (sum as real) / 100.0
    ensures before + Allocated(income, percentage) == income * ((sum + percentage) as real) / 100.0
  {
    ShareAdd(income, sum as real, percentage as real);
  }

  lemma ShareAdd(income: real, a: real, b: real)
    ensures income * a / 100.0 + income * b / 100.0 == income * (a + b) / 100.0
  {
    assert income * (a + b) == income * a + income * b;
  }

  /** With a positive income, the totals line allocates exactly the income
      when, and only when, the percentages are balanced at 100. */
  lemma BalancedAllocatesIncome(income: real, categories: seq<Category>)
    requires income > 0.0
    ensures TotalAllocated(income, categories) == income <==> IsBalanced(categories)
  {
    TotalAllocatedIsShare(income, categories);
    ShareIsWhole(income, SumPercentages(categories) as real);
  }

  lemma ShareIsWhole(income: real, p: real)
    requires income > 0.0
    ensures income * p / 100.0 == income <==> p == 100.0
  {
    if income * p / 100.0 == income {
      assert income * p == income * 100.0;
      assert income * (p - 100.0) == 0.0;
    }
  }
}
