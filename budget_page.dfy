/** The budget page (`Budget`): the spending categories with their totals,
    the five most recent transactions, and the split bills with what the
    user is owed and owes. */
module BudgetPage {
  import opened Common
  import opened Lists
  import opened JsNumber
  import opened SplitBills

  /** A spending category; `transactions` counts the expenses booked to it. */
  datatype Category = Category(category: string, spent: real, budget: real, transactions: int)

  /** A line of the recent-transactions list; expenses are negative. */
  datatype RecentTx = RecentTx(description: string, amount: real, category: string, date: string)

  /** The payload of `onAddExpense`. */
  datatype ExpenseInput = ExpenseInput(category: string, amount: real, description: string, date: string)

  /** The payload of `onAddIncome`. */
  datatype IncomeInput = IncomeInput(source: string, amount: real, description: string, date: string)

  /** The recent-transactions list never holds more than this many lines. */
  const RecentLimit: nat := 5

  function InitialCategories(): seq<Category> {
    [ Category("Food & Dining", 8500.0, 10000.0, 23),
      Category("Housing", 25000.0, 25000.0, 3),
      Category("Transportation", 4200.0, 5000.0, 12),
      Category("Shopping", 6800.0, 8000.0, 18),
      Category("Entertainment", 3200.0, 4000.0, 8),
      Category("Healthcare", 1500.0, 3000.0, 4) ]
  }

  function InitialTransactions(): (ts: seq<RecentTx>)
    ensures |ts| == RecentLimit
  {
    [ RecentTx("Grocery Shopping", -1200.0, "Food", "Today"),
      RecentTx("Salary Credit", 75000.0, "Income", "2 days ago"),
      RecentTx("Uber Ride", -250.0, "Transport", "2 days ago"),
      RecentTx("Netflix Subscription", -199.0, "Entertainment", "3 days ago"),
      RecentTx("Electricity Bill", -2500.0, "Housing", "5 days ago") ]
  }

  function InitialBills(): seq<Bill> {
    [ Bill("Dinner at Restaurant", Finite(2400.0),
           [Share("You", 600.0, true), Share("John", 600.0, false), Share("Alice", 600.0, true), Share("Bob", 600.0, false)],
           "2024-08-06"),
      Bill("Movie Night", Finite(1200.0),
           [Share("You", 400.0, true), Share("Sarah", 400.0, false), Share("Mike", 400.0, true)],
           "2024-08-05") ]
  }

  function TotalSpent(cats: seq<Category>): real {
    Sum(cats, (c: Category) => c.spent)
  }

  function TotalBudget(cats: seq<Category>): real {
    Sum(cats, (c: Category) => c.budget)
  }

  /** The amount the summary card shows as remaining. */
  function Remaining(cats: seq<Category>): real {
    TotalBudget(cats) - TotalSpent(cats)
  }

  /** The categories after an expense: the ones named by it gain its amount
      and one transaction. */
  function Booked(cats: seq<Category>, e: ExpenseInput): seq<Category> {
    MapWhere(cats, (c: Category) => c.category == e.category,
             (c: Category) => c.(spent := c.spent + e.amount, transactions := c.transactions + 1))
  }

  function WithoutCategory(cats: seq<Category>, name: string): seq<Category> {
    Filter(cats, (c: Category) => c.category != name)
  }

  /** A date equal to today's is shown as "Today". */
  function DateLabel(date: string, today: string): string {
    if date == today then "Today" else date
  }

  function ExpenseEntry(e: ExpenseInput, today: string): RecentTx {
    RecentTx(e.description, -e.amount, e.category, DateLabel(e.date, today))
  }

  function IncomeEntry(i: IncomeInput, today: string): RecentTx {
    RecentTx(i.description, i.amount, i.source, DateLabel(i.date, today))
  }

  /** `[t, ...prev.slice(0, 4)]`. */
  function PushRecent(prev: seq<RecentTx>, t: RecentTx): (r: seq<RecentTx>)
    ensures 1 <= |r| <= RecentLimit && r[0] == t
    ensures IsPrefix(r[1..], prev)
    ensures |prev| >= RecentLimit - 1 ==> |r| == RecentLimit
    ensures |prev| < RecentLimit - 1 ==> r == [t] + prev
  {
    var keep := if |prev| < RecentLimit - 1 then |prev| else RecentLimit - 1;
    [t] + prev[..keep]
  }

  predicate IsPrefix<T(==)>(p: seq<T>, s: seq<T>) {
    |p| <= |s| && s[..|p|] == p
  }

  /** A line is shown in green with a plus sign exactly when its amount is
      positive, and in red otherwise. */
  function EntryTone(t: RecentTx): Tone {
    if t.amount > 0.0 then Success else Destructive
  }

  /** The first share named "You", if any. */
  function FindYou(ps: seq<Share>): (r: Option<Share>)
    ensures r.None? <==> forall i :: 0 <= i < |ps| ==> ps[i].name != "You"
    ensures r.Some? ==> exists i :: (0 <= i < |ps| && ps[i] == r.value && ps[i].name == "You" &&
      forall j :: 0 <= j < i ==> ps[j].name != "You")
  {
    if ps == [] then None
    else if ps[0].name == "You" then Some(ps[0])
    else
      var r := FindYou(ps[1..]);
      if r.Some? then
        ghost var i :| 0 <= i < |ps[1..]| && ps[1..][i] == r.value && ps[1..][i].name == "You" &&
          forall j :: 0 <= j < i ==> ps[1..][j].name != "You";
        assert ps[i + 1] == r.value;
        r
      else r
  }

  /** What the others still owe on one bill: their unsettled shares, counted
      only when the user takes part in it. */
  function BillOwed(b: Bill): real {
    if FindYou(b.participants).Some? then
      Sum(Filter(b.participants, (p: Share) => p.name != "You" && !p.settled), (p: Share) => p.amount)
    else 0.0
  }

  /** What the user still owes on one bill: the first "You" share, unless it
      is settled. */
  function BillOwing(b: Bill): real {
    match FindYou(b.participants)
    case None => 0.0
    case Some(you) => if you.settled then 0.0 else you.amount
  }

  /** `calculateOwedAmount`. */
  function OwedAmount(bills: seq<Bill>): real {
    Sum(bills, BillOwed)
  }

  /** `calculateOwingAmount`. */
  function OwingAmount(bills: seq<Bill>): real {
    Sum(bills, BillOwing)
  }

  // ---------------------------------------------------------------------
  // Properties

  /** An expense raises total spending by its amount once for every category
      of its name, leaves the total budget alone, and so lowers the amount
      shown as remaining by the same sum. */
  lemma ExpenseMovesTotals(cats: seq<Category>, e: ExpenseInput)
    ensures |Booked(cats, e)| == |cats|
    ensures TotalSpent(Booked(cats, e)) ==
      TotalSpent(cats) + e.amount * Count(cats, (c: Category) => c.category == e.category) as real
    ensures TotalBudget(Booked(cats, e)) == TotalBudget(cats)
    ensures Remaining(Booked(cats, e)) ==
      Remaining(cats) - e.amount * Count(cats, (c: Category) => c.category == e.category) as real
  {
    var sel := (c: Category) => c.category == e.category;
    var f := (c: Category) => c.(spent := c.spent + e.amount, transactions := c.transactions + 1);
    SumMapWhere(cats, sel, f, (c: Category) => c.spent, e.amount);
    SumMapWhere(cats, sel, f, (c: Category) => c.budget, 0.0);
  }

  /** An expense for a category the page does not list changes no category. */
  lemma UnknownCategoryIgnored(cats: seq<Category>, e: ExpenseInput)
    requires forall i :: 0 <= i < |cats| ==> cats[i].category != e.category
    ensures Booked(cats, e) == cats
  {
    MapWhereNone(cats, (c: Category) => c.category == e.category,
                 (c: Category) => c.(spent := c.spent + e.amount, transactions := c.transactions + 1));
  }

  /** Deleting a category removes exactly its spending and budget from the
      totals, and keeps the other categories in order. */
  lemma DeleteMovesTotals(cats: seq<Category>, name: string)
    ensures IsSubsequence(WithoutCategory(cats, name), cats)
    ensures forall i :: 0 <= i < |WithoutCategory(cats, name)| ==> WithoutCategory(cats, name)[i].category != name
    ensures TotalSpent(WithoutCategory(cats, name)) ==
      TotalSpent(cats) - TotalSpent(Filter(cats, (c: Category) => c.category == name))
    ensures TotalBudget(WithoutCategory(cats, name)) ==
      TotalBudget(cats) - TotalBudget(Filter(cats, (c: Category) => c.category == name))
  {
    var keep := (c: Category) => c.category != name;
    var drop := (c: Category) => c.category == name;
    FilterIsSubsequence(cats, keep);
    SumFilterSplit(cats, keep, drop, (c: Category) => c.spent);
    SumFilterSplit(cats, keep, drop, (c: Category) => c.budget);
  }

  /** An expense of a positive amount is listed in red, an income of a
      positive amount in green. */
  lemma EntriesShowDirection(e: ExpenseInput, i: IncomeInput, today: string)
    ensures e.amount > 0.0 ==> EntryTone(ExpenseEntry(e, today)) == Destructive
    ensures e.amount < 0.0 ==> EntryTone(ExpenseEntry(e, today)) == Success
    ensures EntryTone(IncomeEntry(i, today)) == Success <==> i.amount > 0.0
    ensures ExpenseEntry(e, today).date == "Today" <==> e.date == today || e.date == "Today"
  {
  }

  /** A new bill adds its own owed and owing amounts to the page's totals. */
  lemma NewBillAddsItsShares(bills: seq<Bill>, b: Bill)
    ensures OwedAmount([b] + bills) == BillOwed(b) + OwedAmount(bills)
    ensures OwingAmount([b] + bills) == BillOwing(b) + OwingAmount(bills)
  {
    assert ([b] + bills)[1..] == bills;
  }

  /** A bill without a "You" share counts towards neither total. */
  lemma BillWithoutYouCountsNothing(b: Bill)
    requires forall i :: 0 <= i < |b.participants| ==> b.participants[i].name != "You"
    ensures BillOwed(b) == 0.0 && BillOwing(b) == 0.0
  {
  }

  /** A bill on which every share is settled counts towards neither total. */
  lemma SettledBillCountsNothing(b: Bill)
    requires forall i :: 0 <= i < |b.participants| ==> b.participants[i].settled
    ensures BillOwed(b) == 0.0 && BillOwing(b) == 0.0
  {
  }

  /** With no negative shares, neither total is negative. */
  lemma TotalsNotNegative(bills: seq<Bill>)
    requires forall k, i :: 0 <= k < |bills| && 0 <= i < |bills[k].participants| ==>
      bills[k].participants[i].amount >= 0.0
    ensures OwedAmount(bills) >= 0.0 && OwingAmount(bills) >= 0.0
  {
    forall k | 0 <= k < |bills| ensures BillOwed(bills[k]) >= 0.0 && BillOwing(bills[k]) >= 0.0 {
      var ps := bills[k].participants;
      var open := Filter(ps, (p: Share) => p.name != "You" && !p.settled);
      assert forall i :: 0 <= i < |open| ==> open[i] in ps;
      SumNonNegative(open, (p: Share) => p.amount);
    }
    SumNonNegative(bills, BillOwed);
    SumNonNegative(bills, BillOwing);
  }

  /** The page's state. */
  class BudgetView {
    var budgetData: seq<Category>
    var transactions: seq<RecentTx>
    var splitBills: seq<Bill>

    ghost predicate Valid()
      reads this
    {
      |transactions| <= RecentLimit
    }

    constructor ()
      ensures Valid()
      ensures budgetData == InitialCategories() && transactions == InitialTransactions()
      ensures splitBills == InitialBills()
    {
      budgetData := InitialCategories();
      transactions := InitialTransactions();
      splitBills := InitialBills();
    }

    /** `handleAddExpense`: book the expense to its category and list it, as
      a negative amount, at the top of the recent transactions. */
    method HandleAddExpense(expense: ExpenseInput, today: string)
      requires Valid()
      modifies this
      ensures Valid()
      ensures budgetData == Booked(old(budgetData), expense)
      ensures transactions == PushRecent(old(transactions), ExpenseEntry(expense, today))
      ensures splitBills == old(splitBills)
    {
      budgetData := Booked(budgetData, expense);
      transactions := PushRecent(transactions, ExpenseEntry(expense, today));
    }

    /** `handleAddIncome`: list the income at the top of the recent
      transactions; no category changes. */
    method HandleAddIncome(income: IncomeInput, today: string)
      requires Valid()
      modifies this
      ensures Valid()
      ensures transactions == PushRecent(old(transactions), IncomeEntry(income, today))
      ensures budgetData == old(budgetData) && splitBills == old(splitBills)
    {
      transactions := PushRecent(transactions, IncomeEntry(income, today));
    }

    /** `handleAddSplitBill`: the new bill goes first. */
    method HandleAddSplitBill(bill: Bill)
      modifies this
      ensures splitBills == [bill] + old(splitBills)
      ensures budgetData == old(budgetData) && transactions == old(transactions)
    {
      splitBills := [bill] + splitBills;
    }

    /** `deleteBudgetCategory`. */
    method DeleteBudgetCategory(categoryName: string)
      modifies this
      ensures budgetData == WithoutCategory(old(budgetData), categoryName)
      ensures transactions == old(transactions) && splitBills == old(splitBills)
    {
      budgetData := WithoutCategory(budgetData, categoryName);
    }
  }
}
