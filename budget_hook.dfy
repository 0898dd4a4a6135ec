/** The budget ledger hook (`useBudget`): a list of budget items, each kept
    under `remaining = budgeted - spent`, and a newest-first transaction log.
    Every handler replaces one or both lists in a single step. */
module BudgetHook {
  import opened Common
  import opened Lists

  datatype BudgetItem = BudgetItem(
    id: string, category: string, budgeted: real, spent: real, remaining: real, icon: string)

  datatype TxKind = Income | Expense

  datatype Transaction = Transaction(
    id: string, amount: real, category: string, description: string, date: string, kind: TxKind)

  /** `Omit<BudgetItem, 'id'>`: what a caller supplies for a new item. */
  datatype ItemDraft = ItemDraft(category: string, budgeted: real, spent: real, remaining: real, icon: string)

  /** `Omit<Transaction, 'id'>`. */
  datatype TransactionDraft = TransactionDraft(
    amount: real, category: string, description: string, date: string, kind: TxKind)

  /** `Partial<BudgetItem>`: every field either given or absent. */
  datatype ItemUpdate = ItemUpdate(
    id: Option<string>, category: Option<string>, budgeted: Option<real>,
    spent: Option<real>, remaining: Option<real>, icon: Option<string>)

  /** The ledger invariant of one item. */
  predicate Balanced(item: BudgetItem) {
    item.remaining == item.budgeted - item.spent
  }

  predicate AllBalanced(items: seq<BudgetItem>) {
    forall i :: 0 <= i < |items| ==> Balanced(items[i])
  }

  /** The four seeded categories. */
  function InitialBudget(): (items: seq<BudgetItem>)
    ensures |items| == 4 && AllBalanced(items)
  {
    [ BudgetItem("1", "Food & Dining", 15000.0, 12500.0, 2500.0, "🍽️"),
      BudgetItem("2", "Transportation", 8000.0, 6200.0, 1800.0, "🚗"),
      BudgetItem("3", "Entertainment", 5000.0, 3500.0, 1500.0, "🎬"),
      BudgetItem("4", "Shopping", 10000.0, 8500.0, 1500.0, "🛍️") ]
  }

  function InitialTransactions(): seq<Transaction> {
    [ Transaction("1", 2500.0, "Food & Dining", "Grocery shopping", "2024-01-15", Expense),
      Transaction("2", 1200.0, "Transportation", "Uber rides", "2024-01-14", Expense) ]
  }

  /** The item `addBudgetItem` builds: the draft's fields, the fresh id, and
      `remaining` recomputed (a supplied `remaining` is ignored). */
  function NewItem(draft: ItemDraft, id: string): (item: BudgetItem)
    ensures Balanced(item) && item.id == id
    ensures item.category == draft.category && item.icon == draft.icon
    ensures item.budgeted == draft.budgeted && item.spent == draft.spent
  {
    BudgetItem(id, draft.category, draft.budgeted, draft.spent, draft.budgeted - draft.spent, draft.icon)
  }

  /** `{ ...item, ...updates, remaining: ... }`: given fields win, and the
      remaining amount follows the new-or-old budgeted and spent amounts. */
  function Patch(item: BudgetItem, u: ItemUpdate): (r: BudgetItem)
    ensures Balanced(r)
    ensures r.id == u.id.GetOr(item.id) && r.category == u.category.GetOr(item.category)
    ensures r.budgeted == u.budgeted.GetOr(item.budgeted) && r.spent == u.spent.GetOr(item.spent)
    ensures r.icon == u.icon.GetOr(item.icon)
  {
    var budgeted := u.budgeted.GetOr(item.budgeted);
    var spent := u.spent.GetOr(item.spent);
    BudgetItem(u.id.GetOr(item.id), u.category.GetOr(item.category), budgeted, spent,
               budgeted - spent, u.icon.GetOr(item.icon))
  }

  /** What an expense does to one item of its category. */
  function Charge(item: BudgetItem, amount: real): BudgetItem {
    item.(spent := item.spent + amount, remaining := item.remaining - amount)
  }

  function UpdatedItems(items: seq<BudgetItem>, id: string, u: ItemUpdate): seq<BudgetItem> {
    MapWhere(items, (it: BudgetItem) => it.id == id, (it: BudgetItem) => Patch(it, u))
  }

  function WithoutItem(items: seq<BudgetItem>, id: string): seq<BudgetItem> {
    Filter(items, (it: BudgetItem) => it.id != id)
  }

  /** The budget list after a transaction: an expense charges every item of
      its category; an income leaves the list as it was. */
  function AfterTransaction(items: seq<BudgetItem>, t: TransactionDraft): seq<BudgetItem> {
    if t.kind == Expense then
      MapWhere(items, (it: BudgetItem) => it.category == t.category, (it: BudgetItem) => Charge(it, t.amount))
    else items
  }

  // ---------------------------------------------------------------------
  // Properties of the transitions

  /** Adding an item keeps the ledger balanced and only extends the list. */
  lemma AddKeepsBalance(items: seq<BudgetItem>, draft: ItemDraft, id: string)
    requires AllBalanced(items)
    ensures AllBalanced(items + [NewItem(draft, id)])
  {
  }

  /** An update changes only the items with the id, keeps the length, and
      leaves every item balanced, whatever the update carries. */
  lemma UpdateKeepsBalance(items: seq<BudgetItem>, id: string, u: ItemUpdate)
    requires AllBalanced(items)
    ensures |UpdatedItems(items, id, u)| == |items|
    ensures AllBalanced(UpdatedItems(items, id, u))
    ensures forall i :: 0 <= i < |items| && items[i].id != id ==> UpdatedItems(items, id, u)[i] == items[i]
    ensures forall i :: 0 <= i < |items| && items[i].id == id ==> UpdatedItems(items, id, u)[i] == Patch(items[i], u)
  {
  }

  /** Deleting removes exactly the items with the id, keeps the rest in
      order, and keeps the ledger balanced. */
  lemma DeleteKeepsBalance(items: seq<BudgetItem>, id: string)
    requires AllBalanced(items)
    ensures AllBalanced(WithoutItem(items, id))
    ensures IsSubsequence(WithoutItem(items, id), items)
    ensures forall i :: 0 <= i < |WithoutItem(items, id)| ==> WithoutItem(items, id)[i].id != id
    ensures forall i :: 0 <= i < |items| && items[i].id != id ==> items[i] in WithoutItem(items, id)
    ensures |items| - |WithoutItem(items, id)| == Count(items, (it: BudgetItem) => it.id == id)
  {
    var keep := (it: BudgetItem) => it.id != id;
    FilterIsSubsequence(items, keep);
    FilterLength(items, keep, (it: BudgetItem) => it.id == id);
  }

  /** A transaction keeps the ledger balanced; an expense moves its amount
      from remaining to spent on the items of its category and touches no
      other item, and an income changes nothing. */
  lemma TransactionKeepsBalance(items: seq<BudgetItem>, t: TransactionDraft)
    requires AllBalanced(items)
    ensures AllBalanced(AfterTransaction(items, t))
    ensures t.kind == Income ==> AfterTransaction(items, t) == items
    ensures |AfterTransaction(items, t)| == |items|
    ensures forall i :: 0 <= i < |items| && (t.kind == Income || items[i].category != t.category) ==>
      AfterTransaction(items, t)[i] == items[i]
    ensures forall i :: 0 <= i < |items| && t.kind == Expense && items[i].category == t.category ==>
      AfterTransaction(items, t)[i].spent == items[i].spent + t.amount &&
      AfterTransaction(items, t)[i].remaining == items[i].remaining - t.amount
  {
  }

  /** The hook's state. */
  class BudgetLedger {
    var budget: seq<BudgetItem>
    var transactions: seq<Transaction>

    ghost predicate Valid()
      reads this
    {
      AllBalanced(budget)
    }

    constructor ()
      ensures Valid()
      ensures budget == InitialBudget() && transactions == InitialTransactions()
    {
      budget := InitialBudget();
      transactions := InitialTransactions();
    }

    /** `addBudgetItem`: append the new item at the end. */
    method AddBudgetItem(draft: ItemDraft, freshId: string)
      requires Valid()
      modifies this
      ensures Valid()
      ensures budget == old(budget) + [NewItem(draft, freshId)]
      ensures transactions == old(transactions)
    {
      AddKeepsBalance(budget, draft, freshId);
      budget := budget + [NewItem(draft, freshId)];
    }

    /** `updateBudgetItem`. */
    method UpdateBudgetItem(id: string, updates: ItemUpdate)
      requires Valid()
      modifies this
      ensures Valid()
      ensures budget == UpdatedItems(old(budget), id, updates)
      ensures transactions == old(transactions)
    {
      UpdateKeepsBalance(budget, id, updates);
      budget := UpdatedItems(budget, id, updates);
    }

    /** `deleteBudgetItem`. */
    method DeleteBudgetItem(id: string)
      requires Valid()
      modifies this
      ensures Valid()
      ensures budget == WithoutItem(old(budget), id)
      ensures transactions == old(transactions)
    {
      DeleteKeepsBalance(budget, id);
      budget := WithoutItem(budget, id);
    }

    /** `addTransaction`: the new transaction goes first; an expense is
      charged to its category. */
    method AddTransaction(t: TransactionDraft, freshId: string)
      requires Valid()
      modifies this
      ensures Valid()
      ensures transactions == [Transaction(freshId, t.amount, t.category, t.description, t.date, t.kind)] + old(transactions)
      ensures budget == AfterTransaction(old(budget), t)
    {
      transactions := [Transaction(freshId, t.amount, t.category, t.description, t.date, t.kind)] + transactions;
      TransactionKeepsBalance(budget, t);
      budget := AfterTransaction(budget, t);
    }
  }
}
