/** The goals hook (`useGoals`): a list of savings goals that each handler
    replaces in one step by an append, a map or a filter. */
module GoalsHook {
  import opened Common
  import opened Lists

  datatype GoalCategory = EmergencyFund | House | Car | Vacation | Retirement | Education | Other
  datatype Priority = High | Medium | Low
  datatype Status = OnTrack | Behind | Completed

  datatype Goal = Goal(
    id: string, title: string, targetAmount: real, currentAmount: real, targetDate: string,
    category: GoalCategory, priority: Priority, status: Status, monthlyContribution: real)

  /** `Omit<Goal, 'id'>`. */
  datatype GoalDraft = GoalDraft(
    title: string, targetAmount: real, currentAmount: real, targetDate: string,
    category: GoalCategory, priority: Priority, status: Status, monthlyContribution: real)

  /** `Partial<Goal>`: every field either given or absent. */
  datatype GoalUpdate = GoalUpdate(
    id: Option<string>, title: Option<string>, targetAmount: Option<real>, currentAmount: Option<real>,
    targetDate: Option<string>, category: Option<GoalCategory>, priority: Option<Priority>,
    status: Option<Status>, monthlyContribution: Option<real>)

  /** The update that gives no field. */
  const NoChange := GoalUpdate(None, None, None, None, None, None, None, None, None)

  /** The three seeded goals. */
  function InitialGoals(): seq<Goal> {
    [ Goal("1", "Emergency Fund", 500000.0, 425000.0, "2024-12-31", EmergencyFund, High, OnTrack, 15000.0),
      Goal("2", "Dream House", 5000000.0, 1200000.0, "2027-06-30", House, High, OnTrack, 50000.0),
      Goal("3", "New Car", 800000.0, 200000.0, "2025-03-31", Car, Medium, Behind, 25000.0) ]
  }

  /** The goal `addGoal` builds: the draft with the fresh id. */
  function NewGoal(d: GoalDraft, id: string): Goal {
    Goal(id, d.title, d.targetAmount, d.currentAmount, d.targetDate, d.category, d.priority, d.status,
         d.monthlyContribution)
  }

  /** `{ ...goal, ...updates }`: every field the update gives wins. */
  function Patch(g: Goal, u: GoalUpdate): Goal {
    Goal(u.id.GetOr(g.id), u.title.GetOr(g.title), u.targetAmount.GetOr(g.targetAmount),
         u.currentAmount.GetOr(g.currentAmount), u.targetDate.GetOr(g.targetDate),
         u.category.GetOr(g.category), u.priority.GetOr(g.priority), u.status.GetOr(g.status),
         u.monthlyContribution.GetOr(g.monthlyContribution))
  }

  function UpdatedGoals(goals: seq<Goal>, id: string, u: GoalUpdate): seq<Goal> {
    MapWhere(goals, (g: Goal) => g.id == id, (g: Goal) => Patch(g, u))
  }

  function WithoutGoal(goals: seq<Goal>, id: string): seq<Goal> {
    Filter(goals, (g: Goal) => g.id != id)
  }

  function Contributed(goals: seq<Goal>, id: string, amount: real): seq<Goal> {
    MapWhere(goals, (g: Goal) => g.id == id, (g: Goal) => g.(currentAmount := g.currentAmount + amount))
  }

  /** The amount saved over all goals. */
  function TotalSaved(goals: seq<Goal>): real {
    Sum(goals, (g: Goal) => g.currentAmount)
  }

  // ---------------------------------------------------------------------
  // Properties

  /** The new goal carries every field of the draft and the fresh id. */
  lemma NewGoalCarriesDraft(d: GoalDraft, id: string)
    ensures var g := NewGoal(d, id);
      g.id == id &&
      GoalDraft(g.title, g.targetAmount, g.currentAmount, g.targetDate, g.category, g.priority, g.status,
                g.monthlyContribution) == d
  {
  }

  /** Deleting a goal just added under an id no other goal has gives the old
      list back. */
  lemma DeleteUndoesAdd(goals: seq<Goal>, d: GoalDraft, id: string)
    requires forall i :: 0 <= i < |goals| ==> goals[i].id != id
    ensures WithoutGoal(goals + [NewGoal(d, id)], id) == goals
  {
    var keep := (g: Goal) => g.id != id;
    FilterAppend(goals, [NewGoal(d, id)], keep);
    FilterKeepsAll(goals, keep);
    assert Filter([NewGoal(d, id)], keep) == [];
  }

  /** A patch sets the fields it gives and keeps the others; applying it
      twice is applying it once, and the empty patch changes nothing. */
  lemma PatchOverwritesGivenFields(g: Goal, u: GoalUpdate)
    ensures u.title.Some? ==> Patch(g, u).title == u.title.value
    ensures u.title.None? ==> Patch(g, u).title == g.title
    ensures u.currentAmount.Some? ==> Patch(g, u).currentAmount == u.currentAmount.value
    ensures u.currentAmount.None? ==> Patch(g, u).currentAmount == g.currentAmount
    ensures u.status.Some? ==> Patch(g, u).status == u.status.value
    ensures u.status.None? ==> Patch(g, u).status == g.status
    ensures u.id.Some? ==> Patch(g, u).id == u.id.value
    ensures u.id.None? ==> Patch(g, u).id == g.id
    ensures u.targetAmount.Some? ==> Patch(g, u).targetAmount == u.targetAmount.value
    ensures u.targetAmount.None? ==> Patch(g, u).targetAmount == g.targetAmount
    ensures u.targetDate.Some? ==> Patch(g, u).targetDate == u.targetDate.value
    ensures u.targetDate.None? ==> Patch(g, u).targetDate == g.targetDate
    ensures u.category.Some? ==> Patch(g, u).category == u.category.value
    ensures u.category.None? ==> Patch(g, u).category == g.category
    ensures u.priority.Some? ==> Patch(g, u).priority == u.priority.value
    ensures u.priority.None? ==> Patch(g, u).priority == g.priority
    ensures u.monthlyContribution.Some? ==> Patch(g, u).monthlyContribution == u.monthlyContribution.value
    ensures u.monthlyContribution.None? ==> Patch(g, u).monthlyContribution == g.monthlyContribution
    ensures Patch(Patch(g, u), u) == Patch(g, u)
    ensures Patch(g, NoChange) == g
  {
  }

  /** An update touches only the goals with the id and keeps the count. */
  lemma UpdateOnlyTouchesId(goals: seq<Goal>, id: string, u: GoalUpdate)
    ensures |UpdatedGoals(goals, id, u)| == |goals|
    ensures forall i :: 0 <= i < |goals| && goals[i].id != id ==> UpdatedGoals(goals, id, u)[i] == goals[i]
    ensures forall i :: 0 <= i < |goals| && goals[i].id == id ==> UpdatedGoals(goals, id, u)[i] == Patch(goals[i], u)
  {
  }

  /** Deleting removes exactly the goals with the id and keeps the rest in
      order. */
  lemma DeleteRemovesId(goals: seq<Goal>, id: string)
    ensures forall g :: g in WithoutGoal(goals, id) <==> g in goals && g.id != id
    ensures IsSubsequence(WithoutGoal(goals, id), goals)
    ensures |goals| - |WithoutGoal(goals, id)| == Count(goals, (g: Goal) => g.id == id)
  {
    var keep := (g: Goal) => g.id != id;
    FilterIsSubsequence(goals, keep);
    FilterLength(goals, keep, (g: Goal) => g.id == id);
  }

  /** A contribution raises the saved amount of the goals with the id by the
      amount, changes no other field and no other goal, and raises the total
      saved by the amount once per such goal. */
  lemma ContributionOnlyRaisesCurrent(goals: seq<Goal>, id: string, amount: real)
    ensures |Contributed(goals, id, amount)| == |goals|
    ensures forall i :: 0 <= i < |goals| && goals[i].id != id ==> Contributed(goals, id, amount)[i] == goals[i]
    ensures forall i :: 0 <= i < |goals| && goals[i].id == id ==>
      Contributed(goals, id, amount)[i] == goals[i].(currentAmount := goals[i].currentAmount + amount)
    ensures TotalSaved(Contributed(goals, id, amount)) == TotalSaved(goals) + amount * Count(goals, (g: Goal) => g.id == id) as real
  {
    SumMapWhere(goals, (g: Goal) => g.id == id, (g: Goal) => g.(currentAmount := g.currentAmount + amount),
                (g: Goal) => g.currentAmount, amount);
  }

  /** Two contributions to a goal are one contribution of their sum, and a
      contribution is undone by its negative. */
  lemma ContributionsAdd(goals: seq<Goal>, id: string, a: real, b: real)
    ensures Contributed(Contributed(goals, id, a), id, b) == Contributed(goals, id, a + b)
    ensures Contributed(Contributed(goals, id, a), id, -a) == goals
  {
    var once := Contributed(goals, id, a);
    var twice := Contributed(once, id, b);
    var both := Contributed(goals, id, a + b);
    assert forall i :: 0 <= i < |goals| ==> twice[i] == both[i];
    var back := Contributed(once, id, -a);
    assert forall i :: 0 <= i < |goals| ==> back[i] == goals[i];
  }

  /** The hook's state. */
  class GoalBook {
    var goals: seq<Goal>

    constructor ()
      ensures goals == InitialGoals()
    {
      goals := InitialGoals();
    }

    /** `addGoal`: append the draft under the fresh id. */
    method AddGoal(d: GoalDraft, freshId: string)
      modifies this
      ensures goals == old(goals) + [NewGoal(d, freshId)]
    {
      goals := goals + [NewGoal(d, freshId)];
    }

    /** `updateGoal`. */
    method UpdateGoal(id: string, updates: GoalUpdate)
      modifies this
      ensures goals == UpdatedGoals(old(goals), id, updates)
      ensures |goals| == |old(goals)|
    {
      goals := UpdatedGoals(goals, id, updates);
    }

    /** `deleteGoal`. */
    method DeleteGoal(id: string)
      modifies this
      ensures goals == WithoutGoal(old(goals), id)
    {
      goals := WithoutGoal(goals, id);
    }

    /** `addContribution`. */
    method AddContribution(id: string, amount: real)
      modifies this
      ensures goals == Contributed(old(goals), id, amount)
      ensures |goals| == |old(goals)|
      ensures TotalSaved(goals) == TotalSaved(old(goals)) + amount * Count(old(goals), (g: Goal) => g.id == id) as real
    {
      ContributionOnlyRaisesCurrent(goals, id, amount);
      goals := Contributed(goals, id, amount);
    }
  }
}
