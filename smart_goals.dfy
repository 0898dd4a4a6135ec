/** The smart-goals widget of the dashboard: four goal cards, at most one of
    them expanded, with the monthly saving each one needs. */
module SmartGoals {
  import opened Common
  import opened Lists

  /** A goal card; `color` and `priority` are the strings the cards carry. */
  datatype GoalCard = GoalCard(
    id: int, title: string, target: real, current: real, progress: int, color: string, priority: string)

  function Cards(): seq<GoalCard> {
    [ GoalCard(1, "Emergency Fund", 500000.0, 425000.0, 85, "success", "high"),
      GoalCard(2, "House Down Payment", 2000000.0, 1340000.0, 67, "primary", "high"),
      GoalCard(3, "Child's Education", 1500000.0, 450000.0, 30, "accent", "medium"),
      GoalCard(4, "Dream Car", 800000.0, 120000.0, 15, "warning", "low") ]
  }

  /** A card is expanded when its id is the active one. */
  predicate IsActive(active: Option<int>, card: GoalCard) {
    active == Some(card.id)
  }

  /** A click on card `id`: the active card collapses, any other becomes the
      only active one. */
  function Clicked(active: Option<int>, id: int): Option<int> {
    if active == Some(id) then None else Some(id)
  }

  /** The expanded cards. */
  function Expanded(cards: seq<GoalCard>, active: Option<int>): seq<GoalCard> {
    Filter(cards, (c: GoalCard) => IsActive(active, c))
  }

  /** `Math.ceil((target - current) / 12)`. */
  function MonthlyRequired(target: real, current: real): (m: int)
    ensures 12.0 * m as real >= target - current
    ensures 12.0 * (m - 1) as real < target - current
  {
    var q := (target - current) / 12.0;
    -((-q).Floor)
  }

  /** `getPriorityColor`. */
  function PriorityTone(priority: string): Tone {
    if priority == "high" then Destructive
    else if priority == "medium" then Warning
    else if priority == "low" then Success
    else Secondary
  }

  /** `getColorClasses`: the tone a card's colour names, or the default. */
  function ColorTone(color: string): Tone {
    if color == "success" then Success
    else if color == "primary" then Primary
    else if color == "accent" then Accent
    else if color == "warning" then Warning
    else Secondary
  }

  // ---------------------------------------------------------------------
  // Properties

  /** After a click on a card, that card is expanded exactly when it was not
      before, and every other card is collapsed. */
  lemma ClickTogglesOnlyThatCard(active: Option<int>, id: int, other: GoalCard)
    ensures (Clicked(active, id) == Some(id)) <==> active != Some(id)
    ensures other.id != id ==> !IsActive(Clicked(active, id), other)
    ensures Clicked(Clicked(Some(id), id), id) == Some(id)
  {
  }

  /** With distinct ids at most one card is expanded, and it is the active
      one. */
  lemma {:induction false} AtMostOneExpanded(cards: seq<GoalCard>, active: Option<int>)
    requires forall i, j :: 0 <= i < j < |cards| ==> cards[i].id != cards[j].id
    ensures |Expanded(cards, active)| <= 1
    ensures forall c :: c in Expanded(cards, active) ==> active == Some(c.id)
  {
    if cards != [] {
      AtMostOneExpanded(cards[1..], active);
      if IsActive(active, cards[0]) {
        assert forall j :: 0 <= j < |cards[1..]| ==> !IsActive(active, cards[1..][j]) by {
          forall j | 0 <= j < |cards[1..]| ensures !IsActive(active, cards[1..][j]) {
            assert cards[1..][j] == cards[j + 1];
          }
        }
        NoneActive(cards[1..], active);
      }
    }
  }

  lemma {:induction false} NoneActive(cards: seq<GoalCard>, active: Option<int>)
    requires forall j :: 0 <= j < |cards| ==> !IsActive(active, cards[j])
    ensures Expanded(cards, active) == []
  {
    if cards != [] {
      NoneActive(cards[1..], active);
    }
  }

  /** The seeded cards have distinct ids, so at most one is ever expanded. */
  lemma SeededCardsExpandOne(active: Option<int>)
    ensures |Expanded(Cards(), active)| <= 1
  {
    AtMostOneExpanded(Cards(), active);
  }

  /** The monthly amount is the smallest whole amount that reaches the gap in
      twelve months, and nothing is asked once the goal is reached. */
  lemma MonthlyRequiredIsLeast(target: real, current: real, m: int)
    requires 12.0 * m as real >= target - current
    ensures MonthlyRequired(target, current) <= m
    ensures current >= target ==> MonthlyRequired(target, current) <= 0
  {
  }

  /** For the seeded Emergency Fund goal, 75000 left over twelve months is
      6250 a month. */
  lemma EmergencyFundMonthly()
    ensures MonthlyRequired(500000.0, 425000.0) == 6250
  {
  }

  /** The three priorities get three different tones, none of them the
      fallback. */
  lemma PrioritiesAreDistinct()
    ensures PriorityTone("high") != PriorityTone("medium") && PriorityTone("medium") != PriorityTone("low")
    ensures PriorityTone("high") != PriorityTone("low")
    ensures forall p :: p in {"high", "medium", "low"} ==> PriorityTone(p) != Secondary
    ensures forall p :: p !in {"high", "medium", "low"} ==> PriorityTone(p) == Secondary
  {
  }

  /** Every seeded card's colour names a tone of its own. */
  lemma SeededColorsAreNamed()
    ensures forall i :: 0 <= i < |Cards()| ==> ColorTone(Cards()[i].color) != Secondary
  {
  }

  /** The widget's state. */
  class GoalPanel {
    var activeGoal: Option<int>

    constructor ()
      ensures activeGoal == None
    {
      activeGoal := None;
    }

    /** A click on the card with id `id`. */
    method ClickGoal(id: int)
      modifies this
      ensures activeGoal == Clicked(old(activeGoal), id)
    {
      if activeGoal == Some(id) {
        activeGoal := None;
      } else {
        activeGoal := Some(id);
      }
    }
  }
}
