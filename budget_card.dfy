/** The card that shows one budget category: how much of the budget is
    used, a progress bar coloured by fixed thresholds, and the amount left or
    overspent. */
module BudgetCard {
  import opened Common
  import opened JsNumber

  /** `(spent / budget) * 100`: NaN for 0 / 0 and an infinity for any other
      spending against a zero budget. */
  function Percentage(spent: real, budget: real): (p: Num)
    ensures budget != 0.0 ==> p == Finite(spent / budget * 100.0)
    ensures budget == 0.0 && spent == 0.0 ==> p == NaN
    ensures budget == 0.0 && spent != 0.0 ==> p == Infinite(spent > 0.0)
  {
    Mul(Div(Finite(spent), Finite(budget)), Finite(100.0))
  }

  function Remaining(spent: real, budget: real): real {
    budget - spent
  }

  /** `getProgressColor`. */
  function ProgressTone(p: Num): Tone {
    if Gt(p, Finite(90.0)) then Destructive
    else if Gt(p, Finite(75.0)) then Warning
    else Success
  }

  /** The bar's value, `Math.min(percentage, 100)`. */
  function ProgressValue(p: Num): Num {
    Min(p, Finite(100.0))
  }

  /** The colour of the "% used" text. */
  function UsageTone(p: Num): Tone {
    if Gt(p, Finite(100.0)) then Destructive else Muted
  }

  /** The colour of the remaining amount. */
  function RemainingTone(remaining: real): Tone {
    if remaining < 0.0 then Destructive else Success
  }

  /** The label and the amount it shows. */
  function RemainingLabel(remaining: real): (string, real) {
    if remaining >= 0.0 then ("Remaining: ", remaining) else ("Over by: ", -remaining)
  }

  // ---------------------------------------------------------------------
  // Properties

  /** The bar is red above 90 per cent, amber above 75 up to 90 and green
      otherwise; against a zero budget any spending is red, and no spending
      (NaN per cent) or a refund is green. */
  lemma ProgressBands(spent: real, budget: real)
    ensures budget != 0.0 ==>
      var pct := spent / budget * 100.0;
      (ProgressTone(Percentage(spent, budget)) == Destructive <==> pct > 90.0) &&
      (ProgressTone(Percentage(spent, budget)) == Warning <==> 75.0 < pct <= 90.0) &&
      (ProgressTone(Percentage(spent, budget)) == Success <==> pct <= 75.0)
    ensures budget == 0.0 ==> (ProgressTone(Percentage(spent, budget)) == Destructive <==> spent > 0.0)
    ensures budget == 0.0 ==> (ProgressTone(Percentage(spent, budget)) == Success <==> spent <= 0.0)
  {
  }

  /** The bar never passes 100: it shows the percentage up to 100 and 100
      beyond; only a NaN percentage gives a NaN bar. */
  lemma ProgressCapped(p: Num)
    ensures ProgressValue(p).NaN? <==> p.NaN?
    ensures !p.NaN? ==> Le(ProgressValue(p), Finite(100.0))
    ensures Le(p, Finite(100.0)) ==> ProgressValue(p) == p
    ensures Gt(p, Finite(100.0)) ==> ProgressValue(p) == Finite(100.0)
  {
  }

  /** The label says "Over by" exactly when the category is overspent, and
      the amount it shows is never negative and is the distance from the
      budget. */
  lemma LabelShowsDistance(spent: real, budget: real)
    ensures var (caption, amount) := RemainingLabel(Remaining(spent, budget));
      (caption == "Over by: " <==> spent > budget) &&
      amount >= 0.0 && (amount == budget - spent || amount == spent - budget)
    ensures RemainingLabel(Remaining(spent, budget)).0 == "Over by: " <==>
      RemainingTone(Remaining(spent, budget)) == Destructive
  {
  }

  /** For a positive budget, the "% used" text is red exactly when the
      remaining amount is negative. */
  lemma OverrunAgrees(spent: real, budget: real)
    requires budget > 0.0
    ensures UsageTone(Percentage(spent, budget)) == Destructive <==> Remaining(spent, budget) < 0.0
  {
    PercentAboveHundred(spent, budget);
  }

  lemma PercentAboveHundred(spent: real, budget: real)
    requires budget > 0.0
    ensures spent / budget * 100.0 > 100.0 <==> spent > budget
  {
    var r := spent / budget;
    assert spent == r * budget;
    if r > 1.0 {
      assert r * budget > 1.0 * budget;
    } else {
      assert r * budget <= 1.0 * budget;
    }
  }

  /** With a negative budget the two disagree: budget -10 and spending -20
      leave 10 remaining, yet the card reports 200 per cent used in red. */
  lemma NegativeBudgetDisagrees()
    ensures Remaining(-20.0, -10.0) == 10.0
    ensures Percentage(-20.0, -10.0) == Finite(200.0)
    ensures UsageTone(Percentage(-20.0, -10.0)) == Destructive && RemainingTone(Remaining(-20.0, -10.0)) == Success
  {
  }
}
