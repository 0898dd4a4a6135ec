/** The add-expense dialog: the shared entry form with the category as its
    first field, and a preview card once the amount, the category and the
    description are filled in. */
module ExpenseForm {
  import opened JsString
  import opened JsNumber
  import opened EntryForm

  const ExpenseLabels := Labels("Category is required", "Amount must be greater than 0")

  /** The categories the dialog offers; each is stored under its own name. */
  const Categories: seq<Choice> := [
    Choice("Food & Dining", "Food & Dining"),
    Choice("Housing", "Housing"),
    Choice("Transportation", "Transportation"),
    Choice("Shopping", "Shopping"),
    Choice("Entertainment", "Entertainment"),
    Choice("Healthcare", "Healthcare")
  ]

  /** The preview card is shown once the amount, the category and the
      description are non-empty (the description is not trimmed here). */
  predicate PreviewShown(f: FormData) {
    f.amount != [] && f.kind != [] && f.description != []
  }

  /** The amount the preview shows: `parseFloat(amount || '0')`. */
  function PreviewAmount(f: FormData): (n: Num)
    ensures f.amount == [] ==> n == Finite(0.0)
    ensures f.amount != [] ==> n == ParseFloat(f.amount)
  {
    var zero := "0";
    assert DigitsValue(zero) == 0;
    ParseFloatDigits(zero);
    ParseFloat(if f.amount == [] then zero else f.amount)
  }

  // ---------------------------------------------------------------------
  // Properties

  /** Every category can be selected, and is found under its own name. */
  lemma CategoriesAreSelectable(i: int)
    requires 0 <= i < |Categories|
    ensures Selected(Categories, Categories[i].value) == Common.Some(Categories[i])
    ensures Categories[i].caption == Categories[i].value
  {
    SelectedFindsOption(Categories, i);
  }

  /** After validation with the expense messages, each field shows an error
      exactly when it fails its check. */
  lemma ExpenseErrorsShown(errors: map<Field, string>, f: FormData, field: Field)
    requires ErrorsFor(errors, f, ExpenseLabels)
    ensures ShowsError(errors, field) <==> Bad(f, field)
  {
    ShownErrorsAreBadFields(errors, f, ExpenseLabels, field);
  }

  /** A form that passes validation already shows its preview; the converse
      fails, for a blank description or a zero amount. */
  lemma PreviewPrecedesSubmit(f: FormData)
    ensures AllGood(f) ==> PreviewShown(f)
    ensures PreviewShown(FormData("Housing", "0", "Rent", "2024-01-01")) &&
      !AllGood(FormData("Housing", "0", "Rent", "2024-01-01"))
  {
    if AllGood(f) {
      GoodFieldsAreFilled(f);
    }
    var zero := "0";
    assert DigitsValue(zero) == 0;
    DigitAmounts(zero);
  }
}
