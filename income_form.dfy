/** The add-income dialog: the shared entry form with the income source as
    its first field, and a preview card while every field is filled in. */
module IncomeForm {
  import opened JsString
  import opened JsNumber
  import opened EntryForm

  const IncomeLabels := Labels("Income source is required", "Valid amount is required")

  /** The income sources the dialog offers: a stored value and its caption. */
  const IncomeSources: seq<Choice> := [
    Choice("salary", "Salary"),
    Choice("freelance", "Freelance"),
    Choice("investment", "Investment Returns"),
    Choice("bonus", "Bonus"),
    Choice("other", "Other")
  ]

  /** `isFormValid`: every field is non-empty. It only decides whether the
      preview card is shown; submitting still runs the full validation. */
  predicate IsFormValid(f: FormData) {
    f.kind != [] && f.amount != [] && f.description != [] && f.date != []
  }

  /** The caption the preview shows for the chosen source, if it is one of
      the offered ones. */
  function PreviewCaption(f: FormData): (c: Common.Option<string>)
    ensures c.Some? <==> exists i :: 0 <= i < |IncomeSources| && IncomeSources[i].value == f.kind
  {
    match Selected(IncomeSources, f.kind)
    case Some(choice) => Common.Some(choice.caption)
    case None => Common.None
  }

  // ---------------------------------------------------------------------
  // Properties

  /** Every source can be selected and previews under its own caption. */
  lemma SourcesAreSelectable(i: int)
    requires 0 <= i < |IncomeSources|
    ensures Selected(IncomeSources, IncomeSources[i].value) == Common.Some(IncomeSources[i])
    ensures PreviewCaption(FormData(IncomeSources[i].value, "", "", "")) == Common.Some(IncomeSources[i].caption)
  {
    SelectedFindsOption(IncomeSources, i);
  }

  /** After validation with the income messages, each field shows an error
      exactly when it fails its check. */
  lemma IncomeErrorsShown(errors: map<Field, string>, f: FormData, field: Field)
    requires ErrorsFor(errors, f, IncomeLabels)
    ensures ShowsError(errors, field) <==> Bad(f, field)
  {
    ShownErrorsAreBadFields(errors, f, IncomeLabels, field);
  }

  /** A form that passes validation is one `isFormValid` accepts; the
      converse fails, for a zero amount or a description of spaces. */
  lemma ValidatedImpliesFormValid(f: FormData)
    ensures AllGood(f) ==> IsFormValid(f)
    ensures IsFormValid(FormData("salary", "0", "June", "2024-06-30")) &&
      !AllGood(FormData("salary", "0", "June", "2024-06-30"))
    ensures IsFormValid(FormData("salary", "5", " ", "2024-06-30")) &&
      !AllGood(FormData("salary", "5", " ", "2024-06-30"))
  {
    if AllGood(f) {
      GoodFieldsAreFilled(f);
    }
    var zero := "0";
    assert DigitsValue(zero) == 0;
    DigitAmounts(zero);
    var space := " ";
    assert IsSpace(space[0]);
    BlankIffAllSpace(space);
  }
}
