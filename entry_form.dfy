/** The shape shared by the add-expense and add-income dialogs: four text
    fields (a category or source, an amount, a description and a date), a
    validation step that records one message per bad field, and a submit
    that hands over the entry and resets the fields. */
module EntryForm {
  import Common
  import opened JsString
  import opened JsNumber

  /** The four fields; `Kind` is the category of an expense or the source of
      an income. */
  datatype Field = Kind | Amount | Description | Date

  datatype FormData = FormData(kind: string, amount: string, description: string, date: string)

  /** The entry a valid submit hands over, with the amount parsed. */
  datatype Entry = Entry(kind: string, amount: Num, description: string, date: string)

  /** The messages a dialog shows for a missing kind and a bad amount. */
  datatype Labels = Labels(kindMessage: string, amountMessage: string)

  /** An option of the first field's select: the stored value and the text
      shown for it. Icons and colours are presentation. */
  datatype Choice = Choice(value: string, caption: string)

  /** `choices.find(c => c.value === value)`: the first option with that
      value, if any. */
  function Selected(choices: seq<Choice>, value: string): (r: Common.Option<Choice>)
    ensures r.None? <==> forall i :: 0 <= i < |choices| ==> choices[i].value != value
    ensures r.Some? ==> exists i :: (0 <= i < |choices| && choices[i] == r.value && r.value.value == value &&
      forall j :: 0 <= j < i ==> choices[j].value != value)
  {
    if choices == [] then Common.None
    else if choices[0].value == value then Common.Some(choices[0])
    else
      var r := Selected(choices[1..], value);
      assert r.Some? ==> exists i :: (1 <= i < |choices| && choices[i] == r.value && r.value.value == value &&
        forall j :: 0 <= j < i ==> choices[j].value != value) by {
        if r.Some? {
          var k :| 0 <= k < |choices[1..]| && choices[1..][k] == r.value && r.value.value == value &&
            forall j :: 0 <= j < k ==> choices[1..][j].value != value;
          assert forall j :: 0 <= j < k + 1 ==> choices[j].value != value by {
            forall j | 0 <= j < k + 1 ensures choices[j].value != value {
              if j > 0 { assert choices[j] == choices[1..][j - 1]; }
            }
          }
        }
      }
      r
  }

  /** No two options share a value. */
  predicate DistinctValues(choices: seq<Choice>) {
    forall i, j :: 0 <= i < j < |choices| ==> choices[i].value != choices[j].value
  }

  /** The fields after a reset: empty, dated today. */
  function EmptyForm(today: string): FormData {
    FormData("", "", "", today)
  }

  function Get(f: FormData, field: Field): string {
    match field
    case Kind => f.kind
    case Amount => f.amount
    case Description => f.description
    case Date => f.date
  }

  /** `{ ...prev, [field]: value }`. */
  function WithField(f: FormData, field: Field, value: string): FormData {
    match field
    case Kind => f.(kind := value)
    case Amount => f.(amount := value)
    case Description => f.(description := value)
    case Date => f.(date := value)
  }

  /** `!amount || parseFloat(amount) <= 0`: a NaN amount is not rejected. */
  predicate AmountRejected(amount: string) {
    amount == [] || Le(ParseFloat(amount), Finite(0.0))
  }

  /** A field whose value fails its check. */
  predicate Bad(f: FormData, field: Field) {
    match field
    case Kind => f.kind == []
    case Amount => AmountRejected(f.amount)
    case Description => IsBlank(f.description)
    case Date => f.date == []
  }

  function Message(labels: Labels, field: Field): string {
    match field
    case Kind => labels.kindMessage
    case Amount => labels.amountMessage
    case Description => "Description is required"
    case Date => "Date is required"
  }

  /** A field's error is shown when it has a non-empty message. */
  predicate ShowsError(errors: map<Field, string>, field: Field) {
    field in errors && errors[field] != ""
  }

  /** What typing does to the errors: a shown error of that field is
      blanked (the key stays, with an empty message). */
  function Cleared(errors: map<Field, string>, field: Field): map<Field, string> {
    if ShowsError(errors, field) then errors[field := ""] else errors
  }

  /** The errors hold one message for each field that fails its check and
      nothing else. */
  predicate ErrorsFor(errors: map<Field, string>, f: FormData, labels: Labels) {
    (Kind in errors <==> Bad(f, Kind)) &&
    (Amount in errors <==> Bad(f, Amount)) &&
    (Description in errors <==> Bad(f, Description)) &&
    (Date in errors <==> Bad(f, Date)) &&
    (Kind in errors ==> errors[Kind] == Message(labels, Kind)) &&
    (Amount in errors ==> errors[Amount] == Message(labels, Amount)) &&
    (Description in errors ==> errors[Description] == Message(labels, Description)) &&
    (Date in errors ==> errors[Date] == Message(labels, Date))
  }

  /** Every field passes its check. */
  predicate AllGood(f: FormData) {
    !Bad(f, Kind) && !Bad(f, Amount) && !Bad(f, Description) && !Bad(f, Date)
  }

  /** `validateForm`: one message for each field that fails its check, and
      success exactly when there is none. */
  method Validate(f: FormData, labels: Labels) returns (errors: map<Field, string>, ok: bool)
    ensures ErrorsFor(errors, f, labels)
    ensures ok <==> AllGood(f)
  {
    var badKind, badAmount, badDescription, badDate := Bad(f, Kind), Bad(f, Amount), Bad(f, Description), Bad(f, Date);
    errors := map[];
    if badKind {
      errors := errors[Kind := labels.kindMessage];
    }
    if badAmount {
      errors := errors[Amount := labels.amountMessage];
    }
    if badDescription {
      errors := errors[Description := "Description is required"];
    }
    if badDate {
      errors := errors[Date := "Date is required"];
    }
    ok := |errors| == 0;
  }

  // ---------------------------------------------------------------------
  // Properties

  /** Changing one field changes that field alone. */
  lemma WithFieldChangesOnlyIt(f: FormData, field: Field, value: string, other: Field)
    ensures Get(WithField(f, field, value), other) == if other == field then value else Get(f, other)
  {
  }

  /** Typing into a field hides its error and leaves whether the other
      fields show theirs as it was. */
  lemma ClearedHidesOnlyIt(errors: map<Field, string>, field: Field, other: Field)
    ensures !ShowsError(Cleared(errors, field), field)
    ensures other != field ==> (ShowsError(Cleared(errors, field), other) <==> ShowsError(errors, other))
  {
  }

  /** An amount of digits is rejected exactly when its value is zero. */
  lemma DigitAmounts(amount: string)
    requires amount != [] && AllDigits(amount)
    ensures AmountRejected(amount) <==> DigitsValue(amount) == 0
  {
    ParseFloatDigits(amount);
  }

  /** A text that is not a number parses as NaN and is not rejected. */
  lemma NotANumberPasses()
    ensures ParseFloat("abc") == NaN && !AmountRejected("abc")
  {
    var s := "abc";
    assert !IsSpace(s[0]);
    assert TrimStart(s) == s;
    assert Unsigned(s) == s;
    assert !IsPrefix("Infinity", s);
    assert LeadingDigits(s) == 0;
  }

  /** When both dialog-specific messages are non-empty, a field shows an
      error after validation exactly when it fails its check. */
  lemma ShownErrorsAreBadFields(errors: map<Field, string>, f: FormData, labels: Labels, field: Field)
    requires ErrorsFor(errors, f, labels)
    requires labels.kindMessage != "" && labels.amountMessage != ""
    ensures ShowsError(errors, field) <==> Bad(f, field)
  {
    assert "Description is required" != "";
    assert "Date is required" != "";
  }

  /** A form that passes validation has every field filled in. */
  lemma GoodFieldsAreFilled(f: FormData)
    requires AllGood(f)
    ensures f.kind != [] && f.amount != [] && f.description != [] && f.date != []
  {
    NotBlankIsNonEmpty(f.description);
  }

  /** With distinct values, selecting an option's value finds that option. */
  lemma SelectedFindsOption(choices: seq<Choice>, i: int)
    requires DistinctValues(choices) && 0 <= i < |choices|
    ensures Selected(choices, choices[i].value) == Common.Some(choices[i])
  {
    var r := Selected(choices, choices[i].value);
    var k :| 0 <= k < |choices| && choices[k] == r.value && r.value.value == choices[i].value &&
      forall j :: 0 <= j < k ==> choices[j].value != choices[i].value;
    assert k == i;
  }

  /** A dialog's state. */
  class EntryDialog {
    const labels: Labels
    var formData: FormData
    var errors: map<Field, string>

    constructor (labels: Labels, today: string)
      ensures this.labels == labels && formData == EmptyForm(today) && errors == map[]
    {
      this.labels := labels;
      formData := EmptyForm(today);
      errors := map[];
    }

    /** `handleInputChange`. */
    method HandleInputChange(field: Field, value: string)
      modifies this
      ensures formData == WithField(old(formData), field, value)
      ensures errors == Cleared(old(errors), field)
    {
      formData := WithField(formData, field, value);
      if ShowsError(errors, field) {
        errors := errors[field := ""];
      }
    }

    /** `handleSubmit`: on success hand over the entry with the parsed
      amount, reset the fields to today's empty form and drop the errors;
      otherwise keep the fields and show the new errors. */
    method HandleSubmit(today: string) returns (entry: Common.Option<Entry>)
      modifies this
      ensures var f := old(formData);
        if AllGood(f) then
          entry == Common.Some(Entry(f.kind, ParseFloat(f.amount), f.description, f.date)) &&
          formData == EmptyForm(today) && errors == map[]
        else
          entry == Common.None && formData == f && ErrorsFor(errors, f, labels)
    {
      var newErrors, ok := Validate(formData, labels);
      errors := newErrors;
      if ok {
        entry := Common.Some(Entry(formData.kind, ParseFloat(formData.amount), formData.description, formData.date));
        formData := EmptyForm(today);
        errors := map[];
      } else {
        entry := Common.None;
      }
    }
  }
}
