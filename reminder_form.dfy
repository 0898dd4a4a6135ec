/** The reminder dialog (`ReminderForm`): a form over a title, a description,
    a date, a type and an amount that hands a finished reminder to its
    owner. */
module ReminderForm {
  import opened Common

  /** `"sip" | "goal" | "tip" | "reminder"`. */
  datatype ReminderType = Sip | Goal | Tip | General

  /** `Reminder`; the description and the amount are optional. */
  datatype Reminder = Reminder(
    id: string, title: string, description: Option<string>, date: Date,
    kind: ReminderType, amount: Option<string>)

  datatype FormData = FormData(title: string, description: string, date: Date, kind: ReminderType, amount: string)

  /** The fields after a submit: empty, dated now, of the general type. */
  function EmptyForm(now: Date): FormData {
    FormData("", "", now, General, "")
  }

  /** The fields the form starts with: those of the reminder being edited,
      with an absent description or amount read as empty; without one, the
      empty form. */
  function InitialForm(editing: Option<Reminder>, now: Date): (f: FormData)
    ensures editing.None? ==> f == EmptyForm(now)
    ensures editing.Some? ==>
      (f.title == editing.value.title && f.date == editing.value.date && f.kind == editing.value.kind)
    ensures editing.Some? ==>
      (f.description == if editing.value.description.Some? then editing.value.description.value else "")
    ensures editing.Some? ==>
      (f.amount == if editing.value.amount.Some? then editing.value.amount.value else "")
  {
    match editing
    case None => EmptyForm(now)
    case Some(r) => FormData(r.title, r.description.GetOr(""), r.date, r.kind, r.amount.GetOr(""))
  }

  /** The reminder a submit hands over: the fields as they stand, with the
      edited reminder's id when it has a non-empty one and a fresh id
      otherwise. */
  function Built(f: FormData, editing: Option<Reminder>, freshId: string): Reminder {
    var id := if editing.Some? && editing.value.id != "" then editing.value.id else freshId;
    Reminder(id, f.title, Some(f.description), f.date, f.kind, Some(f.amount))
  }

  // ---------------------------------------------------------------------
  // Properties

  /** Editing keeps the reminder's id; a new reminder gets the fresh one; the
      rest is taken from the fields, with description and amount always
      present. */
  lemma BuiltKeepsIdentity(f: FormData, editing: Option<Reminder>, freshId: string)
    ensures editing.Some? && editing.value.id != "" ==> Built(f, editing, freshId).id == editing.value.id
    ensures editing.None? ==> Built(f, editing, freshId).id == freshId
    ensures var r := Built(f, editing, freshId);
      r.title == f.title && r.description == Some(f.description) && r.date == f.date &&
      r.kind == f.kind && r.amount == Some(f.amount)
  {
  }

  /** Opening the form on a reminder and saving it untouched gives the same
      reminder back, as long as it has an id, a description and an amount. */
  lemma UntouchedEditRoundTrips(r: Reminder, now: Date, freshId: string)
    requires r.id != "" && r.description.Some? && r.amount.Some?
    ensures Built(InitialForm(Some(r), now), Some(r), freshId) == r
  {
  }

  /** A reminder saved without a description or an amount comes back with
      empty ones: the round trip is exact only up to that. */
  lemma AbsentFieldsComeBackEmpty(r: Reminder, now: Date, freshId: string)
    requires r.id != "" && r.description.None?
    ensures Built(InitialForm(Some(r), now), Some(r), freshId).description == Some("")
    ensures Built(InitialForm(Some(r), now), Some(r), freshId) != r
  {
  }

  /** The form's state. */
  class ReminderEditor {
    var formData: FormData

    constructor (editing: Option<Reminder>, now: Date)
      ensures formData == InitialForm(editing, now)
    {
      formData := InitialForm(editing, now);
    }

    method SetTitle(title: string)
      modifies this
      ensures formData == old(formData).(title := title)
    {
      formData := formData.(title := title);
    }

    method SetDescription(description: string)
      modifies this
      ensures formData == old(formData).(description := description)
    {
      formData := formData.(description := description);
    }

    /** The date picker: a cleared selection leaves the date as it was. */
    method SelectDate(picked: Option<Date>)
      modifies this
      ensures formData == if picked.Some? then old(formData).(date := picked.value) else old(formData)
    {
      if picked.Some? {
        formData := formData.(date := picked.value);
      }
    }

    method SetType(kind: ReminderType)
      modifies this
      ensures formData == old(formData).(kind := kind)
    {
      formData := formData.(kind := kind);
    }

    method SetAmount(amount: string)
      modifies this
      ensures formData == old(formData).(amount := amount)
    {
      formData := formData.(amount := amount);
    }

    /** `handleSubmit`. The title field is `required`, so the browser does not
      submit while it is empty; otherwise the reminder is handed over and
      the fields are reset. */
    method HandleSubmit(editing: Option<Reminder>, freshId: string, now: Date) returns (saved: Option<Reminder>)
      modifies this
      ensures old(formData).title == "" ==> saved == None && formData == old(formData)
      ensures old(formData).title != "" ==>
        saved == Some(Built(old(formData), editing, freshId)) && formData == EmptyForm(now)
    {
      if formData.title == "" {
        saved := None;
      } else {
        saved := Some(Built(formData, editing, freshId));
        formData := EmptyForm(now);
      }
    }
  }
}
