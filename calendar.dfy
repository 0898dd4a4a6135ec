/** The investment calendar page: a month grid with coloured dots for the
    reminders of each day, month navigation, a selected day and the list of
    reminders that the reminder dialog adds to and edits. */
module Calendar {
  import opened Common
  import opened Lists
  import opened ReminderForm

  // ---------------------------------------------------------------------
  // The JavaScript calendar

  /** `new Date(y, ...)` reads a year from 0 to 99 as 1900 to 1999. */
  function FullYear(y: int): int {
    if 0 <= y <= 99 then 1900 + y else y
  }

  /** The Gregorian leap-year rule, which `Date` applies to every year. */
  predicate IsLeap(y: int) {
    y % 4 == 0 && (y % 100 != 0 || y % 400 == 0)
  }

  /** The length of month `m` (0 is January) of full year `y`. */
  function DaysInMonth(y: int, m: int): (n: int)
    requires 0 <= m < 12
    ensures 28 <= n <= 31
    ensures n == 28 <==> m == 1 && !IsLeap(y)
    ensures n == 29 <==> m == 1 && IsLeap(y)
  {
    if m == 1 then (if IsLeap(y) then 29 else 28)
    else if m in {3, 5, 8, 10} then 30
    else 31
  }

  /** The days of year `y` before month `m`. */
  function DaysBeforeMonth(y: int, m: int): int
    requires 0 <= m <= 12
  {
    if m == 0 then 0 else DaysBeforeMonth(y, m - 1) + DaysInMonth(y, m - 1)
  }

  /** The days from 1 January of year 1 to 1 January of year `y`. */
  function DaysBeforeYear(y: int): int {
    365 * (y - 1) + (y - 1) / 4 - (y - 1) / 100 + (y - 1) / 400
  }

  /** The number of a day, counting 1 January of year 1 as day 0. */
  function DayNumber(y: int, m: int, d: int): int
    requires 0 <= m < 12
  {
    DaysBeforeYear(y) + DaysBeforeMonth(y, m) + d - 1
  }

  /** `getDay()`: 0 is Sunday; 1 January of year 1 was a Monday. */
  function Weekday(y: int, m: int, d: int): (w: int)
    requires 0 <= m < 12
    ensures 0 <= w < 7
  {
    (DayNumber(y, m, d) + 1) % 7
  }

  /** `daysInMonth`: `new Date(viewYear, viewMonth + 1, 0).getDate()`. */
  function MonthLength(viewYear: int, viewMonth: int): int
    requires 0 <= viewMonth < 12
  {
    DaysInMonth(FullYear(viewYear), viewMonth)
  }

  /** `firstDayOfMonth`: `new Date(viewYear, viewMonth, 1).getDay()`. */
  function FirstDayOfMonth(viewYear: int, viewMonth: int): int
    requires 0 <= viewMonth < 12
  {
    Weekday(FullYear(viewYear), viewMonth, 1)
  }

  /** The month after `(m, y)`, as the right arrow moves. */
  function NextMonth(m: int, y: int): (int, int) {
    if m == 11 then (0, y + 1) else (m + 1, y)
  }

  /** The month before `(m, y)`, as the left arrow moves. */
  function PrevMonth(m: int, y: int): (int, int) {
    if m == 0 then (11, y - 1) else (m - 1, y)
  }

  // ---------------------------------------------------------------------
  // Reminders

  /** `getEventsForDate`: the reminders on day `day` of the month shown, in
      list order. The year is compared with `getFullYear()` as it stands. */
  function EventsForDate(reminders: seq<Reminder>, day: int, viewMonth: int, viewYear: int): seq<Reminder> {
    Filter(reminders, (r: Reminder) => r.date.day == day && r.date.month == viewMonth && r.date.year == viewYear)
  }

  /** `handleSaveReminder`: while a reminder is being edited, every reminder
      with the saved one's id is replaced by it; otherwise it is appended. */
  function Saved(reminders: seq<Reminder>, editing: Option<Reminder>, saved: Reminder): seq<Reminder> {
    if editing.Some? then MapWhere(reminders, (r: Reminder) => r.id == saved.id, (r: Reminder) => saved)
    else reminders + [saved]
  }

  /** `handleDeleteReminder`. */
  function WithoutReminder(reminders: seq<Reminder>, id: string): seq<Reminder> {
    Filter(reminders, (r: Reminder) => r.id != id)
  }

  /** The four reminders the page starts with, dated in the current month. */
  function DefaultEvents(today: Date): seq<Reminder> {
    [ Reminder("1", "SIP Due - Axis Bluechip Fund", None, Date(today.year, today.month, 15), Sip, Some("₹5,000")),
      Reminder("2", "SIP Due - HDFC Small Cap Fund", None, Date(today.year, today.month, 20), Sip, Some("₹3,000")),
      Reminder("3", "Emergency Fund Review", None, Date(today.year, today.month, 25), Goal, Some("₹2,50,000")),
      Reminder("4", "Portfolio Rebalancing Reminder", None, Date(today.year, today.month, 28), Tip, None) ]
  }

  /** The colour of a reminder's badge (`getEventTypeColor`). */
  function BadgeTone(kind: ReminderType): Tone {
    match kind
    case Sip => Primary
    case Goal => Success
    case Tip => Warning
    case General => Secondary
  }

  /** The colour of a reminder's dot in the grid. */
  function DotTone(kind: ReminderType): Tone {
    match kind
    case Sip => Primary
    case Goal => Success
    case Tip => Warning
    case General => Accent
  }

  /** A cell of the month grid: a blank before the first day, or a day with
      the dots of its first three reminders, a grey dot when it has more,
      and whether it is today and whether it is selected. */
  datatype Cell = Blank | Day(day: int, dots: seq<Tone>, overflow: bool, today: bool, selected: bool)

  function Dots(events: seq<Reminder>): (dots: seq<Tone>)
    ensures |dots| == if |events| < 3 then |events| else 3
    ensures forall i :: 0 <= i < |dots| ==> dots[i] == DotTone(events[i].kind)
  {
    if events == [] then []
    else if |events| > 3 then Dots(events[..3])
    else [DotTone(events[0].kind)] + Dots(events[1..])
  }

  // ---------------------------------------------------------------------
  // Properties of the calendar

  /** Moving forward then back (or back then forward) returns to the same
      month, and each arrow moves the month count by exactly one. */
  lemma ArrowsAreInverse(m: int, y: int)
    requires 0 <= m < 12
    ensures var (m1, y1) := NextMonth(m, y); 0 <= m1 < 12 && 12 * y1 + m1 == 12 * y + m + 1
    ensures var (m2, y2) := PrevMonth(m, y); 0 <= m2 < 12 && 12 * y2 + m2 == 12 * y + m - 1
    ensures PrevMonth(NextMonth(m, y).0, NextMonth(m, y).1) == (m, y)
    ensures NextMonth(PrevMonth(m, y).0, PrevMonth(m, y).1) == (m, y)
  {
  }

  /** Bounds on a product by a positive factor, for the division proofs. */
  lemma ProductBounds(k: int, t: int)
    requires k > 0
    ensures t <= 0 ==> k * t <= 0
    ensures t >= 1 ==> k * t >= k
    ensures t >= 2 ==> k * t >= 2 * k
    ensures t <= -1 ==> k * t <= -k
  {
  }

  /** `y / k` grows by one exactly when `y` is a multiple of `k`. */
  lemma DivStep(y: int, k: int)
    requires k > 0
    ensures y / k - (y - 1) / k == if y % k == 0 then 1 else 0
  {
    var q, r := y / k, y % k;
    assert y == k * q + r && 0 <= r < k;
    var q1, r1 := (y - 1) / k, (y - 1) % k;
    assert y - 1 == k * q1 + r1 && 0 <= r1 < k;
    assert k * (q - q1) == r1 + 1 - r;
    ProductBounds(k, q - q1);
  }

  /** A year has 366 days when it is a leap year and 365 otherwise. */
  lemma YearLength(y: int)
    ensures DaysBeforeYear(y + 1) == DaysBeforeYear(y) + (if IsLeap(y) then 366 else 365)
    ensures DaysBeforeMonth(y, 12) == (if IsLeap(y) then 366 else 365)
  {
    LeapDaysStep(y);
    MonthsFillYear(y);
  }

  /** The leap days counted before year `y + 1` exceed those before `y` by
      one exactly when `y` is a leap year. */
  lemma LeapDaysStep(y: int)
    ensures y / 4 - y / 100 + y / 400 - ((y - 1) / 4 - (y - 1) / 100 + (y - 1) / 400)
      == if IsLeap(y) then 1 else 0
  {
    DivStep(y, 4);
    DivStep(y, 100);
    DivStep(y, 400);
    CenturiesDivide(y);
    var fours := y / 4 - (y - 1) / 4;
    var centuries := y / 100 - (y - 1) / 100;
    var fourCenturies := y / 400 - (y - 1) / 400;
    assert fours - centuries + fourCenturies == if IsLeap(y) then 1 else 0;
  }

  /** A multiple of 400 is a multiple of 100, and one of 100 a multiple of 4. */
  lemma CenturiesDivide(y: int)
    ensures y % 400 == 0 ==> y % 100 == 0
    ensures y % 100 == 0 ==> y % 4 == 0
  {
    if y % 400 == 0 {
      var q := y / 400;
      assert y == 400 * q;
      MultipleHasNoRemainder(100, 4 * q);
    }
    if y % 100 == 0 {
      var q := y / 100;
      assert y == 100 * q;
      MultipleHasNoRemainder(4, 25 * q);
    }
  }

  lemma MultipleHasNoRemainder(k: int, t: int)
    requires k > 0
    ensures (k * t) % k == 0
  {
    var y := k * t;
    var q, r := y / k, y % k;
    assert y == k * q + r && 0 <= r < k;
    assert k * (t - q) == r;
    ProductBounds(k, t - q);
  }

  /** The twelve months add up to the length of the year. */
  lemma MonthsFillYear(y: int)
    ensures DaysBeforeMonth(y, 12) == 337 + DaysInMonth(y, 1)
  {
    var feb := DaysInMonth(y, 1);
    assert DaysBeforeMonth(y, 1) == 31;
    assert DaysBeforeMonth(y, 2) == 31 + feb;
    assert DaysBeforeMonth(y, 3) == 62 + feb;
    assert DaysBeforeMonth(y, 4) == 92 + feb;
    assert DaysBeforeMonth(y, 5) == 123 + feb;
    assert DaysBeforeMonth(y, 6) == 153 + feb;
    assert DaysBeforeMonth(y, 7) == 184 + feb;
    assert DaysBeforeMonth(y, 8) == 215 + feb;
    assert DaysBeforeMonth(y, 9) == 245 + feb;
    assert DaysBeforeMonth(y, 10) == 276 + feb;
    assert DaysBeforeMonth(y, 11) == 306 + feb;
  }

  /** A month begins on the weekday after the one its predecessor ends on,
      across the turn of a year too, as long as the two years are read as
      consecutive years. */
  lemma NextMonthContinuesWeek(m: int, y: int)
    requires 0 <= m < 12
    requires m < 11 || FullYear(y + 1) == FullYear(y) + 1
    ensures var (m1, y1) := NextMonth(m, y);
      FirstDayOfMonth(y1, m1) == (FirstDayOfMonth(y, m) + MonthLength(y, m)) % 7
  {
    var (m1, y1) := NextMonth(m, y);
    NextMonthDayNumber(m, y);
    WeekShift(DayNumber(FullYear(y), m, 1), MonthLength(y, m));
  }

  /** The first of the next month is the day after the last of this one. */
  lemma NextMonthDayNumber(m: int, y: int)
    requires 0 <= m < 12
    requires m < 11 || FullYear(y + 1) == FullYear(y) + 1
    ensures var (m1, y1) := NextMonth(m, y);
      DayNumber(FullYear(y1), m1, 1) == DayNumber(FullYear(y), m, 1) + MonthLength(y, m)
  {
    var full := FullYear(y);
    if m == 11 {
      YearLength(full);
      assert DaysBeforeMonth(full, 12) == DaysBeforeMonth(full, 11) + DaysInMonth(full, 11);
    }
  }

  /** Counting `k` days on moves the weekday on by `k`. */
  lemma WeekShift(n: int, k: int)
    ensures (n + k + 1) % 7 == ((n + 1) % 7 + k) % 7
  {
    var a := (n + 1) % 7;
    assert n + 1 == 7 * ((n + 1) / 7) + a;
    var b := (a + k) % 7;
    assert a + k == 7 * ((a + k) / 7) + b;
    assert n + k + 1 == 7 * ((n + 1) / 7 + (a + k) / 7) + b;
  }

  /** Two-digit years break that: the month after December 99 is January of
      year 100, not of 2000, so the grid jumps. */
  lemma TwoDigitYearsJump()
    ensures FullYear(99) == 1999 && FullYear(100) == 100
    ensures !(11 < 11 || FullYear(99 + 1) == FullYear(99) + 1)
  {
  }

  /** Placed after the leading blanks, each day of the month lands in the
      column of its own weekday. */
  lemma ColumnIsWeekday(viewYear: int, viewMonth: int, d: int)
    requires 0 <= viewMonth < 12 && 1 <= d <= MonthLength(viewYear, viewMonth)
    ensures (FirstDayOfMonth(viewYear, viewMonth) + d - 1) % 7 == Weekday(FullYear(viewYear), viewMonth, d)
  {
    var n := DayNumber(FullYear(viewYear), viewMonth, 1);
    assert DayNumber(FullYear(viewYear), viewMonth, d) == n + (d - 1);
    WeekShift(n, d - 1);
  }

  /** 1 January 1970 was a Thursday. */
  lemma EpochIsThursday()
    ensures Weekday(1970, 0, 1) == 4
  {
  }

  // ---------------------------------------------------------------------
  // Properties of the reminder list

  /** A day's reminders are exactly those of the list dated that day of the
      month shown, in list order. */
  lemma EventsForDateExact(reminders: seq<Reminder>, day: int, viewMonth: int, viewYear: int)
    ensures forall r :: r in EventsForDate(reminders, day, viewMonth, viewYear) <==>
      (r in reminders && r.date == Date(viewYear, viewMonth, day))
    ensures IsSubsequence(EventsForDate(reminders, day, viewMonth, viewYear), reminders)
  {
    FilterIsSubsequence(reminders, (r: Reminder) => r.date.day == day && r.date.month == viewMonth && r.date.year == viewYear);
  }

  /** A new reminder is appended; an edited one replaces each reminder with
      its id and nothing else. */
  lemma SavedPlacesReminder(reminders: seq<Reminder>, editing: Option<Reminder>, saved: Reminder)
    ensures editing.None? ==> Saved(reminders, editing, saved) == reminders + [saved]
    ensures editing.Some? ==>
      (|Saved(reminders, editing, saved)| == |reminders| &&
       forall i :: 0 <= i < |reminders| ==>
         Saved(reminders, editing, saved)[i] == (if reminders[i].id == saved.id then saved else reminders[i]))
    ensures saved in Saved(reminders, editing, saved) <==> editing.None? || exists r :: r in reminders && r.id == saved.id
  {
    if editing.Some? {
      var s := Saved(reminders, editing, saved);
      if exists r :: r in reminders && r.id == saved.id {
        var r :| r in reminders && r.id == saved.id;
        var i :| 0 <= i < |reminders| && reminders[i] == r;
        assert s[i] == saved;
      }
      if saved in s {
        var i :| 0 <= i < |s| && s[i] == saved;
        assert reminders[i].id == saved.id;
      }
    }
  }

  /** Deleting removes every reminder with the id and keeps the others in
      order. */
  lemma DeleteRemovesId(reminders: seq<Reminder>, id: string)
    ensures forall r :: r in WithoutReminder(reminders, id) <==> r in reminders && r.id != id
    ensures IsSubsequence(WithoutReminder(reminders, id), reminders)
  {
    FilterIsSubsequence(reminders, (r: Reminder) => r.id != id);
  }

  /** The dot and the badge of a reminder have the same colour except for a
      general reminder, whose dot is accent and whose badge is secondary. */
  lemma DotMatchesBadge(kind: ReminderType)
    ensures DotTone(kind) == BadgeTone(kind) <==> kind != General
  {
  }

  /** The page's state. The time of day the page was loaded is `today`. */
  class CalendarPage {
    const today: Date
    var selectedDate: Option<int>
    var viewMonth: int
    var viewYear: int
    var reminders: seq<Reminder>
    var showReminderForm: bool
    var editingReminder: Option<Reminder>
    /** The reminder dialog, mounted once with the page while no reminder is
      being edited; its fields live as long as the page. */
    const form: ReminderEditor

    /** The month shown is a month index. */
    ghost predicate Valid()
      reads this
    {
      0 <= viewMonth < 12
    }

    constructor (today: Date)
      requires 0 <= today.month < 12
      ensures Valid() && this.today == today
      ensures selectedDate == None && viewMonth == today.month && viewYear == today.year
      ensures reminders == DefaultEvents(today) && !showReminderForm && editingReminder == None
      ensures fresh(form) && form.formData == InitialForm(None, today) == EmptyForm(today)
    {
      form := new ReminderEditor(None, today);
      this.today := today;
      selectedDate := None;
      viewMonth, viewYear := today.month, today.year;
      reminders := DefaultEvents(today);
      showReminderForm := false;
      editingReminder := None;
    }

    /** The reminders of the day in the grid. */
    function DayEvents(day: int): seq<Reminder>
      reads this
    {
      EventsForDate(reminders, day, viewMonth, viewYear)
    }

    /** The sidebar's list: the selected day's reminders in the month shown. */
    function SelectedEvents(): (events: seq<Reminder>)
      reads this
      ensures selectedDate.None? ==> events == []
      ensures selectedDate.Some? ==> forall r :: r in events <==>
        r in reminders && r.date == Date(viewYear, viewMonth, selectedDate.value)
    {
      if selectedDate.None? then []
      else
        EventsForDateExact(reminders, selectedDate.value, viewMonth, viewYear);
        DayEvents(selectedDate.value)
    }

    /** The cell of day `day` in the grid. */
    function DayCell(day: int): (c: Cell)
      reads this
      ensures c.Day? && c.day == day
      ensures c.overflow <==> |DayEvents(day)| > 3
      ensures c.today <==> Date(viewYear, viewMonth, day) == today
      ensures c.selected <==> selectedDate == Some(day)
      ensures |c.dots| == if |DayEvents(day)| < 3 then |DayEvents(day)| else 3
      ensures forall i :: 0 <= i < |c.dots| ==> c.dots[i] == DotTone(DayEvents(day)[i].kind)
    {
      var events := DayEvents(day);
      Day(day, Dots(events), |events| > 3,
          day == today.day && viewMonth == today.month && viewYear == today.year,
          selectedDate == Some(day))
    }

    /** `renderCalendarDays`: one blank per weekday before the first of the
      month, then one cell per day. */
    method RenderDays() returns (cells: seq<Cell>)
      requires Valid()
      ensures |cells| == FirstDayOfMonth(viewYear, viewMonth) + MonthLength(viewYear, viewMonth)
      ensures forall i :: 0 <= i < FirstDayOfMonth(viewYear, viewMonth) ==> cells[i] == Blank
      ensures forall d :: 1 <= d <= MonthLength(viewYear, viewMonth) ==>
        cells[FirstDayOfMonth(viewYear, viewMonth) + d - 1] == DayCell(d)
    {
      cells := LayOutDays(FirstDayOfMonth(viewYear, viewMonth), MonthLength(viewYear, viewMonth));
    }

    /** The two loops of `renderCalendarDays`, for a month whose first day
        falls on weekday `first` and which has `days` days. */
    method LayOutDays(first: nat, days: nat) returns (cells: seq<Cell>)
      ensures |cells| == first + days
      ensures forall i :: 0 <= i < first ==> cells[i] == Blank
      ensures forall d :: 1 <= d <= days ==> cells[first + d - 1] == DayCell(d)
    {
      cells := [];
      var i := 0;
      while i < first
        invariant 0 <= i <= first && |cells| == i
        invariant forall j :: 0 <= j < i ==> cells[j] == Blank
      {
        cells := cells + [Blank];
        i := i + 1;
      }
      var day := 1;
      while day <= days
        invariant 1 <= day <= days + 1 && |cells| == first + day - 1
        invariant forall j :: 0 <= j < first ==> cells[j] == Blank
        invariant forall d :: 1 <= d < day ==> cells[first + d - 1] == DayCell(d)
      {
        cells := cells + [DayCell(day)];
        day := day + 1;
      }
    }

    /** The right arrow. */
    method GoNextMonth()
      requires Valid()
      modifies this
      ensures Valid()
      ensures (viewMonth, viewYear) == NextMonth(old(viewMonth), old(viewYear))
      ensures selectedDate == old(selectedDate) && reminders == old(reminders)
      ensures showReminderForm == old(showReminderForm) && editingReminder == old(editingReminder)
    {
      if viewMonth == 11 {
        viewMonth := 0;
        viewYear := viewYear + 1;
      } else {
        viewMonth := viewMonth + 1;
      }
    }

    /** The left arrow. */
    method GoPrevMonth()
      requires Valid()
      modifies this
      ensures Valid()
      ensures (viewMonth, viewYear) == PrevMonth(old(viewMonth), old(viewYear))
      ensures selectedDate == old(selectedDate) && reminders == old(reminders)
      ensures showReminderForm == old(showReminderForm) && editingReminder == old(editingReminder)
    {
      if viewMonth == 0 {
        viewMonth := 11;
        viewYear := viewYear - 1;
      } else {
        viewMonth := viewMonth - 1;
      }
    }

    /** A click on a day cell. The day number is kept when the month changes. */
    method SelectDay(day: int)
      modifies this
      ensures selectedDate == Some(day)
      ensures viewMonth == old(viewMonth) && viewYear == old(viewYear) && reminders == old(reminders)
      ensures showReminderForm == old(showReminderForm) && editingReminder == old(editingReminder)
    {
      selectedDate := Some(day);
    }

    /** The "Add Reminder" button. */
    method OpenForm()
      modifies this
      ensures showReminderForm
      ensures selectedDate == old(selectedDate) && viewMonth == old(viewMonth) && viewYear == old(viewYear)
      ensures reminders == old(reminders) && editingReminder == old(editingReminder)
    {
      showReminderForm := true;
    }

    /** `handleEditReminder`. The dialog's fields are not filled from the
      reminder: they stay as they were. */
    method EditReminder(r: Reminder)
      modifies this
      ensures showReminderForm && editingReminder == Some(r)
      ensures form.formData == old(form.formData)
      ensures selectedDate == old(selectedDate) && viewMonth == old(viewMonth) && viewYear == old(viewYear)
      ensures reminders == old(reminders)
    {
      editingReminder := Some(r);
      showReminderForm := true;
    }

    /** `handleDeleteReminder`. */
    method DeleteReminder(id: string)
      modifies this
      ensures reminders == WithoutReminder(old(reminders), id)
      ensures forall r :: r in reminders <==> r in old(reminders) && r.id != id
      ensures selectedDate == old(selectedDate) && viewMonth == old(viewMonth) && viewYear == old(viewYear)
      ensures showReminderForm == old(showReminderForm) && editingReminder == old(editingReminder)
    {
      DeleteRemovesId(reminders, id);
      reminders := WithoutReminder(reminders, id);
    }

    /** `handleSaveReminder`: an edit also ends the editing. */
    method SaveReminder(saved: Reminder)
      modifies this
      ensures reminders == Saved(old(reminders), old(editingReminder), saved)
      ensures editingReminder == None
      ensures selectedDate == old(selectedDate) && viewMonth == old(viewMonth) && viewYear == old(viewYear)
      ensures showReminderForm == old(showReminderForm)
    {
      reminders := Saved(reminders, editingReminder, saved);
      editingReminder := None;
    }

    /** The dialog's `onClose`; the fields typed so far stay. */
    method CloseForm()
      modifies this
      ensures !showReminderForm && editingReminder == None
      ensures form.formData == old(form.formData)
      ensures selectedDate == old(selectedDate) && viewMonth == old(viewMonth) && viewYear == old(viewYear)
      ensures reminders == old(reminders)
    {
      showReminderForm := false;
      editingReminder := None;
    }

    /** A submit of the dialog: the form builds the reminder (with the id of
      the reminder being edited, if any), the page saves it and the dialog
      closes. An empty title submits nothing. */
    method SubmitForm(freshId: string, now: Date)
      modifies this, form
      ensures old(form.formData).title == "" ==>
        form.formData == old(form.formData) && reminders == old(reminders) &&
        editingReminder == old(editingReminder) && showReminderForm == old(showReminderForm)
      ensures old(form.formData).title != "" ==>
        reminders == Saved(old(reminders), old(editingReminder), Built(old(form.formData), old(editingReminder), freshId)) &&
        form.formData == EmptyForm(now) && !showReminderForm && editingReminder == None
      ensures selectedDate == old(selectedDate) && viewMonth == old(viewMonth) && viewYear == old(viewYear)
    {
      var saved := form.HandleSubmit(editingReminder, freshId, now);
      if saved.Some? {
        SaveReminder(saved.value);
        CloseForm();
      }
    }
  }
}
