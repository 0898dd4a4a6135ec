# wealthflow core, modelled in Dafny

wealthflow is a client-side budgeting and investing dashboard. Under its
display code sit a set of small in-memory state machines and list
transformations. This project models them and proves what each promises:

- the budget ledger hook and the Budget page:
  - categories, spending and the capped recent-transactions list;
  - the "you are owed" and "you owe" totals folded from split bills;
- the budget card's thresholds;
- the split-bill editor;
- the keypad calculator;
- the reminder calendar and its reminder dialog;
- the goals hook and the smart-goals widget;
- the fund explorer's filters and the fund comparison dialog;
- the add-expense and add-income forms.

Each React component or hook that holds state is a `class`. Each
`useState` value is a field. Each handler is a method that makes one atomic
transition. The method's `ensures` gives the new state through pure
functions, and lemmas state what those functions promise. Shared modules:

- `Common`: `Option`, the theme tones and calendar days.
- `JsNumber`: JavaScript numbers as extended reals with NaN, and `parseFloat`
  on decimal text with an optional exponent part.
- `JsString`: `trim`, ASCII `toLowerCase` and `includes`.
- `Lists`: `filter`, a `map` that rewrites the matching elements only, and
  `reduce` sums.

Money is `real`. Ids that the source takes from `Date.now()` are parameters
named `freshId`. Today's date is a parameter as well.

## Model

| member | source | states |
|---|---|---|
| BudgetHook.InitialBudget | src/hooks/useBudget.tsx:21-54 | the four seeded items all satisfy remaining = budgeted - spent |
| BudgetHook.NewItem | src/hooks/useBudget.tsx:80-84 | the new item carries the draft's fields and the fresh id; remaining is recomputed as budgeted - spent, whatever the draft supplied |
| BudgetHook.Patch | src/hooks/useBudget.tsx:91 | given fields overwrite, absent ones keep the old value, and remaining follows the new-or-old budgeted and spent, so the item is balanced |
| BudgetHook.AddKeepsBalance | src/hooks/useBudget.tsx:79-86 | appending a new item keeps every item balanced |
| BudgetHook.UpdateKeepsBalance | src/hooks/useBudget.tsx:88-94 | an update keeps the length, leaves items of other ids unchanged, patches those with the id, and keeps every item balanced |
| BudgetHook.DeleteKeepsBalance | src/hooks/useBudget.tsx:96-98 | deleting keeps the rest as an ordered subsequence and drops exactly the items with the id (their count), keeping the ledger balanced |
| BudgetHook.TransactionKeepsBalance | src/hooks/useBudget.tsx:107-114 | an expense moves its amount from remaining to spent on every item of its category and touches no other; an income changes nothing; all stay balanced |
| BudgetHook.BudgetLedger.constructor | src/hooks/useBudget.tsx:76-77 | the hook starts on the seeded budget and transactions, balanced |
| BudgetHook.BudgetLedger.AddBudgetItem | src/hooks/useBudget.tsx:79-86 | the budget gains exactly the new item at the end; transactions unchanged |
| BudgetHook.BudgetLedger.UpdateBudgetItem | src/hooks/useBudget.tsx:88-94 | the budget becomes the patched list and stays balanced |
| BudgetHook.BudgetLedger.DeleteBudgetItem | src/hooks/useBudget.tsx:96-98 | the budget becomes the list without the id and stays balanced |
| BudgetHook.BudgetLedger.AddTransaction | src/hooks/useBudget.tsx:100-115 | the new transaction goes first and an expense is charged to its category, keeping the budget balanced |
| BudgetPage.InitialTransactions | src/pages/Budget.tsx:87-93 | the seeded recent list holds five lines, the cap |
| BudgetPage.PushRecent | src/pages/Budget.tsx:154 | the new line comes first, followed by a prefix of the old list; the result never exceeds five lines and has exactly five once four or more lines came before |
| BudgetPage.FindYou | src/pages/Budget.tsx:189 | the result is absent exactly when no share is named "You", and is otherwise the first share of that name |
| BudgetPage.TotalSpent | src/pages/Budget.tsx:109 | the `reduce` sum of the categories' spending; ExpenseMovesTotals and DeleteMovesTotals state how it moves |
| BudgetPage.ExpenseMovesTotals | src/pages/Budget.tsx:109-110 | an expense raises total spent by its amount once per category of that name, leaves the total budget alone and lowers the shown remaining by the same sum |
| BudgetPage.UnknownCategoryIgnored | src/pages/Budget.tsx:130-134 | an expense whose category is not listed leaves every category as it was |
| BudgetPage.DeleteMovesTotals | src/pages/Budget.tsx:183-185 | deleting a category removes exactly its spending and budget from the totals and keeps the other categories in order |
| BudgetPage.EntriesShowDirection | src/pages/Budget.tsx:146-149 | an expense of a positive amount is shown in red and of a negative one in green; an income is green exactly when positive; an expense reads "Today" exactly when it is dated today |
| BudgetPage.BillOwed | src/pages/Budget.tsx:187-195 | one bill's part of `calculateOwedAmount`: the others' unsettled shares when a "You" share exists; BillWithoutYouCountsNothing, SettledBillCountsNothing and TotalsNotNegative state its cases |
| BudgetPage.BillOwing | src/pages/Budget.tsx:197-203 | one bill's part of `calculateOwingAmount`: the first "You" share unless it is settled; stated by the same three lemmas |
| BudgetPage.NewBillAddsItsShares | src/pages/Budget.tsx:174-203 | prepending a bill adds exactly that bill's owed and owing amounts to the two totals |
| BudgetPage.BillWithoutYouCountsNothing | src/pages/Budget.tsx:187-203 | a bill without a "You" share adds nothing to either total |
| BudgetPage.SettledBillCountsNothing | src/pages/Budget.tsx:187-203 | a bill whose shares are all settled adds nothing to either total |
| BudgetPage.TotalsNotNegative | src/pages/Budget.tsx:187-203 | with no negative shares, neither total is negative |
| BudgetPage.BudgetView.constructor | src/pages/Budget.tsx:101-106 | the page starts on its seeded categories, transactions and bills |
| BudgetPage.BudgetView.HandleAddExpense | src/pages/Budget.tsx:123-155 | categories of the expense's name gain its amount and one transaction; the negated line is pushed onto the recent list |
| BudgetPage.BudgetView.HandleAddIncome | src/pages/Budget.tsx:157-172 | the income line is pushed onto the recent list; the categories are unchanged |
| BudgetPage.BudgetView.HandleAddSplitBill | src/pages/Budget.tsx:174-181 | the new bill goes first; the others are unchanged |
| BudgetPage.BudgetView.DeleteBudgetCategory | src/pages/Budget.tsx:183-185 | the categories become those of other names, in order |
| BudgetCard.Percentage | src/components/budget/BudgetCard.tsx:28 | for a non-zero budget the percentage is spent / budget × 100; a zero budget gives NaN for zero spending and an infinity of the spending's sign otherwise |
| BudgetCard.ProgressTone | src/components/budget/BudgetCard.tsx:40-44 | `getProgressColor` on the percentage, NaN comparing false; ProgressBands states its bands in terms of spent and budget |
| BudgetCard.UsageTone | src/components/budget/BudgetCard.tsx:78-79 | the "% used" colour, red above 100; OverrunAgrees, PercentAboveHundred and NegativeBudgetDisagrees state when |
| BudgetCard.RemainingLabel | src/components/budget/BudgetCard.tsx:81-82 | the "Remaining" or "Over by" label with the absolute amount; LabelShowsDistance states it |
| BudgetCard.ProgressBands | src/components/budget/BudgetCard.tsx:40-44 | for a non-zero budget the bar is destructive above 90 per cent, warning above 75 up to 90 and success at or below 75; against a zero budget it is destructive exactly for positive spending and success otherwise |
| BudgetCard.ProgressCapped | src/components/budget/BudgetCard.tsx:74 | the bar value is the percentage up to 100, and 100 beyond it |
| BudgetCard.LabelShowsDistance | src/components/budget/BudgetCard.tsx:81-82 | the label reads "Over by" exactly when spending exceeds the budget, and shows the absolute distance, in red exactly then |
| BudgetCard.OverrunAgrees | src/components/budget/BudgetCard.tsx:78-81 | for a positive budget the "% used" text is red exactly when remaining is negative |
| BudgetCard.PercentAboveHundred | src/components/budget/BudgetCard.tsx:28 | for a positive budget the percentage exceeds 100 exactly when spent exceeds the budget |
| BudgetCard.NegativeBudgetDisagrees | src/components/budget/BudgetCard.tsx:78-81 | with budget -10 and spending -20 the percentage text is red while the remaining amount is not |
| SplitBills.InitialParticipants | src/components/budget/SplitBillsModal.tsx:33-35 | the form opens with "You" alone, amount 0, settled |
| SplitBills.EnteredTotal | src/components/budget/SplitBillsModal.tsx:62 | `parseFloat(total) \|\| 0`: the parsed value when finite, 0 when NaN |
| SplitBills.Shares | src/components/budget/SplitBillsModal.tsx:103-107 | the bill's shares carry the participants' names, amounts and settled flags in order |
| SplitBills.CalculateSplit | src/components/budget/SplitBillsModal.tsx:61-70 | `calculateSplit` with the divisor passed in, so the stale count can be modelled; SplitGivesEqualShares, EqualSplitAddsUp and StaleCountMisses state what it gives |
| SplitBills.AddParticipantAsWritten | src/components/budget/SplitBillsModal.tsx:40-52 | `addParticipant` as written, dividing by the count before the append; AddParticipantAsWrittenOvershoots states the overshoot |
| SplitBills.RemoveParticipantAsWritten | src/components/budget/SplitBillsModal.tsx:54-59 | `removeParticipant` as written, dividing by the count before the removal; RemoveParticipantAsWrittenUndershoots states the shortfall |
| SplitBills.AddParticipant | src/components/budget/SplitBillsModal.tsx:40-52 | `addParticipant` dividing by the new count; AddParticipantAddsUp states it |
| SplitBills.Remaining | src/components/budget/SplitBillsModal.tsx:54-59 | the participants the removal keeps are exactly those without the id, an ordered subsequence of the list |
| SplitBills.RemoveParticipant | src/components/budget/SplitBillsModal.tsx:54-59 | `removeParticipant` dividing by the count left; RemoveParticipantAddsUp states it |
| SplitBills.SplitGivesEqualShares | src/components/budget/SplitBillsModal.tsx:61-70 | in equal mode with a non-zero count every participant gets total ÷ count; custom mode or a zero count changes nothing |
| SplitBills.EqualSplitAddsUp | src/components/budget/SplitBillsModal.tsx:61-70 | splitting over the list's own length adds up to the entered total |
| SplitBills.StaleCountMisses | src/components/budget/SplitBillsModal.tsx:48-50 | splitting over a count that is k off from the list's length misses the total by k shares, which is not zero for a non-zero total |
| SplitBills.AddParticipantAsWrittenOvershoots | src/components/budget/SplitBillsModal.tsx:40-52 | as written, adding to n participants in equal mode gives n+1 shares of total/n, which add up to the total plus one share |
| SplitBills.AddParticipantAsWrittenExample | src/components/budget/SplitBillsModal.tsx:40-52 | "You" with a total of 100, then adding "Ann", gives shares adding up to 200 |
| SplitBills.RemoveParticipantAsWrittenUndershoots | src/components/budget/SplitBillsModal.tsx:54-59 | as written, removing one of n participants leaves n-1 shares of total/n, one share short |
| SplitBills.AddParticipantAddsUp | src/components/budget/SplitBillsModal.tsx:40-52 | corrected: a blank name changes nothing; otherwise the trimmed, unsettled newcomer is appended, in equal mode every earlier participant keeps id, name and settled flag with amount total ÷ (n + 1), the newcomer gets the same share and the shares add up to the total; in custom mode the list just gains the newcomer |
| SplitBills.RemoveParticipantAddsUp | src/components/budget/SplitBillsModal.tsx:54-59 | corrected: with one participant nothing happens; otherwise the result has one entry per remaining participant, in order, with its id, name and settled flag; in custom mode it is exactly the remaining list, and in equal mode the shares add up to the total |
| SplitBills.UpdateAmountOnlyTouchesId | src/components/budget/SplitBillsModal.tsx:72-76 | only the amount of the participants with the id changes |
| SplitBills.SubmitAcceptsExactly | src/components/budget/SplitBillsModal.tsx:78-109 | a bill is emitted exactly when the description is not blank, a total was typed, there are two or more participants and the shares are within 0.01 of the parsed total; it carries that total and the shares in order |
| SplitBills.SubmittedBillBalanced | src/components/budget/SplitBillsModal.tsx:88-98 | an emitted bill with a finite total has shares within 0.01 of it |
| SplitBills.EnabledButtonSubmits | src/components/budget/SplitBillsModal.tsx:124-126 | whenever the button is enabled and a total was typed, submitting emits a bill |
| SplitBills.TypedTotalAsWritten | src/components/budget/SplitBillsModal.tsx:155-160 | the delayed re-split as written, reading the total from before the keystroke; TypedTotalAsWrittenLags shows the lag |
| SplitBills.TypedTotal | src/components/budget/SplitBillsModal.tsx:155-160 | the delayed re-split reading the typed total; TypedTotalAddsUp states it |
| SplitBills.TypedTotalAddsUp | src/components/budget/SplitBillsModal.tsx:155-160 | corrected: re-splitting with the typed total in equal mode adds up to that total; custom shares stay |
| SplitBills.TypedTotalAsWrittenLags | src/components/budget/SplitBillsModal.tsx:155-160 | as written, typing "100" after "10" re-splits "You" to 10 while the total reads 100 |
| SplitBills.ToleranceBoundaryDisagrees | src/components/budget/SplitBillsModal.tsx:88-126 | shares exactly 0.01 away are accepted by submit, yet the button is disabled |
| SplitBills.SplitBillForm.constructor | src/components/budget/SplitBillsModal.tsx:31-37 | empty texts, "You" alone, equal mode |
| SplitBills.SplitBillForm.SetTotalAmount | src/components/budget/SplitBillsModal.tsx:155-165 | corrected: the total text is replaced and, in equal mode, the shares are re-split so they add up to the typed total; custom shares stay |
| SplitBills.SplitBillForm.ChooseEqualSplit | src/components/budget/SplitBillsModal.tsx:171-177 | equal mode; the shares are re-split to add up to the total only when the mode already was equal, because the split reads the mode from before the click |
| SplitBills.SplitBillForm.ChooseCustomSplit | src/components/budget/SplitBillsModal.tsx:183 | custom mode; nothing else changes |
| SplitBills.SplitBillForm.AddParticipantNamed | src/components/budget/SplitBillsModal.tsx:40-52 | the participants become the corrected add, the name input is cleared unless it was blank, and the ids stay distinct |
| SplitBills.SplitBillForm.RemoveParticipantWithId | src/components/budget/SplitBillsModal.tsx:54-59 | the participants become the corrected removal, never empty, with distinct ids |
| SplitBills.SplitBillForm.UpdateParticipantAmount | src/components/budget/SplitBillsModal.tsx:72-76 | the participants become the updated list; nothing else changes |
| SplitBills.SplitBillForm.HandleSubmit | src/components/budget/SplitBillsModal.tsx:78-122 | the emitted bill is the submit result; on success the form resets to its opening state, otherwise it is unchanged |
| Keypad.Calculate | src/components/budget/Calculator.tsx:58-73 | the `calculate` switch on JavaScript numbers; CalculateUndoes, DivideByZero and UnknownOperatorKeepsEntry state its cases |
| Keypad.CalculateUndoes | src/components/budget/Calculator.tsx:58-73 | adding then subtracting a finite number, or multiplying then dividing by a non-zero one, gives the first operand back |
| Keypad.DivideByZero | src/components/budget/Calculator.tsx:66-67 | 0 / 0 is NaN and any other number over 0 is an infinity of its sign |
| Keypad.UnknownOperatorKeepsEntry | src/components/budget/Calculator.tsx:68-71 | "=" and any unknown operator give the second operand |
| Keypad.ChainAgreesWithEquals | src/components/budget/Calculator.tsx:41-85 | the chained `previousValue \|\| 0` and the "=" key's `previousValue` agree unless that value is NaN, where they differ |
| Keypad.TypingReplacesEntry | src/components/budget/Calculator.tsx:32-39 | a digit typed into a fresh entry or onto a lone "0" replaces the display, which then reads as that digit |
| Keypad.TypingShiftsEntry | src/components/budget/Calculator.tsx:32-39 | a digit typed onto a run of digits is appended; the display stays a run of digits whose value is ten times the old one plus the digit, which is what it reads as (`JsNumber.ParseFloatDigits`) |
| Keypad.PointedKeepsOnePoint | src/components/budget/Calculator.tsx:98-105 | the point key never empties the display, never adds a second point, and appends one when there is none |
| Keypad.BackspaceKeepsShape | src/components/budget/Calculator.tsx:152 | backspace never empties the display, never adds a point, and drops exactly the last character of a longer display |
| Keypad.OperatorPressedKeepsShape | src/components/budget/Calculator.tsx:41-56 | an operator key keeps the display non-empty with at most one point, and an operand is stored exactly when an operator is pending |
| Keypad.EqualsPressedKeepsShape | src/components/budget/Calculator.tsx:75-85 | the "=" key keeps the display non-empty with at most one point, and an operand is stored exactly when an operator is pending |
| Keypad.OperatorPressedShows | src/components/budget/Calculator.tsx:41-56 | the first operator stores the entry; a later one shows and stores the result of the pending operation on `previousValue \|\| 0`, and the shown text reads back as the rounded result; waiting is set and the new operator stored |
| Keypad.EqualsPressedShows | src/components/budget/Calculator.tsx:75-85 | with an operand and an operator pending, shows the result, whose text reads back as the rounded result, clears both and sets waiting; otherwise nothing changes |
| Keypad.Calculator.constructor | src/components/budget/Calculator.tsx:16-19 | display "0", nothing pending, not waiting |
| Keypad.Calculator.InputNumber | src/components/budget/Calculator.tsx:32-39 | the display becomes the typed text, waiting is cleared, the operand and operator are kept |
| Keypad.Calculator.InputOperator | src/components/budget/Calculator.tsx:41-56 | the four fields become OperatorPressed of the old ones, and the display stays non-empty with at most one point |
| Keypad.Calculator.PerformCalculation | src/components/budget/Calculator.tsx:75-85 | the four fields become EqualsPressed of the old ones, and the display stays non-empty with at most one point |
| Keypad.Calculator.Clear | src/components/budget/Calculator.tsx:87-92 | display "0", nothing pending, not waiting |
| Keypad.Calculator.ClearEntry | src/components/budget/Calculator.tsx:94-96 | only the display changes, to "0" |
| Keypad.Calculator.AddDecimal | src/components/budget/Calculator.tsx:98-105 | the display gets its point as the point key rules say and waiting is cleared |
| Keypad.Calculator.Backspace | src/components/budget/Calculator.tsx:152 | the display loses its last character, falling back to "0" |
| NumberText.Round7IsNearest | src/components/budget/Calculator.tsx:50 | `toFixed(7)` moves a number by at most half a ten-millionth and never across zero |
| NumberText.FixedText7 | src/components/budget/Calculator.tsx:50 | `String(parseFloat(x.toFixed(7)))` of a finite result: a minus sign when it rounds below zero, then exponent form below one millionth and decimal notation otherwise; FixedTextReadsBack and ExponentFormBelowMillionth state it |
| NumberText.ResultText | src/components/budget/Calculator.tsx:80 | a result's display text, "NaN" and "Infinity" or "-Infinity" included; ResultTextShape and ResultTextReadsBack state it |
| NumberText.UnsignedText | src/components/budget/Calculator.tsx:50 | the text starts with a digit and holds an "e" exactly for one to nine ten-millionths |
| NumberText.ExponentFormBelowMillionth | src/components/budget/Calculator.tsx:50 | a finite result's text is in exponent form exactly when its rounding is non-zero and below one millionth in magnitude |
| NumberText.ThirdOfMillionthText | src/components/budget/Calculator.tsx:50 | a third of a millionth is shown as "3e-7" |
| Keypad.BackspaceOnExponentText | src/components/budget/Calculator.tsx:152 | backspace on the display "3e-7" leaves "3e-", which is not a number the keypad wrote |
| NumberText.ResultTextShape | src/components/budget/Calculator.tsx:50 | a result's text is never empty and holds at most one point |
| NumberText.ResultTextReadsBack | src/components/budget/Calculator.tsx:50 | parsing the shown text of a result gives the result rounded to seven decimals, NaN or the infinity |
| NumberText.FixedTextReadsBack | src/components/budget/Calculator.tsx:50 | the seven-decimal text of a finite number parses back to its rounding |
| Calendar.DaysInMonth | src/pages/Calendar.tsx:92 | every month has 28 to 31 days, and February has 29 exactly in a leap year |
| Calendar.Weekday | src/pages/Calendar.tsx:93 | a weekday lies in 0..6 |
| Calendar.NextMonth | src/pages/Calendar.tsx:191-198 | the month after, wrapping December to January of the next year; ArrowsAreInverse states it |
| Calendar.PrevMonth | src/pages/Calendar.tsx:200-207 | the month before, wrapping January to December of the previous year; ArrowsAreInverse states it |
| Calendar.ArrowsAreInverse | src/pages/Calendar.tsx:191-207 | the month stays in 0..11, each arrow moves year × 12 + month by exactly one, and each undoes the other |
| Calendar.YearLength | src/pages/Calendar.tsx:92 | the twelve month lengths add up to 366 in a leap year and 365 otherwise |
| Calendar.NextMonthContinuesWeek | src/pages/Calendar.tsx:92-93 | the next month's grid starts on the weekday after the one this month ends on |
| Calendar.TwoDigitYearsJump | src/pages/Calendar.tsx:93 | after December of year 99 the grid shows January of year 100, read as a year of its own rather than 2000 |
| Calendar.ColumnIsWeekday | src/pages/Calendar.tsx:139-189 | after the leading blanks, each day lands in the column of its weekday |
| Calendar.EpochIsThursday | src/pages/Calendar.tsx:93 | 1 January 1970 is a Thursday, as `getDay()` says |
| Calendar.EventsForDate | src/pages/Calendar.tsx:99-106 | `getEventsForDate`; EventsForDateExact states it |
| Calendar.Saved | src/pages/Calendar.tsx:108-115 | `handleSaveReminder`'s new list; SavedPlacesReminder states it |
| Calendar.WithoutReminder | src/pages/Calendar.tsx:122-124 | `handleDeleteReminder`'s new list; DeleteRemovesId states it |
| Calendar.EventsForDateExact | src/pages/Calendar.tsx:99-106 | a day's events are exactly the reminders dated that day of the viewed month and year, in list order |
| Calendar.SavedPlacesReminder | src/pages/Calendar.tsx:108-115 | a new reminder is appended; an edit replaces each reminder with the saved id, keeps the length and changes nothing else |
| Calendar.DeleteRemovesId | src/pages/Calendar.tsx:122-124 | deleting removes every reminder with the id and keeps the others in order |
| Calendar.DotMatchesBadge | src/pages/Calendar.tsx:126-176 | dot and badge share a tone for sip, goal and tip; a general reminder's dot is accent while its badge is secondary |
| Calendar.Dots | src/pages/Calendar.tsx:166-182 | at most three dots, each the tone of the matching first events |
| Calendar.CalendarPage.constructor | src/pages/Calendar.tsx:85-90 | the page opens on today's month with the four default reminders, nothing selected, the dialog closed, and its reminder form mounted once on the empty fields |
| Calendar.CalendarPage.SelectedEvents | src/pages/Calendar.tsx:287-293 | no events without a selected day; otherwise the selected day's events in the viewed month |
| Calendar.CalendarPage.DayCell | src/pages/Calendar.tsx:149-182 | a day cell carries min(3, n) dots, the tones of its first events in order, the overflow dot exactly when there are more than three events, and the today and selected flags |
| Calendar.CalendarPage.LayOutDays | src/pages/Calendar.tsx:139-189 | for a first weekday and a month length, the grid has that many blanks, then the day cells 1 to the length in order |
| Calendar.CalendarPage.RenderDays | src/pages/Calendar.tsx:139-189 | the grid has one blank per weekday before the first, then one cell per day of the month in order |
| Calendar.CalendarPage.GoNextMonth | src/pages/Calendar.tsx:191-198 | the view moves to the next month, wrapping December to January of the next year |
| Calendar.CalendarPage.GoPrevMonth | src/pages/Calendar.tsx:200-207 | the view moves to the previous month, wrapping January to December of the previous year |
| Calendar.CalendarPage.SelectDay | src/pages/Calendar.tsx:163 | the clicked day becomes the selected one |
| Calendar.CalendarPage.OpenForm | src/pages/Calendar.tsx:226 | the dialog opens |
| Calendar.CalendarPage.EditReminder | src/pages/Calendar.tsx:117-120 | the reminder becomes the edited one and the dialog opens, its fields left as they were rather than filled from the reminder |
| Calendar.CalendarPage.DeleteReminder | src/pages/Calendar.tsx:122-124 | the reminders become the list without the id |
| Calendar.CalendarPage.SaveReminder | src/pages/Calendar.tsx:108-115 | the reminders become the saved list and an edit ends |
| Calendar.CalendarPage.CloseForm | src/pages/Calendar.tsx:437-440 | the dialog closes and no reminder is being edited; the fields typed so far stay |
| Calendar.CalendarPage.SubmitForm | src/components/calendar/ReminderForm.tsx:38-61 | with a title, the built reminder is saved, the dialog closes and the form resets; without one, nothing changes |
| ReminderForm.InitialForm | src/components/calendar/ReminderForm.tsx:30-36 | the fields of the edited reminder, with an absent description or amount read as empty; without one, empty fields dated now of the general type |
| ReminderForm.BuiltKeepsIdentity | src/components/calendar/ReminderForm.tsx:41-48 | an edit keeps the reminder's non-empty id, otherwise the fresh id is used; every other field is the form's |
| ReminderForm.UntouchedEditRoundTrips | src/components/calendar/ReminderForm.tsx:30-48 | opening a reminder that has an id, description and amount and submitting untouched gives it back |
| ReminderForm.AbsentFieldsComeBackEmpty | src/components/calendar/ReminderForm.tsx:32-47 | a reminder without description or amount comes back with empty ones |
| ReminderForm.ReminderEditor.constructor | src/components/calendar/ReminderForm.tsx:30-36 | the form starts on the initial fields |
| ReminderForm.ReminderEditor.SetTitle | src/components/calendar/ReminderForm.tsx:91 | only the title changes |
| ReminderForm.ReminderEditor.SetDescription | src/components/calendar/ReminderForm.tsx:102 | only the description changes |
| ReminderForm.ReminderEditor.SelectDate | src/components/calendar/ReminderForm.tsx:124 | a picked date replaces the form's date; a cleared pick changes nothing |
| ReminderForm.ReminderEditor.SetType | src/components/calendar/ReminderForm.tsx:135-136 | only the type changes |
| ReminderForm.ReminderEditor.SetAmount | src/components/calendar/ReminderForm.tsx:178 | only the amount changes |
| ReminderForm.ReminderEditor.HandleSubmit | src/components/calendar/ReminderForm.tsx:38-61 | an empty title submits nothing; otherwise the built reminder is handed over and the form resets to empty fields dated now |
| GoalsHook.NewGoalCarriesDraft | src/hooks/useGoals.tsx:54-60 | the new goal carries every field of the draft and the fresh id |
| GoalsHook.DeleteUndoesAdd | src/hooks/useGoals.tsx:54-70 | deleting a goal just added under an unused id gives the old list back |
| GoalsHook.Patch | src/hooks/useGoals.tsx:64 | `{ ...goal, ...updates }`; PatchOverwritesGivenFields states it field by field |
| GoalsHook.UpdatedGoals | src/hooks/useGoals.tsx:62-66 | `updateGoal`'s new list; UpdateOnlyTouchesId states it |
| GoalsHook.Contributed | src/hooks/useGoals.tsx:72-78 | `addContribution`'s new list; ContributionOnlyRaisesCurrent and ContributionsAdd state it |
| GoalsHook.PatchOverwritesGivenFields | src/hooks/useGoals.tsx:64 | for each of the nine fields, a given value is set and an absent one kept; a patch applied twice equals once; the empty patch changes nothing |
| GoalsHook.UpdateOnlyTouchesId | src/hooks/useGoals.tsx:62-66 | an update keeps the count and changes only goals with the id |
| GoalsHook.DeleteRemovesId | src/hooks/useGoals.tsx:68-70 | deleting removes exactly the goals with the id and keeps the rest in order |
| GoalsHook.ContributionOnlyRaisesCurrent | src/hooks/useGoals.tsx:72-78 | a contribution raises only the current amount of goals with the id, keeps the count and raises the total saved by amount × their number |
| GoalsHook.ContributionsAdd | src/hooks/useGoals.tsx:72-78 | two contributions equal one of their sum, and a contribution is undone by its negative |
| GoalsHook.GoalBook.constructor | src/hooks/useGoals.tsx:15-52 | the hook starts on the three seeded goals |
| GoalsHook.GoalBook.AddGoal | src/hooks/useGoals.tsx:54-60 | the goals gain the new goal at the end |
| GoalsHook.GoalBook.UpdateGoal | src/hooks/useGoals.tsx:62-66 | the goals become the updated list |
| GoalsHook.GoalBook.DeleteGoal | src/hooks/useGoals.tsx:68-70 | the goals become the list without the id |
| GoalsHook.GoalBook.AddContribution | src/hooks/useGoals.tsx:72-78 | the goals become the list with the contribution |
| SmartGoals.MonthlyRequired | src/components/dashboard/SmartGoals.tsx:191 | the amount reaches the remaining gap in twelve months, and one less does not |
| SmartGoals.MonthlyRequiredIsLeast | src/components/dashboard/SmartGoals.tsx:191 | any whole amount that reaches the gap in twelve months is at least the monthly amount |
| SmartGoals.EmergencyFundMonthly | src/components/dashboard/SmartGoals.tsx:191 | the seeded Emergency Fund needs 6250 a month |
| SmartGoals.ClickTogglesOnlyThatCard | src/components/dashboard/SmartGoals.tsx:128-139 | after a click, the clicked card is expanded exactly when it was not, and every other card is collapsed |
| SmartGoals.AtMostOneExpanded | src/components/dashboard/SmartGoals.tsx:128 | with distinct ids at most one card is expanded, and it is the active one |
| SmartGoals.NoneActive | src/components/dashboard/SmartGoals.tsx:128 | with no active goal no card is expanded |
| SmartGoals.SeededCardsExpandOne | src/components/dashboard/SmartGoals.tsx:18-68 | the seeded cards have distinct ids, so at most one is expanded |
| SmartGoals.PrioritiesAreDistinct | src/components/dashboard/SmartGoals.tsx:96-107 | high, medium and low map to three distinct tones, none of them secondary; any other priority maps to secondary |
| SmartGoals.SeededColorsAreNamed | src/components/dashboard/SmartGoals.tsx:81-94 | every seeded card's colour names its own tone rather than the default |
| SmartGoals.GoalPanel.ClickGoal | src/components/dashboard/SmartGoals.tsx:139 | the active goal becomes the clicked one, or none when it was already active |
| FundExplorer.Toggle | src/pages/MutualFunds.tsx:198-212 | `toggleRisk` and `toggleDuration`'s list update; ToggleFlipsMembership and ToggleTwice state it |
| FundExplorer.ToggleFlipsMembership | src/pages/MutualFunds.tsx:198-204 | a toggle removes a selected value, appends a missing one and leaves every other value's membership as it was |
| FundExplorer.ToggleTwice | src/pages/MutualFunds.tsx:198-212 | toggling the same value twice restores the selection as a set, and restores it exactly when the value was not selected |
| FundExplorer.FilteredFunds | src/pages/MutualFunds.tsx:214-223 | `filteredFunds`; FilteredExactly, NoFilterListsAll, MoreRisksNeverHide and FirstRiskNarrows state it |
| FundExplorer.FilteredExactly | src/pages/MutualFunds.tsx:214-223 | the list is exactly the funds passing all four filters, an ordered subsequence of all funds |
| FundExplorer.NoFilterListsAll | src/pages/MutualFunds.tsx:214-223 | with no search, no risk or duration and "All Funds" every fund is listed |
| FundExplorer.MoreRisksNeverHide | src/pages/MutualFunds.tsx:217 | once a risk is selected, selecting another never hides a fund |
| FundExplorer.FirstRiskNarrows | src/pages/MutualFunds.tsx:217 | the first risk selected hides every fund of another risk |
| FundExplorer.ExplorerPage.constructor | src/pages/MutualFunds.tsx:190-193 | "All Funds", no risk, no duration, no search |
| FundExplorer.ExplorerPage.ToggleRisk | src/pages/MutualFunds.tsx:198-204 | the risks become the toggled list and stay free of duplicates |
| FundExplorer.ExplorerPage.ToggleDuration | src/pages/MutualFunds.tsx:206-212 | the durations become the toggled list and stay free of duplicates |
| FundExplorer.ExplorerPage.SetSearch | src/pages/MutualFunds.tsx:214-216 | only the search text changes |
| FundExplorer.ExplorerPage.SelectCategory | src/pages/MutualFunds.tsx:305 | only the category changes |
| FundComparison.AvailableFunds | src/components/funds/FundComparison.tsx:48-51 | `availableFunds`; AvailableExactly states it |
| FundComparison.Added | src/components/funds/FundComparison.tsx:53-57 | `addToComparison`'s new list; AddKeepsWellFormed and RemoveUndoesAdd state it |
| FundComparison.Removed | src/components/funds/FundComparison.tsx:59-61 | `removeFromComparison`'s new list; RemoveKeepsWellFormed and RemovedOne state it |
| FundComparison.AvailableExactly | src/components/funds/FundComparison.tsx:48-51 | the funds on offer are exactly those, in order, named neither like the selected fund nor like a compared one |
| FundComparison.AddKeepsWellFormed | src/components/funds/FundComparison.tsx:53-57 | adding a fund on offer keeps at most two compared funds of distinct names, and keeps none named like the selected fund if none was; at two nothing is added |
| FundComparison.RemoveKeepsWellFormed | src/components/funds/FundComparison.tsx:59-61 | removing drops exactly the funds of that name, keeps the rest in order and keeps at most two of distinct names (and none named like the selected fund if none was) |
| FundComparison.RemoveUndoesAdd | src/components/funds/FundComparison.tsx:53-61 | adding a fund on offer and removing it restores the comparison |
| FundComparison.ColumnsStartWithSelected | src/components/funds/FundComparison.tsx:85 | one to three columns, the selected fund first, then the compared ones |
| FundComparison.OnlyOneIsOpen | src/components/funds/FundComparison.tsx:163-166 | a flag reads open exactly when it is "1" |
| FundComparison.RemovedOne | src/components/funds/FundComparison.tsx:140-149 | removing by the name of one compared fund drops that column alone |
| FundComparison.ReopenShowsFundTwice | src/pages/MutualFunds.tsx:377-395 | comparing X with Y and Z, closing, then comparing Y shows the columns Y, Y, Z with the panel hidden |
| FundComparison.ComparisonDialog.constructor | src/components/funds/FundComparison.tsx:43-44 | the dialog is mounted with nothing selected and nothing compared |
| FundComparison.ComparisonDialog.Open | src/pages/MutualFunds.tsx:377-380 | a compare button selects its fund and keeps the comparison from earlier openings |
| FundComparison.ComparisonDialog.Close | src/pages/MutualFunds.tsx:389-392 | closing clears the selection and keeps the comparison |
| FundComparison.ComparisonDialog.PickAvailable | src/components/funds/FundComparison.tsx:96-106 | with a fund selected, a click on an offered fund appends it while fewer than two are compared, including after a reopen that left a compared fund named like the selected one |
| FundComparison.ComparisonDialog.AddToComparison | src/components/funds/FundComparison.tsx:53-57 | with a fund selected, appends an offered fund while fewer than two are compared, otherwise nothing; no two compared funds share a name |
| FundComparison.ComparisonDialog.RemoveColumn | src/components/funds/FundComparison.tsx:140-149 | with a fund selected, only columns after the first can be removed, also a duplicate of the selected fund; the comparison loses that fund's name and one entry |
| EntryForm.Validate | src/components/budget/AddExpense.tsx:49-67 | one error per field that fails its check (empty kind, empty or non-positive amount, blank description, empty date), with that field's message, and success exactly when there is none |
| EntryForm.Selected | src/components/budget/AddExpense.tsx:99 | absent exactly when no option has the value; otherwise the first option with it |
| EntryForm.WithFieldChangesOnlyIt | src/components/budget/AddExpense.tsx:93 | typing changes the named field and no other |
| EntryForm.ClearedHidesOnlyIt | src/components/budget/AddExpense.tsx:94-96 | typing hides that field's error and leaves the others as they were |
| EntryForm.AmountRejected | src/components/budget/AddExpense.tsx:55 | `!amount \|\| parseFloat(amount) <= 0`; DigitAmounts and NotANumberPasses state its cases |
| EntryForm.DigitAmounts | src/components/budget/AddExpense.tsx:55 | an amount of digits is refused exactly when its value is zero |
| EntryForm.NotANumberPasses | src/components/budget/AddExpense.tsx:55 | a text that is not a number parses as NaN and passes the amount check |
| EntryForm.ShownErrorsAreBadFields | src/components/budget/AddExpense.tsx:49-63 | with non-empty messages, a field shows an error after validation exactly when it fails its check |
| EntryForm.GoodFieldsAreFilled | src/components/budget/AddExpense.tsx:52-63 | a form that passes validation has all four fields non-empty |
| EntryForm.SelectedFindsOption | src/components/budget/AddExpense.tsx:99 | with distinct values, selecting an option's value finds that option |
| EntryForm.EntryDialog.constructor | src/components/budget/AddExpense.tsx:41-47 | empty fields dated today, no errors |
| EntryForm.EntryDialog.HandleInputChange | src/components/budget/AddExpense.tsx:92-97 | the field takes the value and its shown error is blanked |
| EntryForm.EntryDialog.HandleSubmit | src/components/budget/AddExpense.tsx:69-90 | a valid form hands over the entry with the parsed amount and resets to today's empty form without errors; otherwise nothing is handed over, the fields are kept and the errors are the new ones |
| ExpenseForm.PreviewAmount | src/components/budget/AddExpense.tsx:203 | the preview amount parses the typed amount, or "0" when none |
| ExpenseForm.CategoriesAreSelectable | src/components/budget/AddExpense.tsx:31-38 | every category is found under its own name, which is also its caption |
| ExpenseForm.ExpenseErrorsShown | src/components/budget/AddExpense.tsx:49-63 | with the expense messages, a field shows an error exactly when it fails its check |
| ExpenseForm.PreviewPrecedesSubmit | src/components/budget/AddExpense.tsx:191 | a valid form shows the preview; a previewed form with amount "0" is still refused |
| IncomeForm.PreviewCaption | src/components/budget/AddIncome.tsx:78 | the preview names a source exactly when the chosen value is one on offer |
| IncomeForm.SourcesAreSelectable | src/components/budget/AddIncome.tsx:22-28 | every source is found under its value and previews with its caption |
| IncomeForm.IncomeErrorsShown | src/components/budget/AddIncome.tsx:39-49 | with the income messages, a field shows an error exactly when it fails its check |
| IncomeForm.ValidatedImpliesFormValid | src/components/budget/AddIncome.tsx:42-79 | a form that passes validation satisfies `isFormValid`; the converse fails for amount "0" and for a description of spaces |
| JsNumber.ParseFloat | src/components/budget/AddExpense.tsx:55 | an infinity exactly for an "Infinity" literal after the sign, positive exactly without a minus; a decimal literal may carry an exponent part |
| JsNumber.ExponentScales | src/components/budget/AddExpense.tsx:55 | an exponent part e scales the mantissa by 10^e (times Pow10(e) for e >= 0, divided by Pow10(-e) below), so a positive mantissa stays positive and e = 0 (no exponent part) leaves it unchanged |
| JsNumber.TimesPow10NonNegative | src/components/budget/AddExpense.tsx:55 | a non-negative exponent multiplies the mantissa by that power of ten |
| JsNumber.TimesPow10Negative | src/components/budget/AddExpense.tsx:55 | a negative exponent divides the mantissa by the matching power of ten |
| JsNumber.ParseFloatDigits | src/components/budget/AddIncome.tsx:43 | a non-empty run of digits parses as its decimal value |
| JsString.BlankIffAllSpace | src/components/budget/AddExpense.tsx:58 | a text trims to empty exactly when every character is white space |

## Left out

- The SIP, EMI and compound-interest calculators of the calculator dialog: they are `Math.pow` floating-point formulas.
- IEEE 754 rounding and the sign of zero. Numbers are exact reals with NaN and the two infinities.
- `Intl.NumberFormat`, `toLocaleString` and `toFixed(2)` are display formatting and are not modelled.
- NumberText.FixedText7: results of 1e21 and more are written in decimal notation, while JavaScript prints them in exponent form with the shortest digits that identify the double. Those digits depend on IEEE 754 rounding, which is not modelled.
- `toLowerCase` is modelled for ASCII letters only, with no Unicode case mapping.
- Toasts, icons, dialogs' open/close props and CSS class strings are left out, except where a class encodes a decision (a tone).
- `Date.now()` ids are `freshId` parameters. The current date is a parameter. The "Time Remaining" months of a goal are left out because they read the clock.
- JavaScript `Date` objects are reduced to calendar days. `new Date(reminder.date)` on a reminder's date is its year, month and day.
- React batching and stale closures: each handler is one atomic transition. The split editor's stale participant count is modelled as an explicit divisor in the as-written members (see Findings).
- The 100 ms delay of the split editor's total input is left out. `SplitBills.SplitBillForm.SetTotalAmount` applies the delayed re-split at once, with the typed total, as corrected in Findings.
- `SplitBills.EnteredTotal`: an infinite total is read as 0, because shares are reals. `parseFloat("Infinity") || 0` is an infinity in the source.
- ReminderForm.InitialForm and ReminderForm.UntouchedEditRoundTrips describe the dialog's `useState` initialiser with a reminder being edited. The calendar page mounts the dialog once, before any edit, so in the app that case never happens: an edit starts from the empty fields or from whatever was typed last, and the round trip is not one the app performs. `Calendar.CalendarPage` models the app's behaviour.
- `ReminderForm.ReminderEditor.HandleSubmit`: the browser's `required` check on the title is modelled as a refused submit.
- The `type="number"` amount inputs of the expense and income forms, which keep non-numeric text out, are not modelled. Any text may reach validation, so `EntryForm.NotANumberPasses` shows a case the browser prevents.
- FundComparison renders nothing while no fund is selected. The dialog's actions require a selected fund, because nothing can be clicked then.
- The network, authentication and query clients: the mutual-funds service, the react-query hook, the Supabase client, the sign-in page and sign-out.
- Presentation-only pages and widgets over mock data: risk analysis, user panel, knowledge base, dashboard, landing page, charts, stats, fund cards, the fund details dialog, the button and the app shell.

## Findings

| source | as written | input that shows it | evidently intended | confidence | as-written member | corrected member |
|---|---|---|---|---|---|---|
| src/components/budget/SplitBillsModal.tsx:40-70 | `addParticipant` and `removeParticipant` call `calculateSplit`, which divides by `participants.length` read before the list changed, so every share is total ÷ old count | "You" alone, total "100", equal mode, add "Ann": both get 100, adding up to 200 | shares of total ÷ new count, adding up to the total | not executed | SplitBills.AddParticipantAsWrittenExample | SplitBills.AddParticipantAddsUp |
| src/components/budget/SplitBillsModal.tsx:155-160 | the total input schedules the `calculateSplit` of its own render, which reads the total from before the keystroke, so equal shares lag one keystroke behind | "You" alone, equal mode, total "10", type a "0": the total reads 100 but the share stays 10 | shares re-split from the typed total | not executed | SplitBills.TypedTotalAsWrittenLags | SplitBills.TypedTotalAddsUp |
