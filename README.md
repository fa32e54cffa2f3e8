# Steps app: record-entry validator and day selector

A model of the two pieces of stateful logic in an Android step-counting
app. Both are built on Jetpack Compose and Health Connect.

- **The record-entry form** (`EditBody` in `NewRecordScreen.kt`) has two
  `java.util.Calendar` objects for the start and the end of a new record.
  - A date picker writes one date into both calendars.
  - Two time pickers set the hour and minute of their own calendar and reset
    its second. The millisecond is not reset.
  - Five flags drive the "Add record" button: `startCheck`, `endCheck`,
    `startError`, `endError` and `equalError`.
  - A steps field accepts digit-only input and reads it with `toInt`.
  - Every change is handed to the entry view-model, `NewRecordViewModel`,
    which holds the draft record and writes it to the store.
- **The list screen** (`HomeBody` in `HomeScreen.kt`) moves a selected day
  back, forward, or to a picked date.
  - The next-day button is enabled only up to today.
  - The screen also sets the process-wide shared day that the entry form
    opens on.
  - Its view-model, `MainScreenViewModel`, reads the selected day's
    half-open range from the store. It refreshes the total only when the
    read returned records.

Instants are integer local wall-clock milliseconds, with the device's zone
offset already applied. Days are integer day numbers.

- `Clock.Calendar` is a class whose `set` methods change one field at a time.
- The Health Connect client is `HealthStore.HealthConnectManager`. It is a
  collaborator that logs every request. It answers reads and aggregates
  through two functions of the request history, which it is given when it
  is constructed.
- The screens and view-models are classes. Their callbacks are methods
  specified against pure functions.
- `TimeRangeValidator` is the form's state machine, in two versions.
  - `StepAsWritten` and `RunAsWritten` follow the source exactly. Their date
    case is `DatePickedAsWritten`, which updates only the draft's start.
  - `Step` and `Run` differ in one place: their date case is the corrected
    picker `DatePicked`, which updates both draft ends (see "## Findings").
  - The invariants are `Invariant` (calendars on one date, flags consistent)
    and `DraftTracks` (the draft equals the calendars once touched).
- `DaySelector` holds the list screen's navigation and display rules.

The central results are:

- `TimeRangeValidator.AfterAnyWrittenSequence`: for the form as written,
  after any sequence of picker callbacks, the button is enabled exactly when
  both ends were touched and the start calendar is strictly before the end
  calendar. The draft that would be written need not be ordered:
  `WrittenDatePickInvertsDraft` and `WrittenDatePickFromToday` give inputs
  where it is not.
- `TimeRangeValidator.AfterAnyPickerSequence`: the same holds with the
  corrected date picker. In addition, when the button is enabled, the draft
  that would be written is ordered the same way.
- `DaySelector.BrowsingStaysUpToToday`: using only the controls that can
  fire never selects a day after today.

## Model

| member | source | states |
|---|---|---|
| Decimal.AllDigits | app/src/main/java/com/example/stepsapp/ui/screens/NewRecordScreen.kt:344 | (definition) what the pattern `^\d*$` accepts: every character is a digit 0-9, and the empty string is included |
| Decimal.Value | app/src/main/java/com/example/stepsapp/ui/screens/NewRecordScreen.kt:346 | (definition) the number a digit string denotes, most significant digit first |
| Decimal.IntToString | app/src/main/java/com/example/stepsapp/ui/screens/HomeScreen.kt:254 | (definition) Kotlin's text of a Long: the digits of a non-negative number, or a minus sign followed by the digits of its magnitude |
| Decimal.NatToString | app/src/main/java/com/example/stepsapp/ui/screens/NewRecordScreen.kt:139-140 | Kotlin's decimal text of a number: at least one digit, no leading zero, a single digit exactly for n < 10 |
| Decimal.ValueOfNatToString | app/src/main/java/com/example/stepsapp/ui/screens/NewRecordScreen.kt:139-140 | reading a number's decimal text back gives the number |
| Decimal.ToInt | app/src/main/java/com/example/stepsapp/ui/screens/NewRecordScreen.kt:346 | toInt on a digit string succeeds exactly when the string is non-empty and its value fits an Int, and then yields that value |
| Decimal.ToIntOfNatToString | app/src/main/java/com/example/stepsapp/ui/screens/NewRecordScreen.kt:346 | the text of any Int-sized count parses back to it; the text of a larger number throws |
| Decimal.ShortDigitStringsParse | app/src/main/java/com/example/stepsapp/ui/screens/NewRecordScreen.kt:344-346 | one to nine digits always parse, to their value |
| Decimal.Pad2 | app/src/main/java/com/example/stepsapp/ui/screens/NewRecordScreen.kt:153 | the `n / 10 == 0` padding gives digits denoting n, at least two of them, and exactly two iff n <= 99 |
| Clock.InDayRange | app/src/main/java/com/example/stepsapp/viewmodel/MainScreenViewModel.kt:31 | an instant lies in [midnight of d, midnight of d+1) iff its day is d |
| Clock.DaysFromCivilAnchors | app/src/main/java/com/example/stepsapp/ui/screens/NewRecordScreen.kt:141 | the date-to-day conversion puts 1970-01-01 at day 0 and 2024-03-10 at day 19792 |
| Clock.DayOf | app/src/main/java/com/example/stepsapp/viewmodel/MainScreenViewModel.kt:31 | (definition) the day number of an instant, its floor division by 86400000 ms |
| Clock.DayStart | app/src/main/java/com/example/stepsapp/viewmodel/MainScreenViewModel.kt:31 | (definition) the instant of a day's midnight, the day times 86400000 ms |
| Clock.IsLeap | app/src/main/java/com/example/stepsapp/ui/screens/NewRecordScreen.kt:141-142 | (definition) the Gregorian leap rule that Calendar.set applies: divisible by 4, and not by 100 unless by 400 |
| Clock.DaysInMonth | app/src/main/java/com/example/stepsapp/ui/screens/NewRecordScreen.kt:141-142 | (definition) the month lengths the picker offers: 30 for April, June, September and November, 28 or 29 for February, 31 otherwise |
| Clock.NextDate | app/src/main/java/com/example/stepsapp/ui/screens/NewRecordScreen.kt:141-142 | (definition) the calendar date after a date: next day of the month, else the first of the next month, else January 1 of the next year |
| Clock.DaysFromCivil | app/src/main/java/com/example/stepsapp/ui/screens/NewRecordScreen.kt:141-142 | (definition) the day number of a proleptic Gregorian date, counted from 1970-01-01 |
| Clock.NextDateIsNextDay | app/src/main/java/com/example/stepsapp/ui/screens/NewRecordScreen.kt:141-142 | for every valid date, the following calendar date has the next day number: across month ends, February in leap and common years, and the year end |
| Clock.MonthEnd | app/src/main/java/com/example/stepsapp/ui/screens/NewRecordScreen.kt:141-142 | for every month except February and December, the first of the next month comes one day after the month's last day |
| Clock.FebruaryEnd | app/src/main/java/com/example/stepsapp/ui/screens/NewRecordScreen.kt:141-142 | March 1 comes one day after February's last day, the 29th in a leap year and the 28th otherwise |
| Clock.MarchFirstStep | app/src/main/java/com/example/stepsapp/ui/screens/NewRecordScreen.kt:141-142 | consecutive March 1sts are 366 days apart when the later year is a leap year and 365 otherwise |
| Clock.LeapInEra | app/src/main/java/com/example/stepsapp/ui/screens/NewRecordScreen.kt:141-142 | within a 400-year era, a year is a leap year iff it is the era's first year, or is divisible by 4 and not by 100 |
| Clock.FebruaryAnchors | app/src/main/java/com/example/stepsapp/ui/screens/NewRecordScreen.kt:141-142 | February has 28 days in 1900 and 2023 and 29 in 2000 and 2024 |
| Clock.CalendarValue.Instant | app/src/main/java/com/example/stepsapp/ui/screens/NewRecordScreen.kt:144-165 | (definition) Calendar.getTime() and toInstant(): the instant the fields denote, which every flag condition compares |
| Clock.InstantOnItsDay | app/src/main/java/com/example/stepsapp/ui/screens/HomeScreen.kt:157-161 | a calendar with in-range time fields denotes an instant on its own date |
| Clock.SameDayOrder | app/src/main/java/com/example/stepsapp/ui/screens/NewRecordScreen.kt:160-165 | two calendars on one date compare, and are equal, as their times of day do |
| Clock.AtInstant | app/src/main/java/com/example/stepsapp/ui/screens/NewRecordScreen.kt:105-112 | the fields Calendar.getInstance() shows at a clock reading are in range, lie on that reading's day and denote that reading exactly |
| Clock.Calendar.Now | app/src/main/java/com/example/stepsapp/ui/screens/NewRecordScreen.kt:113 | getInstance holds the current reading's fields, millisecond included |
| Clock.Calendar.SetDate | app/src/main/java/com/example/stepsapp/ui/screens/NewRecordScreen.kt:141-142 | set(year, month, day) changes the date and keeps the time of day |
| Clock.Calendar.SetHourOfDay | app/src/main/java/com/example/stepsapp/ui/screens/NewRecordScreen.kt:154 | changes only the hour |
| Clock.Calendar.SetMinute | app/src/main/java/com/example/stepsapp/ui/screens/NewRecordScreen.kt:155 | changes only the minute |
| Clock.Calendar.SetSecond | app/src/main/java/com/example/stepsapp/ui/screens/NewRecordScreen.kt:156 | changes only the second |
| HealthStore.HealthConnectManager.constructor | app/src/main/java/com/example/stepsapp/HealthConnectManager.kt:53-94 | a store with no requests made yet, answering through the given functions |
| HealthStore.HealthConnectManager.GetTotalSteps | app/src/main/java/com/example/stepsapp/HealthConnectManager.kt:53-62 | returns the store's total for [start, end) and logs one aggregate of that range |
| HealthStore.HealthConnectManager.ReadRecords | app/src/main/java/com/example/stepsapp/HealthConnectManager.kt:64-72 | returns the store's records for [start, end) and logs one read of that range |
| HealthStore.HealthConnectManager.DeleteStepsByTimeRange | app/src/main/java/com/example/stepsapp/HealthConnectManager.kt:74-79 | logs one delete of exactly the given range |
| HealthStore.HealthConnectManager.WriteSteps | app/src/main/java/com/example/stepsapp/HealthConnectManager.kt:81-94 | logs one insert of exactly the given start, end and count |
| TimeRangeValidator.AddEnabled | app/src/main/java/com/example/stepsapp/ui/screens/NewRecordScreen.kt:363 | (definition) the button's enabled expression: both ends touched and no error flag set |
| TimeRangeValidator.Open | app/src/main/java/com/example/stepsapp/ui/screens/NewRecordScreen.kt:105-134 | (definition) the form as it opens: flags clear; each calendar shows the date of its own draft end with the clock's time of day; the draft as given |
| TimeRangeValidator.StartTimePicked | app/src/main/java/com/example/stepsapp/ui/screens/NewRecordScreen.kt:150-176 | (definition) the start time callback: the start calendar takes the hour and minute with second 0; flags as AfterStartPick; the draft's start follows |
| TimeRangeValidator.EndTimePicked | app/src/main/java/com/example/stepsapp/ui/screens/NewRecordScreen.kt:178-204 | (definition) the end time callback: the end calendar takes the hour and minute with second 0; flags as AfterEndPick; the draft's end follows |
| TimeRangeValidator.DatePickedAsWritten | app/src/main/java/com/example/stepsapp/ui/screens/NewRecordScreen.kt:136-147 | (definition) the date callback as written: both calendars take the date; flags unchanged; only the draft's start follows |
| TimeRangeValidator.DatePicked | app/src/main/java/com/example/stepsapp/ui/screens/NewRecordScreen.kt:136-147 | (definition) the corrected date callback: as DatePickedAsWritten, but both draft ends follow the calendars |
| TimeRangeValidator.StepAsWritten | app/src/main/java/com/example/stepsapp/ui/screens/NewRecordScreen.kt:136-204 | (definition) one picker callback as written; the date case is DatePickedAsWritten |
| TimeRangeValidator.RunAsWritten | app/src/main/java/com/example/stepsapp/ui/screens/NewRecordScreen.kt:136-204 | (definition) a sequence of callbacks as written, oldest first |
| TimeRangeValidator.Step | app/src/main/java/com/example/stepsapp/ui/screens/NewRecordScreen.kt:136-204 | (definition) one picker callback, with the corrected date case DatePicked |
| TimeRangeValidator.Run | app/src/main/java/com/example/stepsapp/ui/screens/NewRecordScreen.kt:136-204 | (definition) a sequence of callbacks with the corrected date case, oldest first |
| TimeRangeValidator.AfterStartPick | app/src/main/java/com/example/stepsapp/ui/screens/NewRecordScreen.kt:157-174 | the start callback sets startCheck and keeps endCheck; startError iff end touched and start after end; equalError iff end touched and equal; endError cleared; at most one error |
| TimeRangeValidator.AfterEndPick | app/src/main/java/com/example/stepsapp/ui/screens/NewRecordScreen.kt:185-202 | the end callback mirrors the start's: sets endCheck; endError iff start touched and end before start; equalError iff start touched and equal; startError cleared; at most one error |
| TimeRangeValidator.EnabledIffOrdered | app/src/main/java/com/example/stepsapp/ui/screens/NewRecordScreen.kt:363 | when the flags agree with the instants, the button is enabled iff both ends are touched and start < end |
| TimeRangeValidator.OpenIsValid | app/src/main/java/com/example/stepsapp/ui/screens/NewRecordScreen.kt:113-134 | a form opened on a same-date draft keeps its invariants and starts with the button disabled |
| TimeRangeValidator.StartTimePickedKeeps | app/src/main/java/com/example/stepsapp/ui/screens/NewRecordScreen.kt:150-176 | the start time picker keeps the calendars on one date with flags consistent, and keeps the draft in step |
| TimeRangeValidator.EndTimePickedKeeps | app/src/main/java/com/example/stepsapp/ui/screens/NewRecordScreen.kt:178-204 | the end time picker keeps the calendars on one date with flags consistent, and keeps the draft in step |
| TimeRangeValidator.DatePickedAsWrittenKeeps | app/src/main/java/com/example/stepsapp/ui/screens/NewRecordScreen.kt:141-145 | the date picker as written keeps the calendars on one date with unchanged flags still consistent, and keeps the draft's start in step |
| TimeRangeValidator.DatePickedKeeps | app/src/main/java/com/example/stepsapp/ui/screens/NewRecordScreen.kt:141-145 | the corrected date picker keeps the invariant and puts both draft ends in step with the calendars |
| TimeRangeValidator.StepAsWrittenKeeps | app/src/main/java/com/example/stepsapp/ui/screens/NewRecordScreen.kt:136-204 | any single callback as written keeps the calendars on one date with the flags consistent |
| TimeRangeValidator.RunAsWrittenKeeps | app/src/main/java/com/example/stepsapp/ui/screens/NewRecordScreen.kt:136-204 | any sequence of callbacks as written keeps the calendars on one date with the flags consistent |
| TimeRangeValidator.AfterAnyWrittenSequence | app/src/main/java/com/example/stepsapp/ui/screens/NewRecordScreen.kt:363 | after any callbacks as written on a fresh form: enabled iff both touched and start calendar < end calendar; both calendars share a date |
| TimeRangeValidator.StepKeeps | app/src/main/java/com/example/stepsapp/ui/screens/NewRecordScreen.kt:136-204 | any single callback, with the date case replaced by the corrected DatePicked, keeps both invariants |
| TimeRangeValidator.RunKeeps | app/src/main/java/com/example/stepsapp/ui/screens/NewRecordScreen.kt:136-204 | any sequence of callbacks, with the date case replaced by the corrected DatePicked, keeps both invariants |
| TimeRangeValidator.SubmitEnabledImpliesOrderedDraft | app/src/main/java/com/example/stepsapp/ui/screens/NewRecordScreen.kt:357-363 | with the draft in step, an enabled button means the draft starts strictly before it ends |
| TimeRangeValidator.AfterAnyPickerSequence | app/src/main/java/com/example/stepsapp/ui/screens/NewRecordScreen.kt:363 | after any callbacks on a fresh form, with the date case replaced by the corrected DatePicked: enabled iff both touched and start instant < end instant; enabled implies an ordered draft; both calendars share a date |
| TimeRangeValidator.SameClockPicksDependOnMillis | app/src/main/java/com/example/stepsapp/ui/screens/NewRecordScreen.kt:154-156 | picking the same hour:minute for both ends flags "equal" iff the calendars' milliseconds agree, and enables the button iff the start's millisecond is smaller |
| TimeRangeValidator.WrittenDatePickInvertsDraft | app/src/main/java/com/example/stepsapp/ui/screens/NewRecordScreen.kt:141-145 | as written: 09:00, 10:00, then the next date leaves the button enabled with the draft's start after its end |
| TimeRangeValidator.WrittenDatePickFromToday | app/src/main/java/com/example/stepsapp/ui/screens/NewRecordScreen.kt:136-148 | as written, from the default form on today and using only dates up to today: yesterday, 09:00, 10:00, then today leaves the button enabled with the draft's start after its end |
| NewRecordScreen.ClockLabel | app/src/main/java/com/example/stepsapp/ui/screens/NewRecordScreen.kt:153 | (definition) the time pickers' "HH:MM" text: hour and minute each padded to two digits |
| NewRecordScreen.DateLabel | app/src/main/java/com/example/stepsapp/ui/screens/NewRecordScreen.kt:139-140 | (definition) the date picker's "yyyy:MM:dd" text: the year as it is, the 0-based month plus one and the day, both padded |
| NewRecordScreen.ClockLabelReadsBack | app/src/main/java/com/example/stepsapp/ui/screens/NewRecordScreen.kt:153 | the time label is two digits, a colon and two digits that read back as hour and minute |
| NewRecordScreen.DateLabelReadsBack | app/src/main/java/com/example/stepsapp/ui/screens/NewRecordScreen.kt:139-140 | the date label reads back as the year, the picker month plus one, and the day, separated by colons |
| NewRecordScreen.StepsChangeOf | app/src/main/java/com/example/stepsapp/ui/screens/NewRecordScreen.kt:344-347 | input is ignored iff it has a non-digit; among digit strings toInt throws iff empty or beyond Int; otherwise the stored count is the value |
| NewRecordScreen.TypedCountIsStored | app/src/main/java/com/example/stepsapp/ui/screens/NewRecordScreen.kt:344-347 | typing a count's decimal text stores that count when it fits an Int, and throws otherwise |
| NewRecordScreen.EditBody.constructor | app/src/main/java/com/example/stepsapp/ui/screens/NewRecordScreen.kt:113-134 | two distinct calendars at the draft's dates with their own clock time of day; flags clear; text fields empty |
| NewRecordScreen.EditBody.AddRecordEnabled | app/src/main/java/com/example/stepsapp/ui/screens/NewRecordScreen.kt:363 | the button is enabled iff both times were picked and the start calendar is strictly before the end calendar |
| NewRecordScreen.EditBody.OnDatePickedAsWritten | app/src/main/java/com/example/stepsapp/ui/screens/NewRecordScreen.kt:136-147 | both calendars get the picked date; flags unchanged; only the draft's start follows; label shows the date |
| NewRecordScreen.EditBody.OnDatePicked | app/src/main/java/com/example/stepsapp/ui/screens/NewRecordScreen.kt:136-147 | as above, with both draft ends following the calendars |
| NewRecordScreen.EditBody.OnStartTimePicked | app/src/main/java/com/example/stepsapp/ui/screens/NewRecordScreen.kt:150-176 | only the start calendar's hour, minute and second change (date and millisecond kept, end calendar untouched); flags as AfterStartPick; draft start follows; label set |
| NewRecordScreen.EditBody.OnEndTimePicked | app/src/main/java/com/example/stepsapp/ui/screens/NewRecordScreen.kt:178-204 | only the end calendar's hour, minute and second change; flags as AfterEndPick; draft end follows; label set |
| NewRecordScreen.EditBody.RecheckFromStart | app/src/main/java/com/example/stepsapp/ui/screens/NewRecordScreen.kt:160-174 | the start callback's if/else chain leaves the flags exactly as AfterStartPick gives them, touching only the three error flags |
| NewRecordScreen.EditBody.RecheckFromEnd | app/src/main/java/com/example/stepsapp/ui/screens/NewRecordScreen.kt:188-202 | the end callback's if/else chain leaves the flags exactly as AfterEndPick gives them, touching only the three error flags |
| NewRecordScreen.EditBody.OnStepsChanged | app/src/main/java/com/example/stepsapp/ui/screens/NewRecordScreen.kt:343-347 | a digit-only input replaces the field text; the draft's count changes only when toInt succeeds; the validator state is untouched |
| NewRecordScreen.EditBody.OnAddRecordClicked | app/src/main/java/com/example/stepsapp/ui/screens/NewRecordScreen.kt:357-363 | inserts exactly the current draft; with the draft in step its start is before its end |
| RecordViewModel.NewRecordViewModel.constructor | app/src/main/java/com/example/stepsapp/viewmodel/NewRecordViewModel.kt:15-17 | the initial draft starts and ends at the shared selected day with zero steps |
| RecordViewModel.NewRecordViewModel.UpdateUiState | app/src/main/java/com/example/stepsapp/viewmodel/NewRecordViewModel.kt:20-22 | the draft is replaced whole |
| RecordViewModel.NewRecordViewModel.InsertRecord | app/src/main/java/com/example/stepsapp/viewmodel/NewRecordViewModel.kt:24-29 | writes exactly the draft's start, end and count and leaves the draft unchanged |
| MainViewModel.AfterRead | app/src/main/java/com/example/stepsapp/viewmodel/MainScreenViewModel.kt:38-41 | the day is kept; the total is replaced only when the read was non-empty, otherwise the state is unchanged |
| MainViewModel.RefreshRequests | app/src/main/java/com/example/stepsapp/viewmodel/MainScreenViewModel.kt:30-44 | a refresh reads [day, day+1), and aggregates over that same range iff the read was non-empty |
| MainViewModel.MainScreenViewModel.constructor | app/src/main/java/com/example/stepsapp/viewmodel/MainScreenViewModel.kt:70-75 | today selected, total 0, no records |
| MainViewModel.MainScreenViewModel.UpdateRequestedRecordState | app/src/main/java/com/example/stepsapp/viewmodel/MainScreenViewModel.kt:26-28 | the requested state is replaced whole; the list is untouched |
| MainViewModel.MainScreenViewModel.ReadDayRecords | app/src/main/java/com/example/stepsapp/viewmodel/MainScreenViewModel.kt:30-44 | the list becomes the store's records for the selected day's range; requests and the total follow RefreshRequests and AfterRead |
| MainViewModel.MainScreenViewModel.DeleteRecord | app/src/main/java/com/example/stepsapp/viewmodel/MainScreenViewModel.kt:46-61 | deletes exactly the given range, then refreshes the selected day as ReadDayRecords does |
| DaySelector.Navigate | app/src/main/java/com/example/stepsapp/ui/screens/HomeScreen.kt:156-232 | (definition) the selected day after previous (one back), next (one on) or a pick (the picked instant's midnight) |
| DaySelector.Allowed | app/src/main/java/com/example/stepsapp/ui/screens/HomeScreen.kt:165-237 | (definition) whether a control can fire: previous always, next only while enabled, the picker only for dates up to today |
| DaySelector.Browse | app/src/main/java/com/example/stepsapp/ui/screens/HomeScreen.kt:176-237 | (definition) the selected day after a sequence of attempts, where attempts on controls that cannot fire change nothing |
| DaySelector.HourOf | app/src/main/java/com/example/stepsapp/ui/screens/HomeScreen.kt:286-287 | (definition) the hour of the day that ZonedDateTime.ofInstant shows for an instant |
| DaySelector.MinuteOf | app/src/main/java/com/example/stepsapp/ui/screens/HomeScreen.kt:286-287 | (definition) the minute of the hour that ZonedDateTime.ofInstant shows for an instant |
| DaySelector.RecordLabel | app/src/main/java/com/example/stepsapp/ui/screens/HomeScreen.kt:299-302 | (definition) the record item's "HH:MM - HH:MM" text from the start's and end's hour and minute, each padded |
| DaySelector.NextEnabled | app/src/main/java/com/example/stepsapp/ui/screens/HomeScreen.kt:234-237 | next is enabled iff the selected day is before today |
| DaySelector.PreviousThenNext | app/src/main/java/com/example/stepsapp/ui/screens/HomeScreen.kt:228-232 | previous then next returns to the starting day, and next is then enabled iff that day is not after today |
| DaySelector.PickedInstantInSelectedDay | app/src/main/java/com/example/stepsapp/ui/screens/HomeScreen.kt:156-161 | the picked instant lies within the day it selects |
| DaySelector.BrowsingStaysUpToToday | app/src/main/java/com/example/stepsapp/ui/screens/HomeScreen.kt:228-237 | from a day not after today, any sequence of presses and picks on the controls that can fire stays not after today |
| DaySelector.RecordLabelReadsBack | app/src/main/java/com/example/stepsapp/ui/screens/HomeScreen.kt:299-302 | the record label is "HH:MM - HH:MM", thirteen characters, whose fields read back as the start's and end's hour and minute |
| DaySelector.Headline | app/src/main/java/com/example/stepsapp/ui/screens/HomeScreen.kt:245-257 | "No records" iff the list is empty; otherwise the total |
| DaySelector.HeadlineReadsBack | app/src/main/java/com/example/stepsapp/ui/screens/HomeScreen.kt:252-257 | for a non-empty list the headline is "Total steps: " followed by digits that read back as a non-negative total, or by a minus sign and the digits of a negative total's magnitude |
| DaySelector.RangeJoined | app/src/main/java/com/example/stepsapp/ui/screens/HomeScreen.kt:299-302 | four two-character fields joined as "a:b - c:d" are found at offsets 0, 3, 8 and 11 of a thirteen-character text |
| HomeScreen.HomeBody.constructor | app/src/main/java/com/example/stepsapp/ui/screens/HomeScreen.kt:145-152 | the picker calendar is getInstance; the label shows the requested day |
| HomeScreen.HomeBody.OnPreviousDay | app/src/main/java/com/example/stepsapp/ui/screens/HomeScreen.kt:176-181 | the requested day moves one back with the total carried over; the shared day and the label follow; the list is untouched |
| HomeScreen.HomeBody.OnNextDay | app/src/main/java/com/example/stepsapp/ui/screens/HomeScreen.kt:228-237 | pressable only while enabled; the day moves one on and stays not after today; the total is carried over; the shared day and the label follow |
| HomeScreen.HomeBody.OnDatePicked | app/src/main/java/com/example/stepsapp/ui/screens/HomeScreen.kt:154-165 | the calendar takes the date and keeps its time of day; the shared day is that untruncated instant; the requested day is its midnight, the picked date, not after today |

## Left out

- Time zones and DST: instants are local wall-clock milliseconds, and `ZonedDateTime` conversions are identities on them.
- The Julian/Gregorian cutover and Calendar's lenient rollover of out-of-range fields: dates are proleptic Gregorian, and picker values are in range.
- The list screen's "dd MMM yyyy" label is modelled as the day number it shows. Formatting month names needs a locale.
- The entry form's initial "yyyy:MM:dd" label is a constructor parameter. Labels written by the date picker are modelled in full.
- Coroutines, StateFlow and recomposition: each launched block runs to completion in order. `remember` versus `rememberSaveable` across configuration changes is not modelled.
- HomeScreen.kt:93 re-reads on every composition and passes an argument that `readDayRecords` (MainScreenViewModel.kt:30) does not take. The re-read trigger is not modelled.
- HealthStore.HealthConnectManager: which records a range filter returns, and the `!!` on a missing aggregate (HealthConnectManager.kt:61), are not modelled. The store's answers are free functions of the request history.
- The permission launcher, `checkPermissions`, Toast, navigation, BackHandler and the view-model factory are wiring only.
- The `onValueChange` handlers of disabled text fields (NewRecordScreen.kt:214,241,292; HomeScreen.kt:190) cannot be reached by the user.
- NewRecordScreen.StepsChangeOf: the app crashes when `toInt` throws; this is modelled as the outcome `ToIntThrew`, after which the draft is unchanged. Sign handling in `toInt` is not modelled, because only digit strings reach it. The pattern's `\d` is taken as the ASCII digits 0-9. On the platform, `\d` and `toInt` may also accept other Unicode decimal digits (for example Arabic-Indic digits); input in those digits is modelled as ignored.
- NewRecordScreen.EditBody.OnDatePicked and NewRecordScreen.EditBody.OnDatePickedAsWritten: the entry form's date picker has the maximum date "now" (NewRecordScreen.kt:148). Neither method requires it, because the validator's properties hold for any date.
- MainViewModel.MainScreenViewModel.constructor: today is a parameter, because reading the clock is I/O.
- `stepsOverall` is a Long and the insert widens the Int count to Long. Both are unbounded integers, and no store total is large enough to wrap.

## Findings

| source | as written | input that shows it | evidently intended | confidence | as-written member | corrected member |
|---|---|---|---|---|---|---|
| app/src/main/java/com/example/stepsapp/ui/screens/NewRecordScreen.kt:141-145 | The date picker moves both calendars to the new date but copies only the start into the draft. The draft's end keeps its old date, and the flags and button are left as they were. | Open the form on today T (the default), pick date T-1, start 09:00 and end 10:00, then pick date T. The button stays enabled, and "Add record" issues an insert of a record from T 09:00 to T-1 10:00. The same happens from any day D before today by picking D+1 last. | The date picker also copies the end calendar's new instant into the draft's end, so an enabled button always writes an ordered record. | not executed | TimeRangeValidator.WrittenDatePickFromToday | TimeRangeValidator.AfterAnyPickerSequence |
