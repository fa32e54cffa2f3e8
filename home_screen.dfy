/** The list screen's handlers: previous day, next day and the date picker.
    Each moves the requested day in the list view-model, sets the shared
    selected day that the entry form opens on, and updates the date label.
    The screen remembers one calendar for its date picker. */
module HomeScreen {
  import opened Clock
  import opened MainViewModel
  import opened DaySelector

  class HomeBody {
    const viewModel: MainScreenViewModel
    /** The picker's calendar, Calendar.getInstance() at first composition. */
    const selectedDate: Calendar
    /** The process-wide selected day the entry form opens on, as an instant. */
    var selectedSharedDay: int
    /** The day the date label shows. */
    var recordDate: int

    ghost predicate Valid()
      reads this, selectedDate
    {
      selectedDate.Valid()
    }

    /** The list screen as first composed at clock reading `clock`, with the
        shared day as it stands. */
    constructor (viewModel: MainScreenViewModel, clock: int, selectedSharedDay: int)
      ensures Valid() && fresh(selectedDate)
      ensures this.viewModel == viewModel && selectedDate.Value() == AtInstant(clock)
      ensures this.selectedSharedDay == selectedSharedDay
      ensures recordDate == viewModel.requestedRecordState.selectedDay
    {
      this.viewModel := viewModel;
      selectedDate := new Calendar.Now(clock);
      this.selectedSharedDay := selectedSharedDay;
      recordDate := viewModel.requestedRecordState.selectedDay;
    }

    /** The previous-day button: the requested day moves one day back, the
        total is carried over, and the shared day and the label follow. */
    method OnPreviousDay()
      modifies this, viewModel
      ensures viewModel.requestedRecordState
              == old(viewModel.requestedRecordState).(selectedDay := Navigate(old(viewModel.requestedRecordState.selectedDay), Previous))
      ensures viewModel.recordsUiState == old(viewModel.recordsUiState)
      ensures selectedSharedDay == DayStart(viewModel.requestedRecordState.selectedDay)
      ensures recordDate == viewModel.requestedRecordState.selectedDay
    {
      var newDate := viewModel.requestedRecordState.selectedDay - 1;
      selectedSharedDay := DayStart(newDate);
      recordDate := newDate;
      viewModel.UpdateRequestedRecordState(viewModel.requestedRecordState.(selectedDay := newDate));
    }

    /** The next-day button, pressable only while enabled: the requested day
        moves one day on and is still not after today. */
    method OnNextDay(today: int)
      requires NextEnabled(viewModel.requestedRecordState.selectedDay, today)
      modifies this, viewModel
      ensures viewModel.requestedRecordState
              == old(viewModel.requestedRecordState).(selectedDay := Navigate(old(viewModel.requestedRecordState.selectedDay), Next))
      ensures viewModel.requestedRecordState.selectedDay <= today
      ensures viewModel.recordsUiState == old(viewModel.recordsUiState)
      ensures selectedSharedDay == DayStart(viewModel.requestedRecordState.selectedDay)
      ensures recordDate == viewModel.requestedRecordState.selectedDay
    {
      var newDate := viewModel.requestedRecordState.selectedDay + 1;
      selectedSharedDay := DayStart(newDate);
      recordDate := newDate;
      viewModel.UpdateRequestedRecordState(viewModel.requestedRecordState.(selectedDay := newDate));
    }

    /** The date picker's callback for a date up to the day of `now` (the
        picker's maximum): the calendar takes the date and keeps its time of
        day; the shared day takes that instant as it is, the requested day its
        midnight. */
    method OnDatePicked(year: int, month: int, dayOfMonth: int, now: int)
      requires Valid() && 0 <= month < 12 && 1 <= dayOfMonth <= 31
      requires DaysFromCivil(year, month + 1, dayOfMonth) <= DayOf(now)
      modifies this, selectedDate, viewModel
      ensures Valid()
      ensures selectedDate.Value() == old(selectedDate.Value()).(day := DaysFromCivil(year, month + 1, dayOfMonth))
      ensures selectedSharedDay == selectedDate.Value().Instant()
      ensures viewModel.requestedRecordState
              == old(viewModel.requestedRecordState).(selectedDay := Navigate(old(viewModel.requestedRecordState.selectedDay), Picked(selectedSharedDay)))
      ensures viewModel.requestedRecordState.selectedDay == DaysFromCivil(year, month + 1, dayOfMonth) <= DayOf(now)
      ensures DayStart(viewModel.requestedRecordState.selectedDay) <= selectedSharedDay
              < DayStart(viewModel.requestedRecordState.selectedDay + 1)
      ensures viewModel.recordsUiState == old(viewModel.recordsUiState)
      ensures recordDate == viewModel.requestedRecordState.selectedDay
    {
      selectedDate.SetDate(DaysFromCivil(year, month + 1, dayOfMonth));
      var newDate := selectedDate.Value().Instant();
      selectedSharedDay := newDate;
      viewModel.UpdateRequestedRecordState(viewModel.requestedRecordState.(selectedDay := DayOf(newDate)));
      recordDate := DayOf(newDate);
      InstantOnItsDay(selectedDate.Value());
      PickedInstantInSelectedDay(old(viewModel.requestedRecordState.selectedDay), newDate);
    }
  }
}
