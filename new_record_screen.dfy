/** The record-entry form: its picker callbacks, its steps field and its
    "Add record" button. The form owns two calendars, the start and the end,
    which the callbacks change in place, and it hands every draft change to
    the entry view-model. */
module NewRecordScreen {
  import opened Decimal
  import opened Clock
  import opened HealthStore
  import opened RecordViewModel
  import opened TimeRangeValidator

  /** "HH:MM" as the time pickers write it into the start and end fields. */
  function ClockLabel(hour: nat, minute: nat): string {
    Pad2(hour) + ":" + Pad2(minute)
  }

  /** For picker values the label is five characters, two digits, a colon and
      two digits, and reading the digits back gives the hour and the minute. */
  lemma ClockLabelReadsBack(hour: nat, minute: nat)
    requires hour <= 99 && minute <= 99
    ensures var text := ClockLabel(hour, minute);
            && |text| == 5 && text[2] == ':'
            && AllDigits(text[..2]) && Value(text[..2]) == hour
            && AllDigits(text[3..]) && Value(text[3..]) == minute
  {
    var text := ClockLabel(hour, minute);
    assert text[..2] == Pad2(hour);
    assert text[3..] == Pad2(minute);
  }

  /** "yyyy:MM:dd" as the date picker writes it: the year as it is, the
      picker's 0-based month shown one higher, both month and day padded. */
  function DateLabel(year: nat, month: nat, dayOfMonth: nat): string {
    NatToString(year) + ":" + Pad2(month + 1) + ":" + Pad2(dayOfMonth)
  }

  /** The date label reads back as the year, the 1-based month and the day. */
  lemma DateLabelReadsBack(year: nat, month: nat, dayOfMonth: nat)
    requires month < 12 && dayOfMonth <= 31
    ensures var text := DateLabel(year, month, dayOfMonth);
            var k := |NatToString(year)|;
            && |text| == k + 6
            && text[..k] == NatToString(year) && Value(text[..k]) == year
            && text[k] == ':' && text[k + 3] == ':'
            && AllDigits(text[k + 1..k + 3]) && Value(text[k + 1..k + 3]) == month + 1
            && AllDigits(text[k + 4..]) && Value(text[k + 4..]) == dayOfMonth
  {
    var y, m, d := NatToString(year), Pad2(month + 1), Pad2(dayOfMonth);
    ValueOfNatToString(year);
    ColonJoined(y, m, d, year, month + 1, dayOfMonth);
    assert DateLabel(year, month, dayOfMonth) == y + ":" + m + ":" + d;
  }

  /** The three digit fields of `a:b:c`, with `b` and `c` two characters
      long, are found again at their offsets and read back as before. */
  lemma ColonJoined(a: string, b: string, c: string, x: nat, y: nat, z: nat)
    requires |b| == 2 && |c| == 2
    requires AllDigits(a) && AllDigits(b) && AllDigits(c)
    requires Value(a) == x && Value(b) == y && Value(c) == z
    ensures var text := a + ":" + b + ":" + c;
            && |text| == |a| + 6
            && text[..|a|] == a && Value(text[..|a|]) == x
            && text[|a|] == ':' && text[|a| + 3] == ':'
            && AllDigits(text[|a| + 1..|a| + 3]) && Value(text[|a| + 1..|a| + 3]) == y
            && AllDigits(text[|a| + 4..]) && Value(text[|a| + 4..]) == z
  {
    var text := a + ":" + b + ":" + c;
    assert text[..|a|] == a;
    assert text[|a| + 1..|a| + 3] == b;
    assert text[|a| + 4..] == c;
  }

  /** What typing into the steps field does. */
  datatype StepsChange =
    | Ignored                  // not all digits: field and draft unchanged
    | Stored(steps: int)       // field and draft's count updated
    | ToIntThrew               // field updated, then toInt throws NumberFormatException

  /** The steps field's onValueChange: input passes only when every character
      is an ASCII digit, and is then read with toInt, which fails on the empty
      string and on values beyond Int. */
  function StepsChangeOf(input: string): (r: StepsChange)
    ensures r.Ignored? <==> !AllDigits(input)
    ensures r.ToIntThrew? <==> AllDigits(input) && (input == [] || Value(input) > IntMax)
    ensures r.Stored? ==> AllDigits(input) && r.steps == Value(input) && 0 <= r.steps <= IntMax
  {
    if !AllDigits(input) then Ignored
    else match ToInt(input)
      case Parsed(v) => Stored(v)
      case NumberFormatException => ToIntThrew
  }

  /** Typing the decimal text of a count Int can hold stores that count;
      typing a larger one fails. */
  lemma TypedCountIsStored(n: nat)
    ensures StepsChangeOf(NatToString(n)) == if n <= IntMax then Stored(n) else ToIntThrew
  {
    ToIntOfNatToString(n);
  }

  /** EditBody's state: the flags, the four text fields, the two remembered
      calendars, and the view-model its callbacks report to. */
  class EditBody {
    const viewModel: NewRecordViewModel
    const selectedStartDate: Calendar
    const selectedEndDate: Calendar
    var startCheck: bool
    var endCheck: bool
    var startError: bool
    var endError: bool
    var equalError: bool
    var recordDate: string
    var startTime: string
    var endTime: string
    var steps: string

    function Flags(): TimeRangeValidator.Flags
      reads this
    {
      TimeRangeValidator.Flags(startCheck, endCheck, startError, endError, equalError)
    }

    /** The validator's view of the form. */
    function Form(): FormState
      reads this, selectedStartDate, selectedEndDate, viewModel
    {
      FormState(Flags(), selectedStartDate.Value(), selectedEndDate.Value(),
                viewModel.recordState.startTime, viewModel.recordState.endTime)
    }

    ghost predicate Valid()
      reads this, selectedStartDate, selectedEndDate, viewModel
    {
      selectedStartDate != selectedEndDate && Invariant(Form())
    }

    /** The form opening on the view-model's draft: each calendar is
        Calendar.getInstance() at its own clock reading, moved to the date of
        the draft's corresponding end. */
    constructor (viewModel: NewRecordViewModel, clockStart: int, clockEnd: int, initialDateLabel: string)
      requires DayOf(viewModel.recordState.startTime) == DayOf(viewModel.recordState.endTime)
      ensures this.viewModel == viewModel && fresh(selectedStartDate) && fresh(selectedEndDate)
      ensures Valid() && DraftTracks(Form())
      ensures Form() == Open(viewModel.recordState.startTime, viewModel.recordState.endTime, clockStart, clockEnd)
      ensures recordDate == initialDateLabel && startTime == "" && endTime == "" && steps == ""
    {
      this.viewModel := viewModel;
      var start := new Calendar.Now(clockStart);
      start.SetDate(DayOf(viewModel.recordState.startTime));
      var end := new Calendar.Now(clockEnd);
      end.SetDate(DayOf(viewModel.recordState.endTime));
      selectedStartDate, selectedEndDate := start, end;
      startCheck, endCheck := false, false;
      startError, endError, equalError := false, false, false;
      recordDate, startTime, endTime, steps := initialDateLabel, "", "", "";
      new;
      OpenIsValid(viewModel.recordState.startTime, viewModel.recordState.endTime, clockStart, clockEnd);
    }

    /** The "Add record" button's enabled flag: under the form's invariant, on
        exactly when both times were picked and start is before end. */
    function AddRecordEnabled(): (enabled: bool)
      reads this, selectedStartDate, selectedEndDate, viewModel
      requires Valid()
      ensures enabled <==> (startCheck && endCheck
                            && selectedStartDate.Value().Instant() < selectedEndDate.Value().Instant())
    {
      EnabledIffOrdered(Flags(), selectedStartDate.Value().Instant(), selectedEndDate.Value().Instant());
      startCheck && endCheck && !startError && !endError && !equalError
    }

    /** The date picker's callback as written: both calendars get the picked
        date, the flags stay, and the draft's start (only) takes the new date. */
    method OnDatePickedAsWritten(year: nat, month: nat, dayOfMonth: nat)
      requires Valid() && month < 12 && 1 <= dayOfMonth <= 31
      modifies this`recordDate, selectedStartDate, selectedEndDate, viewModel
      ensures Valid()
      ensures Form() == DatePickedAsWritten(old(Form()), DaysFromCivil(year, month + 1, dayOfMonth))
      ensures viewModel.recordState.steps == old(viewModel.recordState.steps)
      ensures recordDate == DateLabel(year, month, dayOfMonth)
      ensures startTime == old(startTime) && endTime == old(endTime) && steps == old(steps)
    {
      recordDate := DateLabel(year, month, dayOfMonth);
      var day := DaysFromCivil(year, month + 1, dayOfMonth);
      selectedStartDate.SetDate(day);
      selectedEndDate.SetDate(day);
      var newDate := selectedStartDate.Value().Instant();
      viewModel.UpdateUiState(viewModel.recordState.(startTime := newDate));
      DatePickedAsWrittenKeeps(old(Form()), day);
    }

    /** The date picker's callback with the draft's end moved along with its
        start, which keeps the draft in step with both calendars. */
    method OnDatePicked(year: nat, month: nat, dayOfMonth: nat)
      requires Valid() && month < 12 && 1 <= dayOfMonth <= 31
      modifies this`recordDate, selectedStartDate, selectedEndDate, viewModel
      ensures Valid() && DraftTracks(Form())
      ensures Form() == Step(old(Form()), DateSet(year, month, dayOfMonth))
      ensures viewModel.recordState.steps == old(viewModel.recordState.steps)
      ensures recordDate == DateLabel(year, month, dayOfMonth)
      ensures startTime == old(startTime) && endTime == old(endTime) && steps == old(steps)
    {
      recordDate := DateLabel(year, month, dayOfMonth);
      var day := DaysFromCivil(year, month + 1, dayOfMonth);
      selectedStartDate.SetDate(day);
      selectedEndDate.SetDate(day);
      viewModel.UpdateUiState(viewModel.recordState.(startTime := selectedStartDate.Value().Instant(),
                                                     endTime := selectedEndDate.Value().Instant()));
      DatePickedKeeps(old(Form()), day);
    }

    /** The start time picker's callback: only the start calendar's hour,
        minute and second change; the start is marked touched and the error
        flags are recomputed from the start's side. */
    method OnStartTimePicked(hour: nat, minute: nat)
      requires Valid() && hour < 24 && minute < 60
      modifies this`startTime, this`startCheck, this`startError, this`endError, this`equalError,
               selectedStartDate, viewModel
      ensures Valid()
      ensures Form() == Step(old(Form()), StartSet(hour, minute))
      ensures old(DraftTracks(Form())) ==> DraftTracks(Form())
      ensures selectedStartDate.Value() == old(selectedStartDate.Value()).(hour := hour, minute := minute, second := 0)
      ensures selectedEndDate.Value() == old(selectedEndDate.Value())
      ensures viewModel.recordState.steps == old(viewModel.recordState.steps)
      ensures startTime == ClockLabel(hour, minute)
      ensures recordDate == old(recordDate) && endTime == old(endTime) && steps == old(steps)
    {
      ghost var before := Form();
      startTime := ClockLabel(hour, minute);
      selectedStartDate.SetHourOfDay(hour);
      selectedStartDate.SetMinute(minute);
      selectedStartDate.SetSecond(0);
      startCheck := true;
      var newDate := selectedStartDate.Value().Instant();
      viewModel.UpdateUiState(viewModel.recordState.(startTime := newDate));
      RecheckFromStart(selectedStartDate.Value().Instant(), selectedEndDate.Value().Instant());
      StartTimePickedKeeps(before, hour, minute);
    }

    /** The end time picker's callback, symmetric to the start's: the error
        flags are recomputed from the end's side. */
    method OnEndTimePicked(hour: nat, minute: nat)
      requires Valid() && hour < 24 && minute < 60
      modifies this`endTime, this`endCheck, this`startError, this`endError, this`equalError,
               selectedEndDate, viewModel
      ensures Valid()
      ensures Form() == Step(old(Form()), EndSet(hour, minute))
      ensures old(DraftTracks(Form())) ==> DraftTracks(Form())
      ensures selectedEndDate.Value() == old(selectedEndDate.Value()).(hour := hour, minute := minute, second := 0)
      ensures selectedStartDate.Value() == old(selectedStartDate.Value())
      ensures viewModel.recordState.steps == old(viewModel.recordState.steps)
      ensures endTime == ClockLabel(hour, minute)
      ensures recordDate == old(recordDate) && startTime == old(startTime) && steps == old(steps)
    {
      ghost var before := Form();
      endTime := ClockLabel(hour, minute);
      selectedEndDate.SetHourOfDay(hour);
      selectedEndDate.SetMinute(minute);
      selectedEndDate.SetSecond(0);
      endCheck := true;
      var newDate := selectedEndDate.Value().Instant();
      viewModel.UpdateUiState(viewModel.recordState.(endTime := newDate));
      RecheckFromEnd(selectedStartDate.Value().Instant(), selectedEndDate.Value().Instant());
      EndTimePickedKeeps(before, hour, minute);
    }

    /** The start picker's error bookkeeping once the start calendar holds
        `start` and the end calendar `end` (startCheck already set). */
    method RecheckFromStart(start: int, end: int)
      requires startCheck
      modifies this`startError, this`endError, this`equalError
      ensures Flags() == AfterStartPick(old(Flags()), start, end)
    {
      if endCheck && start > end {
        startError := true;
        equalError := false;
        endError := false;
      } else if endCheck && start == end {
        equalError := true;
        startError := false;
        endError := false;
      } else {
        startError := false;
        endError := false;
        equalError := false;
      }
    }

    /** The end picker's error bookkeeping, blaming the end (endCheck already
        set). */
    method RecheckFromEnd(start: int, end: int)
      requires endCheck
      modifies this`startError, this`endError, this`equalError
      ensures Flags() == AfterEndPick(old(Flags()), start, end)
    {
      if startCheck && end < start {
        endError := true;
        startError := false;
        equalError := false;
      } else if startCheck && start == end {
        equalError := true;
        endError := false;
        startError := false;
      } else {
        endError := false;
        startError := false;
        equalError := false;
      }
    }

    /** The steps field's onValueChange. The field takes all-digit input before
        toInt runs, so on NumberFormatException it already shows the input; the
        draft's count changes only when toInt succeeds. */
    method OnStepsChanged(input: string) returns (change: StepsChange)
      requires Valid()
      modifies this`steps, viewModel
      ensures Valid() && Form() == old(Form())
      ensures change == StepsChangeOf(input)
      ensures steps == if AllDigits(input) then input else old(steps)
      ensures viewModel.recordState == if change.Stored? then old(viewModel.recordState).(steps := change.steps)
                                       else old(viewModel.recordState)
      ensures recordDate == old(recordDate) && startTime == old(startTime) && endTime == old(endTime)
    {
      change := Ignored;
      if AllDigits(input) {
        steps := input;
        match ToInt(input)
        case Parsed(v) =>
          viewModel.UpdateUiState(viewModel.recordState.(steps := v));
          change := Stored(v);
        case NumberFormatException =>
          change := ToIntThrew;
      }
    }

    /** The "Add record" button: writes the current draft. When the draft is in
        step with the calendars, the record written starts before it ends. */
    method OnAddRecordClicked()
      requires Valid() && AddRecordEnabled()
      modifies viewModel.healthConnectManager
      ensures viewModel.healthConnectManager.requests == old(viewModel.healthConnectManager.requests)
                + [Insert(StepsRecord(viewModel.recordState.startTime, viewModel.recordState.endTime,
                                      viewModel.recordState.steps))]
      ensures DraftTracks(Form()) ==> viewModel.recordState.startTime < viewModel.recordState.endTime
    {
      viewModel.InsertRecord();
      if DraftTracks(Form()) {
        SubmitEnabledImpliesOrderedDraft(Form());
      }
    }
  }
}
