/** The entry form's start/end validator as a state machine over values.
    Two "touched" flags and three error flags are set by the start and end
    time pickers; the date picker moves both calendars to one date; the
    draft's start and end instants follow the calendars. The screen's class
    (module NewRecordScreen) is specified by these functions. */
module TimeRangeValidator {
  import opened Clock

  /** startCheck, endCheck, startError, endError, equalError. */
  datatype Flags = Flags(startCheck: bool, endCheck: bool, startError: bool, endError: bool, equalError: bool)

  /** The flags when the form opens. */
  const Untouched: Flags := Flags(false, false, false, false, false)

  /** The "Add record" button's enabled expression. */
  predicate AddEnabled(f: Flags) {
    f.startCheck && f.endCheck && !f.startError && !f.endError && !f.equalError
  }

  predicate AtMostOneError(f: Flags) {
    !(f.startError && f.endError) && !(f.startError && f.equalError) && !(f.endError && f.equalError)
  }

  /** The start picker's flag update once the start calendar holds `start`:
      only the start flag is blamed for an order error, and only when the end
      was touched. */
  function AfterStartPick(f: Flags, start: int, end: int): (r: Flags)
    ensures r.startCheck && r.endCheck == f.endCheck
    ensures AtMostOneError(r)
    ensures r.startError <==> f.endCheck && start > end
    ensures r.equalError <==> f.endCheck && start == end
    ensures !r.endError
  {
    var f := f.(startCheck := true);
    if f.endCheck && start > end then f.(startError := true, equalError := false, endError := false)
    else if f.endCheck && start == end then f.(equalError := true, startError := false, endError := false)
    else f.(startError := false, endError := false, equalError := false)
  }

  /** The end picker's flag update once the end calendar holds `end`: only
      the end flag is blamed for an order error, and only when the start was
      touched. */
  function AfterEndPick(f: Flags, start: int, end: int): (r: Flags)
    ensures r.endCheck && r.startCheck == f.startCheck
    ensures AtMostOneError(r)
    ensures r.endError <==> f.startCheck && end < start
    ensures r.equalError <==> f.startCheck && start == end
    ensures !r.startError
  {
    var f := f.(endCheck := true);
    if f.startCheck && end < start then f.(endError := true, startError := false, equalError := false)
    else if f.startCheck && start == end then f.(equalError := true, endError := false, startError := false)
    else f.(endError := false, startError := false, equalError := false)
  }

  /** The flags agree with the two instants: no error before both ends are
      touched; after that, "equal" exactly when the instants are equal and an
      order error (on whichever side was edited last) exactly when start is
      after end. */
  predicate Consistent(f: Flags, start: int, end: int) {
    && AtMostOneError(f)
    && (f.startError || f.endError || f.equalError ==> f.startCheck && f.endCheck)
    && (f.startCheck && f.endCheck ==>
          (f.equalError <==> start == end) && (f.startError || f.endError <==> end < start))
  }

  /** Under Consistent the button is enabled exactly when both ends are
      touched and start is strictly before end. */
  lemma EnabledIffOrdered(f: Flags, start: int, end: int)
    requires Consistent(f, start, end)
    ensures AddEnabled(f) <==> f.startCheck && f.endCheck && start < end
  {
  }

  /** The form's validator state: flags, the two calendars, and the draft's
      start and end instants. */
  datatype FormState = FormState(flags: Flags, start: CalendarValue, end: CalendarValue,
                                 draftStart: int, draftEnd: int)

  /** Both calendars hold valid fields on one shared date and the flags agree
      with their instants. */
  predicate Invariant(s: FormState) {
    && s.start.Valid() && s.end.Valid()
    && s.start.day == s.end.day
    && Consistent(s.flags, s.start.Instant(), s.end.Instant())
  }

  /** The draft holds each calendar's instant once that end was touched. */
  predicate DraftTracks(s: FormState) {
    && (s.flags.startCheck ==> s.draftStart == s.start.Instant())
    && (s.flags.endCheck ==> s.draftEnd == s.end.Instant())
  }

  /** The form as it opens on a draft: each calendar is Calendar.getInstance()
      at its own clock reading, moved to the date of its end of the draft. */
  function Open(draftStart: int, draftEnd: int, clockStart: int, clockEnd: int): FormState {
    FormState(Untouched, AtInstant(clockStart).(day := DayOf(draftStart)),
              AtInstant(clockEnd).(day := DayOf(draftEnd)), draftStart, draftEnd)
  }

  /** A form opened on a draft whose two ends share a date satisfies both
      invariants and has the button disabled. */
  lemma OpenIsValid(draftStart: int, draftEnd: int, clockStart: int, clockEnd: int)
    requires DayOf(draftStart) == DayOf(draftEnd)
    ensures var s := Open(draftStart, draftEnd, clockStart, clockEnd);
            Invariant(s) && DraftTracks(s) && !AddEnabled(s.flags)
  {
  }

  /** The start time picker: hour and minute set, second reset, millisecond
      kept; the flags recomputed; the draft's start set to the new instant. */
  function StartTimePicked(s: FormState, hour: int, minute: int): FormState {
    var start := s.start.(hour := hour, minute := minute, second := 0);
    FormState(AfterStartPick(s.flags, start.Instant(), s.end.Instant()), start, s.end,
              start.Instant(), s.draftEnd)
  }

  /** The end time picker, symmetric to the start picker. */
  function EndTimePicked(s: FormState, hour: int, minute: int): FormState {
    var end := s.end.(hour := hour, minute := minute, second := 0);
    FormState(AfterEndPick(s.flags, s.start.Instant(), end.Instant()), s.start, end,
              s.draftStart, end.Instant())
  }

  /** The date picker as written: both calendars move to the picked date, the
      flags are left alone, and only the draft's start takes the new date. */
  function DatePickedAsWritten(s: FormState, day: int): FormState {
    var start := s.start.(day := day);
    var end := s.end.(day := day);
    FormState(s.flags, start, end, start.Instant(), s.draftEnd)
  }

  /** The date picker with the draft's end moved along with its start. */
  function DatePicked(s: FormState, day: int): FormState {
    var start := s.start.(day := day);
    var end := s.end.(day := day);
    FormState(s.flags, start, end, start.Instant(), end.Instant())
  }

  /** One picker callback. `month` is the date picker's 0-based month. */
  datatype PickerEvent =
    | DateSet(year: int, month: int, dayOfMonth: int)
    | StartSet(hour: int, minute: int)
    | EndSet(hour: int, minute: int)

  /** What the picker dialogs can deliver. */
  predicate ValidEvent(e: PickerEvent) {
    match e
    case DateSet(_, month, dayOfMonth) => 0 <= month < 12 && 1 <= dayOfMonth <= 31
    case StartSet(hour, minute) => 0 <= hour < 24 && 0 <= minute < 60
    case EndSet(hour, minute) => 0 <= hour < 24 && 0 <= minute < 60
  }

  function Step(s: FormState, e: PickerEvent): FormState {
    match e
    case DateSet(year, month, dayOfMonth) => DatePicked(s, DaysFromCivil(year, month + 1, dayOfMonth))
    case StartSet(hour, minute) => StartTimePicked(s, hour, minute)
    case EndSet(hour, minute) => EndTimePicked(s, hour, minute)
  }

  /** One picker callback as the form is written: the date case updates only
      the draft's start. */
  function StepAsWritten(s: FormState, e: PickerEvent): FormState {
    match e
    case DateSet(year, month, dayOfMonth) => DatePickedAsWritten(s, DaysFromCivil(year, month + 1, dayOfMonth))
    case StartSet(hour, minute) => StartTimePicked(s, hour, minute)
    case EndSet(hour, minute) => EndTimePicked(s, hour, minute)
  }

  function RunAsWritten(s: FormState, events: seq<PickerEvent>): FormState
    decreases |events|
  {
    if events == [] then s else RunAsWritten(StepAsWritten(s, events[0]), events[1..])
  }

  /** The state after a sequence of picker callbacks, oldest first, with the
      corrected date picker. */
  function Run(s: FormState, events: seq<PickerEvent>): FormState
    decreases |events|
  {
    if events == [] then s else Run(Step(s, events[0]), events[1..])
  }

  /** The start picker keeps the invariant; it sets the start flag and
      repoints the draft's start, so it keeps DraftTracks too. */
  lemma StartTimePickedKeeps(s: FormState, hour: int, minute: int)
    requires Invariant(s) && 0 <= hour < 24 && 0 <= minute < 60
    ensures Invariant(StartTimePicked(s, hour, minute))
    ensures DraftTracks(s) ==> DraftTracks(StartTimePicked(s, hour, minute))
  {
  }

  lemma EndTimePickedKeeps(s: FormState, hour: int, minute: int)
    requires Invariant(s) && 0 <= hour < 24 && 0 <= minute < 60
    ensures Invariant(EndTimePicked(s, hour, minute))
    ensures DraftTracks(s) ==> DraftTracks(EndTimePicked(s, hour, minute))
  {
  }

  /** Moving both calendars to one new date keeps their order, so the
      unchanged flags stay consistent; the draft's start stays on track. */
  lemma DatePickedAsWrittenKeeps(s: FormState, day: int)
    requires Invariant(s)
    ensures Invariant(DatePickedAsWritten(s, day))
    ensures s.flags.startCheck && DraftTracks(s) ==> DatePickedAsWritten(s, day).draftStart == DatePickedAsWritten(s, day).start.Instant()
  {
    SameDayOrder(s.start, s.end);
    SameDayOrder(DatePickedAsWritten(s, day).start, DatePickedAsWritten(s, day).end);
  }

  lemma DatePickedKeeps(s: FormState, day: int)
    requires Invariant(s)
    ensures Invariant(DatePicked(s, day))
    ensures DraftTracks(DatePicked(s, day))
  {
    SameDayOrder(s.start, s.end);
    SameDayOrder(DatePicked(s, day).start, DatePicked(s, day).end);
  }

  lemma StepKeeps(s: FormState, e: PickerEvent)
    requires Invariant(s) && ValidEvent(e)
    ensures Invariant(Step(s, e))
    ensures DraftTracks(s) ==> DraftTracks(Step(s, e))
  {
    match e
    case DateSet(year, month, dayOfMonth) => DatePickedKeeps(s, DaysFromCivil(year, month + 1, dayOfMonth));
    case StartSet(hour, minute) => StartTimePickedKeeps(s, hour, minute);
    case EndSet(hour, minute) => EndTimePickedKeeps(s, hour, minute);
  }

  /** Every sequence of picker callbacks keeps both invariants. */
  lemma {:induction false} RunKeeps(s: FormState, events: seq<PickerEvent>)
    requires Invariant(s) && DraftTracks(s)
    requires forall i :: 0 <= i < |events| ==> ValidEvent(events[i])
    ensures Invariant(Run(s, events)) && DraftTracks(Run(s, events))
    decreases |events|
  {
    if events != [] {
      StepKeeps(s, events[0]);
      RunKeeps(Step(s, events[0]), events[1..]);
    }
  }

  /** Each callback of the form as written keeps the calendars on one date
      and the flags consistent. */
  lemma StepAsWrittenKeeps(s: FormState, e: PickerEvent)
    requires Invariant(s) && ValidEvent(e)
    ensures Invariant(StepAsWritten(s, e))
  {
    match e
    case DateSet(year, month, dayOfMonth) => DatePickedAsWrittenKeeps(s, DaysFromCivil(year, month + 1, dayOfMonth));
    case StartSet(hour, minute) => StartTimePickedKeeps(s, hour, minute);
    case EndSet(hour, minute) => EndTimePickedKeeps(s, hour, minute);
  }

  lemma {:induction false} RunAsWrittenKeeps(s: FormState, events: seq<PickerEvent>)
    requires Invariant(s)
    requires forall i :: 0 <= i < |events| ==> ValidEvent(events[i])
    ensures Invariant(RunAsWritten(s, events))
    decreases |events|
  {
    if events != [] {
      StepAsWrittenKeeps(s, events[0]);
      RunAsWrittenKeeps(StepAsWritten(s, events[0]), events[1..]);
    }
  }

  /** On the form as written, after any sequence of callbacks the button is
      still enabled exactly when both ends were touched and the start
      calendar is strictly before the end calendar, and both calendars stay
      on one date; only the draft may drift from the calendars. */
  lemma AfterAnyWrittenSequence(draftStart: int, draftEnd: int, clockStart: int, clockEnd: int,
                                events: seq<PickerEvent>)
    requires DayOf(draftStart) == DayOf(draftEnd)
    requires forall i :: 0 <= i < |events| ==> ValidEvent(events[i])
    ensures var s := RunAsWritten(Open(draftStart, draftEnd, clockStart, clockEnd), events);
            && (AddEnabled(s.flags) <==> s.flags.startCheck && s.flags.endCheck && s.start.Instant() < s.end.Instant())
            && s.start.day == s.end.day
  {
    OpenIsValid(draftStart, draftEnd, clockStart, clockEnd);
    RunAsWrittenKeeps(Open(draftStart, draftEnd, clockStart, clockEnd), events);
  }

  /** With the draft on track, an enabled button means the draft that would be
      written starts strictly before it ends. */
  lemma SubmitEnabledImpliesOrderedDraft(s: FormState)
    requires Invariant(s) && DraftTracks(s) && AddEnabled(s.flags)
    ensures s.draftStart < s.draftEnd
  {
  }

  /** After any sequence of picker callbacks on a freshly opened form, the
      button is enabled exactly when both ends were touched and the start
      instant is strictly before the end instant, and then the draft is
      ordered the same way. */
  lemma AfterAnyPickerSequence(draftStart: int, draftEnd: int, clockStart: int, clockEnd: int,
                               events: seq<PickerEvent>)
    requires DayOf(draftStart) == DayOf(draftEnd)
    requires forall i :: 0 <= i < |events| ==> ValidEvent(events[i])
    ensures var s := Run(Open(draftStart, draftEnd, clockStart, clockEnd), events);
            && (AddEnabled(s.flags) <==> s.flags.startCheck && s.flags.endCheck && s.start.Instant() < s.end.Instant())
            && (AddEnabled(s.flags) ==> s.draftStart < s.draftEnd)
            && s.start.day == s.end.day
  {
    OpenIsValid(draftStart, draftEnd, clockStart, clockEnd);
    RunKeeps(Open(draftStart, draftEnd, clockStart, clockEnd), events);
  }

  /** The pickers reset the second but not the millisecond, so picking the
      same hour and minute for both ends reports "equal" only when the two
      calendars carry the same millisecond, and enables the button when the
      start's millisecond is the smaller. */
  lemma SameClockPicksDependOnMillis(s: FormState, hour: int, minute: int)
    requires Invariant(s) && 0 <= hour < 24 && 0 <= minute < 60
    ensures var t := EndTimePicked(StartTimePicked(s, hour, minute), hour, minute);
            && (t.flags.equalError <==> s.start.milli == s.end.milli)
            && (AddEnabled(t.flags) <==> s.start.milli < s.end.milli)
  {
    StartTimePickedKeeps(s, hour, minute);
    var u := StartTimePicked(s, hour, minute);
    EndTimePickedKeeps(u, hour, minute);
  }

  /** The defect of the date picker as written: a form opened on a draft for
      `day`, given start 09:00 and end 10:00 and then moved to `day + 1`, has
      the button enabled while its draft starts after it ends. */
  lemma WrittenDatePickInvertsDraft(day: int, clockStart: int, clockEnd: int)
    ensures var form := Open(DayStart(day), DayStart(day), clockStart, clockEnd);
            var s := DatePickedAsWritten(EndTimePicked(StartTimePicked(form, 9, 0), 10, 0), day + 1);
            && Invariant(s) && AddEnabled(s.flags)
            && s.draftStart > s.draftEnd
  {
    var form := Open(DayStart(day), DayStart(day), clockStart, clockEnd);
    InstantOnItsDay(AtInstant(clockStart).(day := day, hour := 0));
    assert DayOf(DayStart(day)) == day;
    var s1 := StartTimePicked(form, 9, 0);
    var s2 := EndTimePicked(s1, 10, 0);
    DatePickedAsWrittenKeeps(s2, day + 1);
  }

  /** The same defect reached from the form as it opens by default, on
      `today`, using only dates the picker offers (none after today): pick
      yesterday, start 09:00, end 10:00, then today again. */
  lemma WrittenDatePickFromToday(today: int, clockStart: int, clockEnd: int)
    ensures var form := Open(DayStart(today), DayStart(today), clockStart, clockEnd);
            var s1 := DatePickedAsWritten(form, today - 1);
            var s := DatePickedAsWritten(EndTimePicked(StartTimePicked(s1, 9, 0), 10, 0), today);
            && Invariant(s) && AddEnabled(s.flags)
            && s.draftStart > s.draftEnd
  {
    var form := Open(DayStart(today), DayStart(today), clockStart, clockEnd);
    assert DayOf(DayStart(today)) == today;
    OpenIsValid(DayStart(today), DayStart(today), clockStart, clockEnd);
    var s1 := DatePickedAsWritten(form, today - 1);
    DatePickedAsWrittenKeeps(form, today - 1);
    var s2 := StartTimePicked(s1, 9, 0);
    StartTimePickedKeeps(s1, 9, 0);
    var s3 := EndTimePicked(s2, 10, 0);
    EndTimePickedKeeps(s2, 10, 0);
    DatePickedAsWrittenKeeps(s3, today);
  }
}
