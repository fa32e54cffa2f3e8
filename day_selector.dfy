/** The list screen's day selector and its display rules, over values: moving
    the selected day, the next-day button's enabled rule, the record item's
    time label and the headline above the list. */
module DaySelector {
  import opened Decimal
  import opened Clock
  import opened HealthStore

  /** A press of previous or next, or a date chosen in the picker (the
      instant the picker's calendar then holds). */
  datatype NavEvent = Previous | Next | Picked(instant: int)

  /** The selected day after an event: one day back, one day on, or the
      picked instant truncated to its midnight. */
  function Navigate(selectedDay: int, e: NavEvent): int {
    match e
    case Previous => selectedDay - 1
    case Next => selectedDay + 1
    case Picked(instant) => DayOf(instant)
  }

  /** The next-day button's enabled expression: the following day is before
      today or is today. */
  function NextEnabled(selectedDay: int, today: int): (enabled: bool)
    ensures enabled <==> selectedDay < today
  {
    selectedDay + 1 < today || selectedDay + 1 == today
  }

  /** Previous then next lands on the day it started from, and from a day not
      after today the next button is then enabled. */
  lemma PreviousThenNext(selectedDay: int, today: int)
    ensures Navigate(Navigate(selectedDay, Previous), Next) == selectedDay
    ensures NextEnabled(Navigate(selectedDay, Previous), today) <==> selectedDay <= today
  {
  }

  /** A picked date becomes its midnight: the picked instant lies in the half-
      open range of the new selected day. */
  lemma PickedInstantInSelectedDay(selectedDay: int, instant: int)
    ensures var day := Navigate(selectedDay, Picked(instant));
            DayStart(day) <= instant < DayStart(day + 1)
  {
    InDayRange(instant, DayOf(instant));
  }

  /** Whether the control behind an event can fire: the next button only
      while enabled, and the picker only for dates up to today (its maximum
      date is now). */
  predicate Allowed(selectedDay: int, today: int, e: NavEvent) {
    match e
    case Previous => true
    case Next => NextEnabled(selectedDay, today)
    case Picked(instant) => DayOf(instant) <= today
  }

  /** The selected day after a sequence of attempts on the list screen with
      `today` as the current day; an attempt on a control that cannot fire has
      no effect. */
  function Browse(selectedDay: int, today: int, events: seq<NavEvent>): int
    decreases |events|
  {
    if events == [] then selectedDay
    else
      var e := events[0];
      Browse(if Allowed(selectedDay, today, e) then Navigate(selectedDay, e) else selectedDay, today, events[1..])
  }

  /** Using only enabled controls never selects a day after today. */
  lemma {:induction false} BrowsingStaysUpToToday(selectedDay: int, today: int, events: seq<NavEvent>)
    requires selectedDay <= today
    ensures Browse(selectedDay, today, events) <= today
    decreases |events|
  {
    if events != [] {
      var e := events[0];
      BrowsingStaysUpToToday(if Allowed(selectedDay, today, e) then Navigate(selectedDay, e) else selectedDay,
                             today, events[1..]);
    }
  }

  /** The hour and minute an instant shows on the clock. */
  function HourOf(t: int): int {
    AtInstant(t).hour
  }

  function MinuteOf(t: int): int {
    AtInstant(t).minute
  }

  /** A record item's "HH:MM - HH:MM" label. */
  function RecordLabel(record: StepsRecord): string {
    Pad2(HourOf(record.startTime)) + ":" + Pad2(MinuteOf(record.startTime)) + " - "
      + Pad2(HourOf(record.endTime)) + ":" + Pad2(MinuteOf(record.endTime))
  }

  /** The label is thirteen characters, and its four two-digit fields read
      back as the start's and end's hour and minute. */
  lemma RecordLabelReadsBack(record: StepsRecord)
    ensures var text := RecordLabel(record);
            && |text| == 13 && text[2] == ':' && text[5..8] == " - " && text[10] == ':'
            && AllDigits(text[..2]) && Value(text[..2]) == HourOf(record.startTime)
            && AllDigits(text[3..5]) && Value(text[3..5]) == MinuteOf(record.startTime)
            && AllDigits(text[8..10]) && Value(text[8..10]) == HourOf(record.endTime)
            && AllDigits(text[11..]) && Value(text[11..]) == MinuteOf(record.endTime)
  {
    var a, b := Pad2(HourOf(record.startTime)), Pad2(MinuteOf(record.startTime));
    var c, d := Pad2(HourOf(record.endTime)), Pad2(MinuteOf(record.endTime));
    RangeJoined(a, b, c, d);
    assert RecordLabel(record) == a + ":" + b + " - " + c + ":" + d;
  }

  /** Four two-character fields joined as "a:b - c:d" sit at fixed offsets. */
  lemma RangeJoined(a: string, b: string, c: string, d: string)
    requires |a| == 2 && |b| == 2 && |c| == 2 && |d| == 2
    ensures var text := a + ":" + b + " - " + c + ":" + d;
            && |text| == 13 && text[2] == ':' && text[5..8] == " - " && text[10] == ':'
            && text[..2] == a && text[3..5] == b && text[8..10] == c && text[11..] == d
  {
    var text := a + ":" + b + " - " + c + ":" + d;
    assert text[..2] == a;
    assert text[3..5] == b;
    assert text[8..10] == c;
    assert text[11..] == d;
  }

  /** For a non-empty list and a non-negative total, the headline is the
      prefix "Total steps: " followed by a digit string whose value is the
      total; a negative total, which the store does not report, would be
      shown with a minus sign. */
  lemma HeadlineReadsBack(itemList: seq<StepsRecord>, stepsOverall: int)
    requires itemList != []
    ensures var text := Headline(itemList, stepsOverall);
            && |text| > 13 && text[..13] == "Total steps: "
            && (stepsOverall >= 0 ==> AllDigits(text[13..]) && Value(text[13..]) == stepsOverall)
            && (stepsOverall < 0 ==> text[13] == '-' && AllDigits(text[14..]) && Value(text[14..]) == -stepsOverall)
  {
    var text := Headline(itemList, stepsOverall);
    var digits := IntToString(stepsOverall);
    assert text == "Total steps: " + digits;
    PrefixSplit("Total steps: ", digits);
    if stepsOverall >= 0 {
      DigitsReadBack(text[13..], stepsOverall);
    } else {
      assert text[14..] == digits[1..];
      DigitsReadBack(text[14..], -stepsOverall);
    }
  }

  /** A number's decimal text is all digits and reads back as the number. */
  lemma DigitsReadBack(t: string, n: nat)
    requires t == NatToString(n)
    ensures AllDigits(t) && Value(t) == n
  {
    ValueOfNatToString(n);
  }

  /** A concatenation splits back into its two parts. */
  lemma PrefixSplit(p: string, t: string)
    ensures (p + t)[..|p|] == p && (p + t)[|p|..] == t
  {
    assert (p + t)[..|p|] == p;
    assert (p + t)[|p|..] == t;
  }

  /** The headline above the list. */
  function Headline(itemList: seq<StepsRecord>, stepsOverall: int): (text: string)
    ensures text == "No records" <==> itemList == []
    ensures itemList != [] ==> text == "Total steps: " + IntToString(stepsOverall)
  {
    if itemList == [] then "No records" else "Total steps: " + IntToString(stepsOverall)
  }
}
