/** Days and instants. An instant is a count of local wall-clock milliseconds
    (the device's zone offset already applied); a day is a count of days since
    1970-01-01. A java.util.Calendar is the object below: a date plus hour,
    minute, second and millisecond fields that the screens set in place. */
module Clock {

  /** The day an instant falls on (truncation to midnight). */
  function DayOf(t: int): int {
    t / 86400000
  }

  /** The instant of a day's midnight. */
  function DayStart(day: int): int {
    day * 86400000
  }

  /** The half-open range [DayStart(day), DayStart(day + 1)) holds exactly the
      instants of that day. */
  lemma InDayRange(t: int, day: int)
    ensures DayStart(day) <= t < DayStart(day + 1) <==> DayOf(t) == day
  {
    var q, r := t / 86400000, t % 86400000;
    assert t == q * 86400000 + r && 0 <= r < 86400000;
    if q < day {
      assert DayStart(q + 1) <= DayStart(day);
    } else if q > day {
      assert DayStart(day + 1) <= DayStart(q);
    }
  }

  /** Leap years of the proleptic Gregorian calendar. */
  predicate IsLeap(year: int) {
    year % 4 == 0 && (year % 100 != 0 || year % 400 == 0)
  }

  /** The length of a month, counted from 1. */
  function DaysInMonth(year: int, month: int): int {
    if month == 2 then (if IsLeap(year) then 29 else 28)
    else if month == 4 || month == 6 || month == 9 || month == 11 then 30
    else 31
  }

  /** The calendar date after a valid date: the next day of the month, the
      first of the next month, or New Year's Day. */
  function NextDate(year: int, month: int, dayOfMonth: int): (int, int, int) {
    if dayOfMonth < DaysInMonth(year, month) then (year, month, dayOfMonth + 1)
    else if month < 12 then (year, month + 1, 1)
    else (year + 1, 1, 1)
  }

  /** Days from the start of a 400-year era to March 1st of its year `yoe`. */
  function YearOfEraStart(yoe: int): int {
    yoe * 365 + yoe / 4 - yoe / 100
  }

  /** Days from the era origin to March 1st of the computational year `y`
      (a year that runs from March to February). */
  function MarchFirst(y: int): int {
    var era := y / 400;
    era * 146097 + YearOfEraStart(y - era * 400)
  }

  /** Days from March 1st to the first of a month, counted from 1. */
  function MonthOffset(month: int): int {
    var mp := if month > 2 then month - 3 else month + 9;
    (153 * mp + 2) / 5
  }

  /** The day number of a proleptic Gregorian date, month counted from 1
      (the days-from-civil computation). */
  function DaysFromCivil(year: int, month: int, dayOfMonth: int): int {
    var y := if month <= 2 then year - 1 else year;
    MarchFirst(y) + MonthOffset(month) + dayOfMonth - 1 - 719468
  }

  /** Within an era, year `c` starts 366 days after year `c - 1` exactly when
      `c` is divisible by 4 but not by 100. */
  lemma YearOfEraStep(c: int)
    requires 1 <= c < 400
    ensures YearOfEraStart(c) - YearOfEraStart(c - 1) == if c % 4 == 0 && c % 100 != 0 then 366 else 365
  {
    DivStep(c - 1, 4);
    DivStep(c - 1, 100);
    if c % 100 == 0 {
      DivModParts(c, 100);
      ModOfShift(c / 100 * 25, 0, 4);
    }
  }

  /** A computational year is 366 days long exactly when the February that
      ends it belongs to a leap year. */
  lemma MarchFirstStep(y: int)
    ensures MarchFirst(y + 1) - MarchFirst(y) == if IsLeap(y + 1) then 366 else 365
  {
    var era := y / 400;
    var yoe := y - era * 400;
    DivModParts(y, 400);
    if yoe < 399 {
      var c := yoe + 1;
      DivOfShift(era, c, 400);
      assert MarchFirst(y + 1) == era * 146097 + YearOfEraStart(c);
      YearOfEraStep(c);
      LeapInEra(era, c);
    } else {
      DivOfShift(era + 1, 0, 400);
      assert MarchFirst(y + 1) == (era + 1) * 146097;
      LeapInEra(era + 1, 0);
    }
  }

  /** Whether a year is leap depends only on its place in its era. */
  lemma LeapInEra(era: int, c: int)
    requires 0 <= c < 400
    ensures IsLeap(era * 400 + c) <==> c == 0 || (c % 4 == 0 && c % 100 != 0)
  {
    ModOfShift(era * 100, c, 4);
    ModOfShift(era * 4, c, 100);
    ModOfShift(era, c, 400);
    DivModParts(c, 400);
  }

  /** Adding one to a number raises its quotient by k exactly when the sum is
      a multiple of k. */
  lemma DivStep(a: int, k: int)
    requires k > 0
    ensures (a + 1) / k - a / k == if (a + 1) % k == 0 then 1 else 0
  {
    DivModParts(a, k);
    if a % k == k - 1 {
      QuotientUnique(a + 1, a / k + 1, 0, k);
    } else {
      QuotientUnique(a + 1, a / k, a % k + 1, k);
    }
  }

  lemma DivOfShift(q: int, c: int, k: int)
    requires 0 <= c < k
    ensures (q * k + c) / k == q
  {
    QuotientUnique(q * k + c, q, c, k);
  }

  lemma ModOfShift(q: int, c: int, k: int)
    requires k > 0
    ensures (q * k + c) % k == c % k
  {
    DivModParts(c, k);
    assert q * k + c == (q + c / k) * k + c % k;
    QuotientUnique(q * k + c, q + c / k, c % k, k);
  }

  /** Quotient and remainder are the only ones: a == q * k + r with
      0 <= r < k fixes both. */
  lemma QuotientUnique(a: int, q: int, r: int, k: int)
    requires k > 0 && a == q * k + r && 0 <= r < k
    ensures a / k == q && a % k == r
  {
    DivModParts(a, k);
    var d := q - a / k;
    assert d * k == a % k - r;
  }

  /** The epoch falls on day 0 and 2024-03-10 on day 19792. */
  lemma DaysFromCivilAnchors()
    ensures DaysFromCivil(1970, 1, 1) == 0
    ensures DaysFromCivil(2024, 3, 10) == 19792
  {
  }

  /** February is as long as the Gregorian leap rule says: 28 days in 1900
      and 2023, 29 in 2000 and 2024. */
  lemma FebruaryAnchors()
    ensures DaysFromCivil(1900, 3, 1) - DaysFromCivil(1900, 2, 1) == 28
    ensures DaysFromCivil(2000, 3, 1) - DaysFromCivil(2000, 2, 1) == 29
    ensures DaysFromCivil(2023, 3, 1) - DaysFromCivil(2023, 2, 1) == 28
    ensures DaysFromCivil(2024, 3, 1) - DaysFromCivil(2024, 2, 1) == 29
  {
    FebruaryEnd(1900);
    FebruaryEnd(2000);
    FebruaryEnd(2023);
    FebruaryEnd(2024);
  }

  /** Consecutive calendar dates are consecutive day numbers, across month
      ends, year ends and the end of February in leap and common years. With
      the epoch anchor this fixes the day number of every valid date. */
  lemma NextDateIsNextDay(year: int, month: int, dayOfMonth: int)
    requires 1 <= month <= 12 && 1 <= dayOfMonth <= DaysInMonth(year, month)
    ensures var (y, m, d) := NextDate(year, month, dayOfMonth);
            DaysFromCivil(y, m, d) == DaysFromCivil(year, month, dayOfMonth) + 1
  {
    if dayOfMonth < DaysInMonth(year, month) {
    } else if month == 2 {
      FebruaryEnd(year);
    } else if month < 12 {
      MonthEnd(year, month);
    } else {
      assert DaysFromCivil(year + 1, 1, 1) == MarchFirst(year) + 306 - 719468;
    }
  }

  /** The last day of a month other than February and December is followed
      by the first of the next month. */
  lemma MonthEnd(year: int, month: int)
    requires 1 <= month < 12 && month != 2
    ensures DaysFromCivil(year, month + 1, 1) == DaysFromCivil(year, month, DaysInMonth(year, month)) + 1
  {
    assert DaysFromCivil(year, month + 1, 1) - DaysFromCivil(year, month, DaysInMonth(year, month))
           == MonthOffset(month + 1) - MonthOffset(month) - DaysInMonth(year, month) + 1;
    if month == 1 {
    } else if month == 3 {
    } else if month == 4 {
    } else if month == 5 {
    } else if month == 6 {
    } else if month == 7 {
    } else if month == 8 {
    } else if month == 9 {
    } else if month == 10 {
    } else {
    }
  }

  /** The last day of February, 29 in a leap year and 28 otherwise, is
      followed by March 1st. */
  lemma FebruaryEnd(year: int)
    ensures DaysFromCivil(year, 3, 1) == DaysFromCivil(year, 2, DaysInMonth(year, 2)) + 1
  {
    MarchFirstStep(year - 1);
    assert DaysFromCivil(year, 3, 1) == MarchFirst(year) - 719468;
    assert DaysFromCivil(year, 2, DaysInMonth(year, 2)) == MarchFirst(year - 1) + 337 + DaysInMonth(year, 2) - 1 - 719468;
  }

  /** The value of a calendar: its date and its time-of-day fields. */
  datatype CalendarValue = CalendarValue(day: int, hour: int, minute: int, second: int, milli: int)
  {
    predicate Valid() {
      0 <= hour < 24 && 0 <= minute < 60 && 0 <= second < 60 && 0 <= milli < 1000
    }

    function MillisOfDay(): int {
      hour * 3600000 + minute * 60000 + second * 1000 + milli
    }

    /** Calendar.getTime(): the instant the fields denote. */
    function Instant(): int {
      day * 86400000 + MillisOfDay()
    }
  }

  /** A valid calendar's instant lies on its own day. */
  lemma InstantOnItsDay(c: CalendarValue)
    requires c.Valid()
    ensures DayOf(c.Instant()) == c.day
  {
    InDayRange(c.Instant(), c.day);
  }

  /** Two valid calendars on the same date compare as their times of day do. */
  lemma SameDayOrder(a: CalendarValue, b: CalendarValue)
    requires a.Valid() && b.Valid() && a.day == b.day
    ensures a.Instant() < b.Instant() <==> a.MillisOfDay() < b.MillisOfDay()
    ensures a.Instant() == b.Instant() <==> a.MillisOfDay() == b.MillisOfDay()
  {
  }

  /** The fields Calendar.getInstance() holds at clock reading t. */
  function AtInstant(t: int): (c: CalendarValue)
    ensures c.Valid() && c.Instant() == t && c.day == DayOf(t)
  {
    var r := t % 86400000;
    var inHour := r % 3600000;
    var inMinute := inHour % 60000;
    DivModParts(t, 86400000);
    DivModParts(r, 3600000);
    DivModParts(inHour, 60000);
    DivModParts(inMinute, 1000);
    CalendarValue(t / 86400000, r / 3600000, inHour / 60000, inMinute / 1000, inMinute % 1000)
  }

  lemma DivModParts(a: int, k: int)
    requires k > 0
    ensures a == a / k * k + a % k && 0 <= a % k < k
  {
  }

  /** A java.util.Calendar whose fields the screens set one at a time. */
  class Calendar {
    var day: int
    var hour: int
    var minute: int
    var second: int
    var milli: int

    function Value(): CalendarValue
      reads this
    {
      CalendarValue(day, hour, minute, second, milli)
    }

    ghost predicate Valid()
      reads this
    {
      Value().Valid()
    }

    /** Calendar.getInstance() at clock reading `clock`. */
    constructor Now(clock: int)
      ensures Valid() && Value() == AtInstant(clock)
      ensures Value().Instant() == clock
    {
      var c := AtInstant(clock);
      day, hour, minute, second, milli := c.day, c.hour, c.minute, c.second, c.milli;
    }

    /** set(year, month, dayOfMonth): the date changes, the time of day does not. */
    method SetDate(newDay: int)
      modifies this
      ensures Value() == old(Value()).(day := newDay)
    {
      day := newDay;
    }

    /** set(Calendar.HOUR_OF_DAY, h). */
    method SetHourOfDay(h: int)
      requires 0 <= h < 24
      modifies this
      ensures Value() == old(Value()).(hour := h)
    {
      hour := h;
    }

    /** set(Calendar.MINUTE, m). */
    method SetMinute(m: int)
      requires 0 <= m < 60
      modifies this
      ensures Value() == old(Value()).(minute := m)
    {
      minute := m;
    }

    /** set(Calendar.SECOND, s). */
    method SetSecond(s: int)
      requires 0 <= s < 60
      modifies this
      ensures Value() == old(Value()).(second := s)
    {
      second := s;
    }
  }
}
