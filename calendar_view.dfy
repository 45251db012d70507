/** The `CalendarView` component: the month grid of expiry days, the coupons of the
    selected day, the colour of a day by its most urgent coupon, and the month
    navigation and day selection state. */
module CalendarView {

  import opened Coupons
  import opened Seqs

  // ---------------------------------------------------------------------------
  // Gregorian calendar arithmetic (what `Date` computes for local dates)

  predicate IsLeapYear(year: int)
  {
    year % 4 == 0 && (year % 100 != 0 || year % 400 == 0)
  }

  /** `new Date(year, month + 1, 0).getDate()` for a month numbered 0 to 11. */
  function DaysInMonth(year: int, month: int): (n: int)
    requires 0 <= month < 12
    ensures 28 <= n <= 31
    ensures month == 1 ==> (n == 29 <==> IsLeapYear(year))
  {
    if month == 1 then (if IsLeapYear(year) then 29 else 28)
    else if month == 3 || month == 5 || month == 8 || month == 10 then 30
    else 31
  }

  /** Days from 1970-01-01 to the given date (month 0 to 11) of the proleptic Gregorian
      calendar. */
  function DaysFromCivil(year: int, month: int, day: int): int
    requires 0 <= month < 12
  {
    var m := month + 1;
    var y := if m <= 2 then year - 1 else year;
    var era := y / 400;
    var yoe := y - era * 400;
    var doy := (153 * (if m > 2 then m - 3 else m + 9) + 2) / 5 + day - 1;
    var doe := yoe * 365 + yoe / 4 - yoe / 100 + doy;
    era * 146097 + doe - 719468
  }

  /** `getDay()`: 0 for Sunday to 6 for Saturday; 1970-01-01 was a Thursday. */
  function Weekday(year: int, month: int, day: int): (w: int)
    requires 0 <= month < 12
    ensures 0 <= w < 7
  {
    (DaysFromCivil(year, month, day) + 4) % 7
  }

  /** 1970-01-01 was a Thursday, 2024-01-01 a Monday and 2000-02-29 a Tuesday. */
  lemma WeekdayExamples()
    ensures DaysFromCivil(1970, 0, 1) == 0 && Weekday(1970, 0, 1) == 4
    ensures DaysFromCivil(2024, 0, 1) == 19723 && Weekday(2024, 0, 1) == 1
    ensures DaysFromCivil(2000, 1, 29) == 11016 && Weekday(2000, 1, 29) == 2
  {
    assert DaysFromCivil(1970, 0, 1) == 0;
    assert DaysFromCivil(2024, 0, 1) == 19723;
    assert DaysFromCivil(2000, 1, 29) == 11016;
  }

  /** Consecutive days of a month fall on consecutive weekdays. */
  lemma WeekdayNext(year: int, month: int, day: int)
    requires 0 <= month < 12
    ensures Weekday(year, month, day + 1) == (Weekday(year, month, day) + 1) % 7
  {
  }

  // ---------------------------------------------------------------------------
  // The grid

  /** One square of the grid (`DayCoupons`). */
  datatype Cell = Cell(date: CivilDate, coupons: seq<Coupon>, isCurrentMonth: bool)

  /** The coupons whose expiry instant falls on local calendar day `date`, in list order:
      the filter of `calendarDays` and of `selectedDayCoupons`. */
  function DayCoupons(cs: seq<Coupon>, cal: LocalCalendar, date: CivilDate): (r: seq<Coupon>)
    ensures forall c :: c in r <==> c in cs && cal(c.expiresAt) == date
    ensures forall c: Coupon :: cal(c.expiresAt) == date ==> multiset(r)[c] == multiset(cs)[c]
    ensures SubsequenceOf(r, cs)
  {
    FilterSpec((c: Coupon) => cal(c.expiresAt) == date, cs);
    Filter((c: Coupon) => cal(c.expiresAt) == date, cs)
  }

  /** `calendarDays` for the month `month` (0 to 11, as `getMonth()` gives it) of `year`:
      first the days of the previous month that complete the first week (Sunday first),
      then one cell per day of the month holding that day's coupons, then days of the
      next month up to the end of the last week. */
  method CalendarDays(year: int, month: int, cs: seq<Coupon>, cal: LocalCalendar) returns (days: seq<Cell>)
    requires 0 <= month < 12
    ensures |days| % 7 == 0 && 28 <= |days| <= 42
    ensures var lead, n := Weekday(year, month, 1), DaysInMonth(year, month);
      lead + n <= |days| < lead + n + 7
    ensures var lead, prev := Weekday(year, month, 1), NormalizeMonth(year, month - 1);
      forall k :: 0 <= k < lead ==>
        days[k] == Cell(CivilDate(prev.0, prev.1, DaysInMonth(prev.0, prev.1) - (lead - 1 - k)), [], false)
    ensures var lead, n := Weekday(year, month, 1), DaysInMonth(year, month);
      forall k :: lead <= k < lead + n ==>
        days[k] == Cell(CivilDate(year, month, k - lead + 1), DayCoupons(cs, cal, CivilDate(year, month, k - lead + 1)), true)
    ensures var lead, n, next := Weekday(year, month, 1), DaysInMonth(year, month), NormalizeMonth(year, month + 1);
      forall k :: lead + n <= k < |days| ==>
        days[k] == Cell(CivilDate(next.0, next.1, k - (lead + n) + 1), [], false)
  {
    var firstDayOfWeek := Weekday(year, month, 1);
    var prev := NormalizeMonth(year, month - 1);
    var prevMonthLastDay := DaysInMonth(prev.0, prev.1);
    var lastDay := DaysInMonth(year, month);
    days := [];

    var i := firstDayOfWeek - 1;
    while i >= 0
      invariant -1 <= i < firstDayOfWeek
      invariant |days| == firstDayOfWeek - 1 - i
      invariant forall k :: 0 <= k < |days| ==>
        days[k] == Cell(CivilDate(prev.0, prev.1, prevMonthLastDay - (firstDayOfWeek - 1 - k)), [], false)
    {
      days := days + [Cell(CivilDate(prev.0, prev.1, prevMonthLastDay - i), [], false)];
      i := i - 1;
    }

    var day := 1;
    while day <= lastDay
      invariant 1 <= day <= lastDay + 1
      invariant |days| == firstDayOfWeek + day - 1
      invariant forall k :: 0 <= k < firstDayOfWeek ==>
        days[k] == Cell(CivilDate(prev.0, prev.1, prevMonthLastDay - (firstDayOfWeek - 1 - k)), [], false)
      invariant forall k :: firstDayOfWeek <= k < |days| ==>
        days[k] == Cell(CivilDate(year, month, k - firstDayOfWeek + 1),
                        DayCoupons(cs, cal, CivilDate(year, month, k - firstDayOfWeek + 1)), true)
    {
      var date := CivilDate(year, month, day);
      days := days + [Cell(date, DayCoupons(cs, cal, date), true)];
      day := day + 1;
    }

    var filled := |days|;
    var next := NormalizeMonth(year, month + 1);
    var remainingDays := 7 - |days| % 7;
    if remainingDays < 7 {
      i := 1;
      while i <= remainingDays
        invariant 1 <= i <= remainingDays + 1
        invariant |days| == filled + i - 1
        invariant forall k :: 0 <= k < firstDayOfWeek ==>
          days[k] == Cell(CivilDate(prev.0, prev.1, prevMonthLastDay - (firstDayOfWeek - 1 - k)), [], false)
        invariant forall k :: firstDayOfWeek <= k < filled ==>
          days[k] == Cell(CivilDate(year, month, k - firstDayOfWeek + 1),
                          DayCoupons(cs, cal, CivilDate(year, month, k - firstDayOfWeek + 1)), true)
        invariant forall k :: filled <= k < |days| ==>
          days[k] == Cell(CivilDate(next.0, next.1, k - filled + 1), [], false)
      {
        days := days + [Cell(CivilDate(next.0, next.1, i), [], false)];
        i := i + 1;
      }
    }
  }

  /** Every padding cell names a real day of its month: the last days of the previous
      month before the first, the first days of the next month after the last. */
  lemma PaddingDatesExist(year: int, month: int, k: int)
    requires 0 <= month < 12 && 0 <= k < Weekday(year, month, 1)
    ensures var lead, prev := Weekday(year, month, 1), NormalizeMonth(year, month - 1);
      1 <= DaysInMonth(prev.0, prev.1) - (lead - 1 - k) <= DaysInMonth(prev.0, prev.1)
  {
  }

  // ---------------------------------------------------------------------------
  // Day colour

  /** The colour a day square gets from its coupons. */
  datatype DayColor = Red | Orange | Blue

  /** A coupon expiring within `limit` whole days from now, rounding up, today included. */
  predicate DueWithin(c: Coupon, now: int, limit: int)
  {
    0 <= DaysUntilExpiry(c.expiresAt, now) <= limit
  }

  /** `getDayColor`: nothing for an empty day; red when some coupon is due within 3 days,
      otherwise orange when some is due within 7, otherwise blue. */
  method GetDayColor(cs: seq<Coupon>, now: int) returns (color: Option<DayColor>)
    ensures color.None? <==> cs == []
    ensures color == Some(Red) <==> exists c :: c in cs && DueWithin(c, now, 3)
    ensures color == Some(Orange) <==>
              (forall c :: c in cs ==> !DueWithin(c, now, 3)) && exists c :: c in cs && DueWithin(c, now, 7)
    ensures color == Some(Blue) <==> cs != [] && forall c :: c in cs ==> !DueWithin(c, now, 7)
  {
    if |cs| == 0 {
      return None;
    }
    var hasVeryUrgent := false;
    var hasUrgent := false;
    var i := 0;
    while i < |cs|
      invariant 0 <= i <= |cs|
      invariant !hasVeryUrgent
      invariant forall k :: 0 <= k < i ==> !DueWithin(cs[k], now, 3)
      invariant hasUrgent <==> exists k :: 0 <= k < i && DueWithin(cs[k], now, 7)
    {
      var daysUntilExpiry := DaysUntilExpiry(cs[i].expiresAt, now);
      if daysUntilExpiry <= 3 && daysUntilExpiry >= 0 {
        hasVeryUrgent := true;
        assert cs[i] in cs && DueWithin(cs[i], now, 3);
        break;
      } else if daysUntilExpiry <= 7 && daysUntilExpiry >= 0 {
        hasUrgent := true;
      }
      i := i + 1;
    }
    if hasVeryUrgent {
      return Some(Red);
    }
    assert forall c :: c in cs ==> !DueWithin(c, now, 3) by {
      forall c | c in cs ensures !DueWithin(c, now, 3) {
        var k :| 0 <= k < |cs| && cs[k] == c;
      }
    }
    if hasUrgent {
      var k :| 0 <= k < |cs| && DueWithin(cs[k], now, 7);
      assert cs[k] in cs;
      return Some(Orange);
    }
    assert forall c :: c in cs ==> !DueWithin(c, now, 7) by {
      forall c | c in cs ensures !DueWithin(c, now, 7) {
        var k :| 0 <= k < |cs| && cs[k] == c;
      }
    }
    return Some(Blue);
  }

  /** Unlike the card's badge, a day turns red for a coupon that expired less than a day
      ago: its remaining days round up to 0. */
  lemma RedForJustExpired(c: Coupon, now: int)
    requires now - MsPerDay < c.expiresAt <= now
    ensures DueWithin(c, now, 3)
  {
  }

  // ---------------------------------------------------------------------------
  // Navigation and selection state

  /** The component's state: the month shown (through a date in it) and the selected day. */
  class CalendarState {
    var currentDate: CivilDate
    var selectedDate: Option<CivilDate>

    /** `currentDate` holds a month as `getMonth()` reports it. */
    ghost predicate Valid()
      reads this
    {
      0 <= currentDate.month < 12
    }

    /** The first render: today's date and no selection. */
    constructor (today: CivilDate)
      requires 0 <= today.month < 12
      ensures Valid()
      ensures currentDate == today && selectedDate == None
    {
      currentDate := today;
      selectedDate := None;
    }

    /** `goToPreviousMonth`: the first day of the month before, the selection kept. */
    method GoToPreviousMonth()
      requires Valid()
      modifies this
      ensures Valid()
      ensures MonthIndex(currentDate.year, currentDate.month) ==
                MonthIndex(old(currentDate.year), old(currentDate.month)) - 1
      ensures currentDate.day == 1
      ensures selectedDate == old(selectedDate)
    {
      var d := NormalizeMonth(currentDate.year, currentDate.month - 1);
      currentDate := CivilDate(d.0, d.1, 1);
    }

    /** `goToNextMonth`: the first day of the month after, the selection kept. */
    method GoToNextMonth()
      requires Valid()
      modifies this
      ensures Valid()
      ensures MonthIndex(currentDate.year, currentDate.month) ==
                MonthIndex(old(currentDate.year), old(currentDate.month)) + 1
      ensures currentDate.day == 1
      ensures selectedDate == old(selectedDate)
    {
      var d := NormalizeMonth(currentDate.year, currentDate.month + 1);
      currentDate := CivilDate(d.0, d.1, 1);
    }

    /** `goToToday`. */
    method GoToToday(today: CivilDate)
      requires 0 <= today.month < 12
      modifies this
      ensures Valid()
      ensures currentDate == today && selectedDate == old(selectedDate)
    {
      currentDate := today;
    }

    /** `handleDayClick`: a day becomes the selected one only when it has coupons. */
    method HandleDayClick(cell: Cell)
      modifies this
      ensures currentDate == old(currentDate)
      ensures selectedDate == if |cell.coupons| > 0 then Some(cell.date) else old(selectedDate)
    {
      if |cell.coupons| > 0 {
        selectedDate := Some(cell.date);
      }
    }

    /** The close button of the selected day's list. */
    method ClearSelection()
      modifies this
      ensures currentDate == old(currentDate) && selectedDate == None
    {
      selectedDate := None;
    }

    /** `selectedDayCoupons`: no coupons without a selection, otherwise those expiring on
        the selected day. */
    function SelectedDayCoupons(cs: seq<Coupon>, cal: LocalCalendar): (r: seq<Coupon>)
      reads this
      ensures selectedDate.None? ==> r == []
      ensures selectedDate.Some? ==> r == DayCoupons(cs, cal, selectedDate.value)
      ensures selectedDate.Some? ==>
                forall c :: c in r <==> c in cs && cal(c.expiresAt) == selectedDate.value
    {
      if selectedDate.None? then [] else DayCoupons(cs, cal, selectedDate.value)
    }
  }

  /** Going back a month from January lands on December of the year before, and going
      forward from December on January of the next year. */
  lemma MonthNavigationWrapsYear(year: int)
    ensures NormalizeMonth(year, 0 - 1) == (year - 1, 11)
    ensures NormalizeMonth(year, 11 + 1) == (year + 1, 0)
  {
  }
}
