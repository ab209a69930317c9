/**
 * The price calendar on the property page: how each day cell is classified
 * (disabled, selected, inside the chosen stay, peak season, available),
 * whether clicking it selects the date, whether the peak star shows, when
 * the selected-dates bar appears, and the previous/next month buttons.
 *
 * A day is identified by its ISO date string "YYYY-MM-DD"; whether it is in
 * the past (before local midnight today) is an input, as the source computes
 * it from the clock and the time zone.
 */
module PriceCalendar {
  import opened Wrappers
  import opened Strings

  /** One entry of the room's calendar prices, keyed by ISO date. */
  datatype DayPrice = DayPrice(basePrice: int, isPeak: bool, available: bool)

  type CalendarPrices = map<string, DayPrice>

  /** The chosen stay; "" means not chosen yet. */
  datatype BookingDates = BookingDates(checkIn: string, checkOut: string)

  /** The cell's look, in the order the source tests for it. `Plain` is the
      initial white style, which the source keeps when no test fires. */
  datatype Style = Disabled | Selected | InRange | Peak | Available | Plain

  datatype Cell = Cell(style: Style, enabled: bool, star: bool)

  predicate IsAvailable(prices: CalendarPrices, day: string) {
    day in prices && prices[day].available
  }

  predicate IsPeakDay(prices: CalendarPrices, day: string) {
    day in prices && prices[day].isPeak
  }

  predicate IsSelected(day: string, dates: BookingDates) {
    dates.checkIn == day || dates.checkOut == day
  }

  /** Strictly between the chosen check-in and check-out, by string order. */
  predicate IsInRange(day: string, dates: BookingDates) {
    dates.checkIn != "" && dates.checkOut != "" && LexLess(dates.checkIn, day) && LexLess(day, dates.checkOut)
  }

  /** One day cell. */
  function ClassifyDay(day: string, isPast: bool, prices: CalendarPrices, dates: BookingDates): (c: Cell)
    // a day can be clicked exactly when it is neither past nor unavailable
    ensures c.enabled <==> !isPast && IsAvailable(prices, day)
    // the styles, highest priority first
    ensures c.style == Disabled <==> !c.enabled
    ensures c.style == Selected <==> c.enabled && IsSelected(day, dates)
    ensures c.style == InRange <==> c.enabled && !IsSelected(day, dates) && IsInRange(day, dates)
    ensures c.style == Peak <==>
      c.enabled && !IsSelected(day, dates) && !IsInRange(day, dates) && IsPeakDay(prices, day)
    ensures c.style == Available <==>
      c.enabled && !IsSelected(day, dates) && !IsInRange(day, dates) && !IsPeakDay(prices, day)
    // the initial white style is never left in place
    ensures c.style != Plain
    // the star marks an available peak day that is not an endpoint, past or not
    ensures c.star <==> IsPeakDay(prices, day) && IsAvailable(prices, day) && !IsSelected(day, dates)
  {
    var available := IsAvailable(prices, day);
    var peak := IsPeakDay(prices, day);
    var selected := IsSelected(day, dates);
    var style :=
      if isPast || !available then Disabled
      else if selected then Selected
      else if IsInRange(day, dates) then InRange
      else if peak then Peak
      else if available then Available
      else Plain;
    Cell(style, !isPast && available, peak && available && !selected)
  }

  /** `onClick`: the date is passed on only for an enabled cell. */
  function OnDayClick(day: string, isPast: bool, prices: CalendarPrices, dates: BookingDates): (r: Option<string>)
    ensures r.Some? <==> ClassifyDay(day, isPast, prices, dates).style != Disabled
    ensures r.Some? ==> r.value == day
  {
    if !isPast && IsAvailable(prices, day) then Some(day) else None
  }

  /** The check-in and check-out days themselves are never "in range". */
  lemma EndpointsNeverInRange(dates: BookingDates)
    ensures !IsInRange(dates.checkIn, dates)
    ensures !IsInRange(dates.checkOut, dates)
  {
    LexLessIrreflexive(dates.checkIn);
    LexLessIrreflexive(dates.checkOut);
  }

  /** A day in range implies the stay is ordered: check-in before check-out. */
  lemma InRangeMeansOrderedStay(day: string, dates: BookingDates)
    requires IsInRange(day, dates)
    ensures LexLess(dates.checkIn, dates.checkOut)
    ensures day != dates.checkIn && day != dates.checkOut
  {
    LexLessTransitive(dates.checkIn, day, dates.checkOut);
    EndpointsNeverInRange(dates);
  }

  /** A reversed stay (check-out before check-in) has no day in range. */
  lemma ReversedStayIsEmpty(day: string, dates: BookingDates)
    requires LexLess(dates.checkOut, dates.checkIn)
    ensures !IsInRange(day, dates)
  {
    if IsInRange(day, dates) {
      InRangeMeansOrderedStay(day, dates);
      LexLessAsymmetric(dates.checkIn, dates.checkOut);
    }
  }

  /** A calendar date with a four-digit year. */
  datatype Date = Date(year: nat, month: nat, day: nat) {
    predicate Valid() {
      year < 10000 && 1 <= month <= 12 && 1 <= day <= 31
    }
  }

  /** The "YYYY-MM-DD" key of a calendar date. The calendar derives its keys
      with `toISOString()`, which renders the UTC calendar date of the cell's
      local midnight; the model's `Date` is that UTC date. */
  function IsoDate(d: Date): (s: string)
    requires d.Valid()
    ensures |s| == 10
  {
    PadDigits(d.year, 4) + "-" + PadDigits(d.month, 2) + "-" + PadDigits(d.day, 2)
  }

  /** Chronological order on dates. */
  predicate Before(a: Date, b: Date) {
    a.year < b.year || (a.year == b.year && (a.month < b.month || (a.month == b.month && a.day < b.day)))
  }

  /** Appending the same separator keeps both the order and equality. */
  lemma AppendDash(x1: string, x2: string)
    requires |x1| == |x2|
    ensures LexLess(x1 + "-", x2 + "-") <==> LexLess(x1, x2)
    ensures x1 + "-" == x2 + "-" <==> x1 == x2
  {
    LexLessConcat(x1, "-", x2, "-");
    LexLessIrreflexive("-");
    ConcatEq(x1, "-", x2, "-");
  }

  /** Three equal-width fields joined by dashes compare field by field. */
  lemma DashJoinOrder(x1: string, y1: string, z1: string, x2: string, y2: string, z2: string)
    requires |x1| == |x2| && |y1| == |y2|
    ensures LexLess(x1 + "-" + y1 + "-" + z1, x2 + "-" + y2 + "-" + z2)
        <==> LexLess(x1, x2) || (x1 == x2 && (LexLess(y1, y2) || (y1 == y2 && LexLess(z1, z2))))
    ensures x1 + "-" + y1 + "-" + z1 == x2 + "-" + y2 + "-" + z2 <==> x1 == x2 && y1 == y2 && z1 == z2
  {
    AppendDash(x1, x2);
    LexLessConcat(x1 + "-", y1, x2 + "-", y2);
    ConcatEq(x1 + "-", y1, x2 + "-", y2);
    AppendDash(x1 + "-" + y1, x2 + "-" + y2);
    LexLessConcat(x1 + "-" + y1 + "-", z1, x2 + "-" + y2 + "-", z2);
    ConcatEq(x1 + "-" + y1 + "-", z1, x2 + "-" + y2 + "-", z2);
  }

  /** Comparing ISO date strings, as the calendar does, is comparing the dates. */
  lemma IsoDateOrder(a: Date, b: Date)
    requires a.Valid() && b.Valid()
    ensures LexLess(IsoDate(a), IsoDate(b)) <==> Before(a, b)
    ensures IsoDate(a) == IsoDate(b) <==> a == b
  {
    assert Pow10(4) == 10000 && Pow10(2) == 100;
    PadDigitsOrder(a.year, b.year, 4);
    PadDigitsOrder(a.month, b.month, 2);
    PadDigitsOrder(a.day, b.day, 2);
    DashJoinOrder(PadDigits(a.year, 4), PadDigits(a.month, 2), PadDigits(a.day, 2),
                  PadDigits(b.year, 4), PadDigits(b.month, 2), PadDigits(b.day, 2));
  }

  /** So a day is "in range" exactly when it falls strictly between the
      chosen check-in and check-out dates. */
  lemma InRangeIsBetweenDates(day: Date, checkIn: Date, checkOut: Date)
    requires day.Valid() && checkIn.Valid() && checkOut.Valid()
    ensures IsInRange(IsoDate(day), BookingDates(IsoDate(checkIn), IsoDate(checkOut)))
        <==> Before(checkIn, day) && Before(day, checkOut)
  {
    IsoDateOrder(checkIn, day);
    IsoDateOrder(day, checkOut);
  }

  /** With the grid drawn (a room chosen and the prices loaded), the bar
      with the chosen dates and "Book Now" shows once both are set. */
  predicate ShowsSelectedDatesBar(dates: BookingDates) {
    dates.checkIn != "" && dates.checkOut != ""
  }

  /** The range highlight never appears without the bar: a cell drawn in
      range means both dates are chosen, so the bar is on screen; and while
      the bar is hidden no cell, whatever its day, is drawn in range. */
  lemma RangeHighlightNeedsBar(day: string, isPast: bool, prices: CalendarPrices, dates: BookingDates)
    ensures ClassifyDay(day, isPast, prices, dates).style == InRange ==> ShowsSelectedDatesBar(dates)
    ensures !ShowsSelectedDatesBar(dates) ==>
      forall d, p :: ClassifyDay(d, p, prices, dates).style != InRange
  {
  }

  // ---- month navigation ----

  /** A calendar month: `month` is 0-based, as in `Date.getMonth()`. */
  datatype Month = Month(year: int, month: int) {
    predicate Valid() {
      0 <= month < 12
    }
    /** Months counted from January of year 0. */
    function Ordinal(): int {
      year * 12 + month
    }
  }

  /** `new Date(year, monthIndex)`: a month index outside 0..11 rolls over
      into neighbouring years, and a year argument in 0..99 means 1900..1999. */
  function NewDate(year: int, monthIndex: int): (m: Month)
    ensures m.Valid()
    ensures 0 <= year <= 99 ==> m.Ordinal() == (1900 + year) * 12 + monthIndex
    ensures !(0 <= year <= 99) ==> m.Ordinal() == year * 12 + monthIndex
  {
    var fullYear := if 0 <= year <= 99 then 1900 + year else year;
    Month(fullYear + monthIndex / 12, monthIndex % 12)
  }

  function PrevMonth(m: Month): Month {
    NewDate(m.year, m.month - 1)
  }

  function NextMonth(m: Month): Month {
    NewDate(m.year, m.month + 1)
  }

  /** After year 100 the buttons step exactly one month and undo each other.
      (From January of year 100 "previous" lands in year 99, which `Date`
      then reads as 1999 on the way back.) */
  lemma MonthStepsInverse(m: Month)
    requires m.Valid() && m.year > 100
    ensures NextMonth(m).Ordinal() == m.Ordinal() + 1
    ensures PrevMonth(m).Ordinal() == m.Ordinal() - 1
    ensures PrevMonth(NextMonth(m)) == m
    ensures NextMonth(PrevMonth(m)) == m
  {
  }

  /** Before year 100 the two-digit-year rule of `Date` shows through. */
  lemma TwoDigitYearJump()
    ensures NextMonth(Month(99, 11)) == Month(2000, 0)
    ensures NextMonth(Month(50, 3)) == Month(1950, 4)
    ensures NextMonth(PrevMonth(Month(100, 0))) == Month(2000, 0)
  {
  }
}
