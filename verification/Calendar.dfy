/** Calendar-month arithmetic of chat/plans.py: `add_months` and `get_monthly_window`. */
module Calendar {
  import opened Prelude

  /** A timestamp in one time zone: date and microseconds since midnight. */
  datatype DateTime = DateTime(year: int, month: int, day: int, tod: int)

  const MICROSECONDS_PER_DAY := 86_400_000_000

  predicate IsLeap(year: int) {
    year % 4 == 0 && (year % 100 != 0 || year % 400 == 0)
  }

  /** `calendar.monthrange(year, month)[1]`. */
  function DaysIn(year: int, month: int): (n: int)
    requires 1 <= month <= 12
    ensures 28 <= n <= 31
  {
    if month == 2 then (if IsLeap(year) then 29 else 28)
    else if month == 4 || month == 6 || month == 9 || month == 11 then 30
    else 31
  }

  predicate Valid(t: DateTime) {
    1 <= t.month <= 12 && 1 <= t.day <= DaysIn(t.year, t.month) && 0 <= t.tod < MICROSECONDS_PER_DAY
  }

  /** Months since year 0. */
  function MonthIndex(t: DateTime): int {
    t.year * 12 + t.month - 1
  }

  predicate Before(a: DateTime, b: DateTime) {
    MonthIndex(a) < MonthIndex(b)
    || (MonthIndex(a) == MonthIndex(b) && (a.day < b.day || (a.day == b.day && a.tod < b.tod)))
  }

  predicate AtMost(a: DateTime, b: DateTime) {
    !Before(b, a)
  }

  /** Of two different times one is before the other. */
  lemma OrderIsTotal(a: DateTime, b: DateTime)
    requires Valid(a) && Valid(b)
    ensures AtMost(a, b) <==> a == b || Before(a, b)
  {
    assert a.year == MonthIndex(a) / 12 && b.year == MonthIndex(b) / 12;
  }

  /** Every fourth year is a leap year, except that a century is one only every fourth time. */
  lemma LeapYears(year: int, century: int)
    ensures year % 100 != 0 ==> (IsLeap(year) <==> year % 4 == 0)
    ensures IsLeap(100 * century) <==> century % 4 == 0
  {
  }

  /** Months alternate between 31 and 30 days, starting again with August; February takes what is left of the year. */
  lemma MonthLengths(year: int, month: int)
    requires 1 <= month <= 12
    ensures month != 2 ==> DaysIn(year, month) == 30 + (month + month / 8) % 2
    ensures DaysIn(year, 2) == (if IsLeap(year) then 366 else 365) - 337
  {
  }

  function AddMonths(t: DateTime, months: int): (r: DateTime)
    requires Valid(t)
    ensures Valid(r)
    ensures MonthIndex(r) == MonthIndex(t) + months
    ensures r.day == Min(t.day, DaysIn(r.year, r.month)) && r.tod == t.tod
  {
    var year := t.year + (t.month - 1 + months) / 12;
    var month := (t.month - 1 + months) % 12 + 1;
    var maxDay := DaysIn(year, month);
    DateTime(year, month, Min(t.day, maxDay), t.tod)
  }

  /** A later month is a later time, whatever the clamping does to the day. */
  lemma AddMonthsMonotone(t: DateTime, i: int, j: int)
    requires Valid(t)
    ensures i < j ==> Before(AddMonths(t, i), AddMonths(t, j))
    ensures AddMonths(t, 0) == t
  {
  }

  // ---------------------------------------------------------------- the monthly window

  datatype Window = Window(start: DateTime, end: DateTime)

  /** `months_elapsed` before any back-up: the difference of the month numbers. */
  function Elapsed(anchor: DateTime, now: DateTime): (n: int)
    ensures n == MonthIndex(now) - MonthIndex(anchor)
  {
    (now.year - anchor.year) * 12 + (now.month - anchor.month)
  }

  function GetMonthlyWindow(anchor: DateTime, now: DateTime): Window
    requires Valid(anchor) && Valid(now)
  {
    if Before(now, anchor) then Window(anchor, anchor)
    else
      var elapsed := Elapsed(anchor, now);
      var start := AddMonths(anchor, elapsed);
      var cycleStart := if Before(now, start) then AddMonths(anchor, elapsed - 1) else start;
      Window(cycleStart, AddMonths(cycleStart, 1))
  }

  /** `now` belongs to month k of the subscription: between two successive boundaries. */
  predicate InMonth(anchor: DateTime, k: int, now: DateTime)
    requires Valid(anchor)
  {
    AtMost(AddMonths(anchor, k), now) && Before(now, AddMonths(anchor, k + 1))
  }

  /** The number of whole months since the anchor. */
  function MonthOf(anchor: DateTime, now: DateTime): int
    requires Valid(anchor) && Valid(now)
  {
    var elapsed := Elapsed(anchor, now);
    if Before(now, AddMonths(anchor, elapsed)) then elapsed - 1 else elapsed
  }

  lemma MonthFound(anchor: DateTime, now: DateTime)
    requires Valid(anchor) && Valid(now) && AtMost(anchor, now)
    ensures MonthOf(anchor, now) >= 0 && InMonth(anchor, MonthOf(anchor, now), now)
  {
    AddMonthsMonotone(anchor, 0, 1);
  }

  /** Every instant from the anchor on lies in exactly one month, and that month is never negative. */
  lemma MonthExists(anchor: DateTime, now: DateTime)
    requires Valid(anchor) && Valid(now) && AtMost(anchor, now)
    ensures MonthOf(anchor, now) >= 0 && InMonth(anchor, MonthOf(anchor, now), now)
    ensures forall k: int :: InMonth(anchor, k, now) ==> k == MonthOf(anchor, now)
  {
    var k0 := MonthOf(anchor, now);
    MonthFound(anchor, now);
    forall k: int | InMonth(anchor, k, now)
      ensures k == k0
    {
      MonthUnique(anchor, k, k0, now);
    }
  }

  lemma MonthUnique(anchor: DateTime, i: int, j: int, now: DateTime)
    requires Valid(anchor) && Valid(now)
    requires InMonth(anchor, i, now) && InMonth(anchor, j, now)
    ensures i == j
  {
  }

  function Cycle(anchor: DateTime, k: int): Window
    requires Valid(anchor)
  {
    Window(AddMonths(anchor, k), AddMonths(AddMonths(anchor, k), 1))
  }

  /** The single back-up step is enough: the window computed is the cycle of the month `now` is in. */
  lemma WindowIsCycle(anchor: DateTime, now: DateTime)
    requires Valid(anchor) && Valid(now) && AtMost(anchor, now)
    ensures GetMonthlyWindow(anchor, now) == Cycle(anchor, MonthOf(anchor, now))
    ensures InMonth(anchor, MonthOf(anchor, now), now)
  {
    MonthFound(anchor, now);
  }

  /** Where the window ends: in the month of the next boundary, never after it, at most three days
      before it, and exactly on it precisely when the month it starts in is long enough. */
  lemma WindowEnd(anchor: DateTime, k: int)
    requires Valid(anchor)
    ensures var end := Cycle(anchor, k).end;
      var next := AddMonths(anchor, k + 1);
      var start := AddMonths(anchor, k);
      MonthIndex(end) == MonthIndex(next) && end.tod == next.tod
      && 0 <= next.day - end.day <= 3
      && AtMost(end, next)
      && (end == next <==> DaysIn(start.year, start.month) >= Min(anchor.day, DaysIn(next.year, next.month)))
      && (anchor.day <= 28 ==> end == next)
  {
    var start := AddMonths(anchor, k);
    var end := AddMonths(start, 1);
    var next := AddMonths(anchor, k + 1);
    SameMonth(end, next);
  }

  lemma SameMonth(a: DateTime, b: DateTime)
    requires Valid(a) && Valid(b) && MonthIndex(a) == MonthIndex(b)
    ensures a.year == b.year && a.month == b.month
  {
    assert a.year == MonthIndex(a) / 12 && b.year == MonthIndex(b) / 12;
  }

  /** The length of the month before the one `t` is in. */
  function DaysInMonthBefore(t: DateTime): int
    requires Valid(t)
  {
    if t.month == 1 then 31 else DaysIn(t.year, t.month - 1)
  }

  /** The time of month of `t` is at or past the given day at the anchor's time of day. */
  predicate Reaches(t: DateTime, day: int, anchor: DateTime) {
    t.day > day || (t.day == day && t.tod >= anchor.tod)
  }

  /** Last month was shorter than the anchor day, and `now` is past the same date in this month but not
      yet at the anchor day, or the end of the month if that is earlier. */
  predicate InGap(anchor: DateTime, now: DateTime)
    requires Valid(now)
  {
    DaysInMonthBefore(now) < anchor.day
    && Reaches(now, DaysInMonthBefore(now), anchor)
    && !Reaches(now, Min(anchor.day, DaysIn(now.year, now.month)), anchor)
  }

  /** The window contains `now` exactly when `now` is not in the few days a short month leaves over.
      For anchors up to the 28th that is always. */
  lemma WindowContainsNow(anchor: DateTime, now: DateTime)
    requires Valid(anchor) && Valid(now) && AtMost(anchor, now)
    ensures var w := GetMonthlyWindow(anchor, now);
      AtMost(w.start, now)
      && (Before(now, w.end) <==> !InGap(anchor, now))
      && (anchor.day <= 28 ==> Before(now, w.end))
  {
    WindowIsCycle(anchor, now);
    var elapsed := Elapsed(anchor, now);
    var boundary := AddMonths(anchor, elapsed);
    SameMonth(boundary, now);
    if Before(now, boundary) {
      var start := AddMonths(anchor, elapsed - 1);
      MonthBefore(now, start);
      SameMonth(AddMonths(start, 1), now);
    }
  }

  lemma MonthBefore(now: DateTime, start: DateTime)
    requires Valid(now) && Valid(start) && MonthIndex(start) == MonthIndex(now) - 1
    ensures DaysIn(start.year, start.month) == DaysInMonthBefore(now)
  {
    assert start.year == MonthIndex(start) / 12 && now.year == MonthIndex(now) / 12;
  }

  /** The gap is real: a plan anchored on 31 January puts 29 March in no window at all. */
  lemma GapExample()
    ensures var anchor := DateTime(2025, 1, 31, 0);
      var now := DateTime(2025, 3, 29, 0);
      Valid(anchor) && Valid(now)
      && GetMonthlyWindow(anchor, now) == Window(DateTime(2025, 2, 28, 0), DateTime(2025, 3, 28, 0))
      && !Before(now, GetMonthlyWindow(anchor, now).end)
  {
    var anchor := DateTime(2025, 1, 31, 0);
    var now := DateTime(2025, 3, 29, 0);
    assert AddMonths(anchor, 2) == DateTime(2025, 3, 31, 0);
    assert AddMonths(anchor, 1) == DateTime(2025, 2, 28, 0);
    assert AddMonths(DateTime(2025, 2, 28, 0), 1) == DateTime(2025, 3, 28, 0);
  }
}
