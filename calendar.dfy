/** The part of Python's `datetime.date` the birthday commands use: the
    proleptic Gregorian calendar between years 1 and 9999, day ordinals as
    `date.toordinal()` numbers them (0001-01-01 is day 1, a Monday),
    `date.weekday()`, adding days, and comparison. */
module Calendar {

  const MinYear := 1
  const MaxYear := 9999

  /** A calendar date; `Valid` says whether Python's `date(...)` accepts it. */
  datatype Date = Date(year: int, month: int, day: int) {
    predicate Valid() {
      MinYear <= year <= MaxYear && 1 <= month <= 12 && 1 <= day <= DaysInMonth(year, month)
    }
  }

  /** A date Python can represent: a birthday, or the day `date.today()` gives. */
  type ValidDate = d: Date | d.Valid() witness Date(1, 1, 1)

  predicate IsLeap(y: int) {
    y % 4 == 0 && (y % 100 != 0 || y % 400 == 0)
  }

  function DaysInMonth(y: int, m: int): (days: int)
    requires 1 <= m <= 12
  {
    if m == 2 then (if IsLeap(y) then 29 else 28)
    else if m == 4 || m == 6 || m == 9 || m == 11 then 30
    else 31
  }

  function DaysInYear(y: int): (days: int) {
    if IsLeap(y) then 366 else 365
  }

  /** Days in the years before `y`, counted from year 1. */
  function DaysBeforeYear(y: int): (days: int) {
    var p := y - 1;
    p * 365 + p / 4 - p / 100 + p / 400
  }

  /** Days in the months of year `y` before month `m`. */
  function DaysBeforeMonth(y: int, m: int): (days: int)
    requires 1 <= m <= 12
  {
    var before := [0, 31, 59, 90, 120, 151, 181, 212, 243, 273, 304, 334][m - 1];
    before + (if m > 2 && IsLeap(y) then 1 else 0)
  }

  /** `date.toordinal()`. */
  function Ordinal(d: Date): (n: int)
    requires d.Valid()
  {
    DaysBeforeYear(d.year) + DaysBeforeMonth(d.year, d.month) + d.day
  }

  /** `date.weekday()`: Monday is 0 and Sunday is 6. */
  function Weekday(d: Date): (w: int)
    requires d.Valid()
    ensures 0 <= w < 7
  {
    (Ordinal(d) + 6) % 7
  }

  /** The day after `d`, rolling over the month and the year. */
  function NextDay(d: Date): (next: Date)
    requires d.Valid()
  {
    if d.day < DaysInMonth(d.year, d.month) then Date(d.year, d.month, d.day + 1)
    else if d.month < 12 then Date(d.year, d.month + 1, 1)
    else Date(d.year + 1, 1, 1)
  }

  /** `d + timedelta(days=n)` for a count of days that stays in range. */
  function AddDays(d: Date, n: nat): (later: Date)
    requires d.Valid()
    requires n == 0 || d != Date(MaxYear, 12, 31)
    requires n <= 1 || NextDay(d) != Date(MaxYear, 12, 31)
    requires n <= 2
    decreases n
  {
    if n == 0 then d
    else
      NextDayOrdinal(d);
      AddDays(NextDay(d), n - 1)
  }

  /** Python's `a < b` on dates: year, then month, then day. */
  predicate Before(a: Date, b: Date) {
    a.year < b.year
    || (a.year == b.year && a.month < b.month)
    || (a.year == b.year && a.month == b.month && a.day < b.day)
  }

  /** A year has as many days as the ordinals of its first days say. */
  lemma YearLength(y: int)
    requires y >= 1
    ensures DaysBeforeYear(y + 1) == DaysBeforeYear(y) + DaysInYear(y)
  {
    var p := y - 1;
    assert y / 4 == p / 4 + (if y % 4 == 0 then 1 else 0);
    assert y / 100 == p / 100 + (if y % 100 == 0 then 1 else 0);
    assert y / 400 == p / 400 + (if y % 400 == 0 then 1 else 0);
  }

  /** Every valid day but the last one Python can represent has a valid
      successor, one ordinal later and later in date order. */
  lemma NextDayOrdinal(d: Date)
    requires d.Valid() && d != Date(MaxYear, 12, 31)
    ensures NextDay(d).Valid()
    ensures Ordinal(NextDay(d)) == Ordinal(d) + 1
    ensures Before(d, NextDay(d))
  {
    if d.day == DaysInMonth(d.year, d.month) && d.month == 12 {
      YearLength(d.year);
    }
  }

  /** Adding `n <= 2` days (all the weekend shift adds) moves the ordinal
      by `n` and, for `n > 0`, lands later in date order. */
  lemma {:induction false} AddDaysOrdinal(d: Date, n: nat)
    requires d.Valid()
    requires n == 0 || d != Date(MaxYear, 12, 31)
    requires n <= 1 || NextDay(d) != Date(MaxYear, 12, 31)
    requires n <= 2
    ensures AddDays(d, n).Valid()
    ensures Ordinal(AddDays(d, n)) == Ordinal(d) + n
    ensures n > 0 ==> Before(d, AddDays(d, n))
    decreases n
  {
    if n > 0 {
      NextDayOrdinal(d);
      AddDaysOrdinal(NextDay(d), n - 1);
    }
  }

  /** The last representable day, 9999-12-31, is a Friday, and the day
      before it a Thursday; so no weekend day is within two days of the end. */
  lemma LastDaysAreWeekdays()
    ensures Date(MaxYear, 12, 31).Valid() && Weekday(Date(MaxYear, 12, 31)) == 4
    ensures Date(MaxYear, 12, 30).Valid() && Weekday(Date(MaxYear, 12, 30)) == 3
  {
  }
}
