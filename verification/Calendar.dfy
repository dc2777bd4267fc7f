/** The proleptic Gregorian calendar in UTC, as the Go and SQL date functions see it: civil dates,
    day numbers, and instants counted in nanoseconds since 1970-01-01. */
module Calendar {

  datatype CivilDate = CivilDate(year: int, month: int, day: int)

  /** A date that exists. */
  type Date = d: CivilDate | IsDate(d) witness CivilDate(1970, 1, 1)

  /** Nanoseconds since 1970-01-01T00:00:00Z. */
  type Instant = int

  const NS_PER_DAY: int := 86_400_000_000_000
  const NS_PER_HOUR: int := 3_600_000_000_000
  const EPOCH: Date := CivilDate(1970, 1, 1)

  predicate IsLeap(year: int) {
    year % 4 == 0 && (year % 100 != 0 || year % 400 == 0)
  }

  function MonthLength(year: int, month: int): (n: int)
    requires 1 <= month <= 12
  {
    if month == 2 then (if IsLeap(year) then 29 else 28)
    else if month == 4 || month == 6 || month == 9 || month == 11 then 30
    else 31
  }

  predicate IsDate(d: CivilDate) {
    1 <= d.month <= 12 && 1 <= d.day <= MonthLength(d.year, d.month)
  }

  function DaysInYear(year: int): int {
    if IsLeap(year) then 366 else 365
  }

  /** Days from 1970-01-01 to the first day of the year, negative before 1970. */
  function DaysBeforeYear(year: int): int
    decreases if year < 1970 then 1970 - year else year - 1970
  {
    if year == 1970 then 0
    else if year > 1970 then DaysBeforeYear(year - 1) + DaysInYear(year - 1)
    else DaysBeforeYear(year + 1) - DaysInYear(year)
  }

  function DaysBeforeMonth(year: int, month: int): int
    requires 1 <= month <= 12
  {
    [0, 31, 59, 90, 120, 151, 181, 212, 243, 273, 304, 334][month - 1]
    + (if month > 2 && IsLeap(year) then 1 else 0)
  }

  /** Days since 1970-01-01. */
  function DayNumber(d: Date): int {
    DaysBeforeYear(d.year) + DaysBeforeMonth(d.year, d.month) + d.day - 1
  }

  predicate Before(a: Date, b: Date) {
    a.year < b.year
    || (a.year == b.year && a.month < b.month)
    || (a.year == b.year && a.month == b.month && a.day < b.day)
  }

  lemma DivisionUnique(x: int, k: int, q: int, r: int)
    requires k > 0 && 0 <= r < k && x == q * k + r
    ensures x / k == q && x % k == r
  {
    var d := x / k - q;
    assert x == (x / k) * k + x % k;
    assert d * k == r - x % k;
    assert d >= 1 ==> d * k >= k;
    assert d <= -1 ==> d * k <= -k;
  }

  lemma YearLength(year: int)
    ensures DaysBeforeYear(year + 1) == DaysBeforeYear(year) + DaysInYear(year)
  {
  }

  lemma {:induction false} YearsApart(a: int, b: int)
    requires a <= b
    ensures DaysBeforeYear(b) - DaysBeforeYear(a) >= 365 * (b - a)
    decreases b - a
  {
    if a < b {
      YearLength(b - 1);
      YearsApart(a, b - 1);
    }
  }

  lemma DayWithinYear(d: Date)
    ensures 0 <= DaysBeforeMonth(d.year, d.month) + d.day - 1 < DaysInYear(d.year)
  {
  }

  /** Day numbers order dates the way year, month and day do. */
  lemma DayNumberMonotone(a: Date, b: Date)
    requires Before(a, b)
    ensures DayNumber(a) < DayNumber(b)
  {
    if a.year < b.year {
      DayWithinYear(a);
      DayWithinYear(b);
      YearLength(a.year);
      YearsApart(a.year + 1, b.year);
    } else if a.month < b.month {
      MonthsApart(a.year, a.month, b.month);
    }
  }

  lemma MonthsApart(year: int, a: int, b: int)
    requires 1 <= a < b <= 12
    ensures DaysBeforeMonth(year, a) + MonthLength(year, a) <= DaysBeforeMonth(year, b)
    ensures b == a + 1 ==> DaysBeforeMonth(year, a) + MonthLength(year, a) == DaysBeforeMonth(year, b)
  {
  }

  lemma FloorStep(x: int, k: int)
    requires k > 0
    ensures x / k - (x - 1) / k == if x % k == 0 then 1 else 0
  {
    assert x == (x / k) * k + x % k;
    if x % k == 0 {
      DivisionUnique(x - 1, k, x / k - 1, k - 1);
    } else {
      DivisionUnique(x - 1, k, x / k, x % k - 1);
    }
  }

  /** 365 days for each year before, and one more for each fourth, less each hundredth, plus each four
      hundredth; less the days up to 1970. */
  function CountedYears(year: int): int {
    365 * (year - 1) + (year - 1) / 4 - (year - 1) / 100 + (year - 1) / 400 - 719_162
  }

  lemma LeapRule(year: int)
    ensures CountedYears(year + 1) == CountedYears(year) + DaysInYear(year)
  {
    FloorStep(year, 4);
    FloorStep(year, 100);
    FloorStep(year, 400);
    HundredsAreFourths(year);
  }

  lemma HundredsAreFourths(year: int)
    ensures year % 400 == 0 ==> year % 100 == 0
    ensures year % 100 == 0 ==> year % 4 == 0
  {
    assert year == (year / 400) * 400 + year % 400;
    if year % 400 == 0 {
      DivisionUnique(year, 100, year / 400 * 4, 0);
    }
    assert year == (year / 100) * 100 + year % 100;
    if year % 100 == 0 {
      DivisionUnique(year, 4, year / 100 * 25, 0);
    }
  }

  lemma {:induction false} YearsCounted(year: int)
    ensures DaysBeforeYear(year) == CountedYears(year)
    decreases if year < 1970 then 1970 - year else year - 1970
  {
    if year > 1970 {
      YearsCounted(year - 1);
      LeapRule(year - 1);
    } else if year < 1970 {
      YearsCounted(year + 1);
      LeapRule(year);
    }
  }

  /** The day number of a date in closed form, with the calendar's rules written out. */
  lemma DayNumberClosedForm(d: Date)
    ensures DayNumber(d) ==
              365 * (d.year - 1) + (d.year - 1) / 4 - (d.year - 1) / 100 + (d.year - 1) / 400
              + (367 * d.month - 362) / 12
              - (if d.month <= 2 then 0 else if d.year % 4 == 0 && (d.year % 100 != 0 || d.year % 400 == 0) then 1 else 2)
              + d.day - 719_163
  {
    YearsCounted(d.year);
  }

  lemma DayNumberOrder(a: Date, b: Date)
    ensures Before(a, b) <==> DayNumber(a) < DayNumber(b)
    ensures a == b <==> DayNumber(a) == DayNumber(b)
  {
    if Before(a, b) {
      DayNumberMonotone(a, b);
    } else if Before(b, a) {
      DayNumberMonotone(b, a);
    }
  }

  function NextDay(d: Date): (r: Date)
    ensures DayNumber(r) == DayNumber(d) + 1
  {
    if d.day < MonthLength(d.year, d.month) then d.(day := d.day + 1)
    else if d.month < 12 then
      MonthsApart(d.year, d.month, d.month + 1);
      CivilDate(d.year, d.month + 1, 1)
    else
      YearLength(d.year);
      CivilDate(d.year + 1, 1, 1)
  }

  function PreviousDay(d: Date): (r: Date)
    ensures DayNumber(r) == DayNumber(d) - 1
  {
    if d.day > 1 then d.(day := d.day - 1)
    else if d.month > 1 then
      MonthsApart(d.year, d.month - 1, d.month);
      CivilDate(d.year, d.month - 1, MonthLength(d.year, d.month - 1))
    else
      YearLength(d.year - 1);
      CivilDate(d.year - 1, 12, 31)
  }

  /** The date `n` days later (earlier when negative), as Go's AddDate(0, 0, n). */
  function AddDays(d: Date, n: int): (r: Date)
    ensures DayNumber(r) == DayNumber(d) + n
    decreases if n < 0 then -n else n
  {
    if n == 0 then d
    else if n > 0 then AddDays(NextDay(d), n - 1)
    else AddDays(PreviousDay(d), n + 1)
  }

  lemma AddDaysUnique(d: Date, n: int, r: Date)
    requires DayNumber(r) == DayNumber(d) + n
    ensures r == AddDays(d, n)
  {
    DayNumberOrder(r, AddDays(d, n));
  }

  function DayOf(t: Instant): int {
    t / NS_PER_DAY
  }

  /** The UTC calendar date of an instant. */
  function DateOf(t: Instant): (d: Date)
    ensures DayNumber(d) == DayOf(t)
  {
    AddDays(EPOCH, DayOf(t))
  }

  /** The midnight a date starts with. */
  function Midnight(d: Date): (t: Instant)
    ensures DateOf(t) == d
  {
    DivisionUnique(DayNumber(d) * NS_PER_DAY, NS_PER_DAY, DayNumber(d), 0);
    DayNumberOrder(d, DateOf(DayNumber(d) * NS_PER_DAY));
    DayNumber(d) * NS_PER_DAY
  }

  /** An instant lies between the midnight of its date and the next. */
  lemma DateOfIff(t: Instant, d: Date)
    ensures DateOf(t) == d <==> DayNumber(d) * 86_400_000_000_000 <= t < (DayNumber(d) + 1) * 86_400_000_000_000
  {
    DayNumberOrder(d, DateOf(t));
    assert t == DayOf(t) * NS_PER_DAY + t % NS_PER_DAY;
    if DayNumber(d) * NS_PER_DAY <= t < (DayNumber(d) + 1) * NS_PER_DAY {
      DivisionUnique(t, NS_PER_DAY, DayNumber(d), t - DayNumber(d) * NS_PER_DAY);
    }
  }

  lemma DayOfMonotone(a: Instant, b: Instant)
    requires a <= b
    ensures DayOf(a) <= DayOf(b)
  {
  }

  /** The month before, January going back to December of the year before. */
  function PreviousMonth(d: Date): (r: Date)
    ensures r.day == 1
    ensures DayNumber(r) + MonthLength(r.year, r.month) == DayNumber(d.(day := 1))
  {
    if d.month > 1 then
      MonthsApart(d.year, d.month - 1, d.month);
      CivilDate(d.year, d.month - 1, 1)
    else
      YearLength(d.year - 1);
      CivilDate(d.year - 1, 12, 1)
  }
}
