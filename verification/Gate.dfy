/** When the poller asks for a recommendation: the hour interval and the first-of-month rule. */
module Gate {
  import opened Calendar

  /** Go's zero time, 0001-01-01T00:00:00Z. */
  const ZERO_TIME: Instant := -62_135_596_800_000_000_000

  const MAX_DURATION: int := 0x7FFF_FFFF_FFFF_FFFF
  const MIN_DURATION: int := -0x8000_0000_0000_0000

  /** `a.Sub(b)`: a 64-bit nanosecond count that saturates. */
  function Sub(a: Instant, b: Instant): int {
    if a - b > MAX_DURATION then MAX_DURATION
    else if a - b < MIN_DURATION then MIN_DURATION
    else a - b
  }

  /** `int(duration.Hours())`, truncating toward zero. */
  function WholeHours(duration: int): int {
    if duration >= 0 then duration / NS_PER_HOUR else -((-duration) / NS_PER_HOUR)
  }

  predicate NeedRecommOnFirstOfMonth(stored: Instant, maxEndTime: Instant) {
    DateOf(maxEndTime).day == 1 && Before(DateOf(stored), DateOf(maxEndTime))
  }

  predicate Due(interval: int, stored: Instant, maxEndTime: Instant) {
    || WholeHours(Sub(maxEndTime, stored)) >= interval
    || NeedRecommOnFirstOfMonth(stored, maxEndTime)
  }

  lemma WholeHoursMonotone(a: int, b: int)
    requires a <= b
    ensures WholeHours(a) <= WholeHours(b)
  {
  }

  lemma DateOrder(a: Instant, b: Instant)
    ensures Before(DateOf(a), DateOf(b)) <==> DayOf(a) < DayOf(b)
    ensures Before(DateOf(a), DateOf(b)) ==> a < b
  {
    DayNumberOrder(DateOf(a), DateOf(b));
    if b <= a {
      DayOfMonotone(b, a);
    }
  }

  /** A due time is strictly later than the stored one, by the interval or across a first of the month. */
  lemma DueIsLater(interval: int, stored: Instant, t: Instant)
    requires interval >= 1 && Due(interval, stored, t)
    ensures stored < t
    ensures t - stored >= interval * NS_PER_HOUR || (DateOf(t).day == 1 && DayOf(stored) < DayOf(t))
  {
    DateOrder(stored, t);
    if WholeHours(Sub(t, stored)) >= interval {
      var d := Sub(t, stored);
      assert d == (d / NS_PER_HOUR) * NS_PER_HOUR + d % NS_PER_HOUR;
    }
  }

  /** The due test is antitone in the stored time: once a time is not due, it stays so as that time grows. */
  lemma DueAntitone(interval: int, stored: Instant, later: Instant, t: Instant)
    requires stored <= later && Due(interval, later, t)
    ensures Due(interval, stored, t)
  {
    WholeHoursMonotone(Sub(t, later), Sub(t, stored));
    DateOrder(later, t);
    DateOrder(stored, t);
    DayOfMonotone(stored, later);
  }

  lemma NotDueAgain(interval: int, t: Instant)
    requires interval >= 1
    ensures !Due(interval, t, t)
  {
  }

  lemma HoursAtLeast(d: int, n: int)
    requires n >= 1
    ensures WholeHours(d) >= n <==> d >= n * NS_PER_HOUR
  {
    if d >= 0 {
      assert d == (d / NS_PER_HOUR) * NS_PER_HOUR + d % NS_PER_HOUR;
      var q := d / NS_PER_HOUR;
      assert q >= n ==> q * NS_PER_HOUR >= n * NS_PER_HOUR;
      assert q < n ==> (q + 1) * NS_PER_HOUR <= n * NS_PER_HOUR;
    }
  }

  /** A time is due exactly when the interval, if it fits a 64-bit count of nanoseconds, has passed since the
      stored time, or when it is on the first of a month and the stored one on an earlier day. */
  lemma DueIff(interval: int, stored: Instant, t: Instant)
    requires interval >= 1
    ensures Due(interval, stored, t) <==>
              || (t - stored >= interval * 3_600_000_000_000 && interval * 3_600_000_000_000 < 0x8000_0000_0000_0000)
              || (DateOf(t).day == 1 && DayOf(stored) < DayOf(t))
  {
    HoursAtLeast(Sub(t, stored), interval);
    DateOrder(stored, t);
  }

  lemma ZeroTimeIs()
    ensures ZERO_TIME == Midnight(CivilDate(1, 1, 1))
  {
    YearsCounted(1);
  }

  // ----- How often a workload can be saved

  /** How many days after `a` up to `b` satisfy `p`. */
  function Count(p: int -> bool, a: int, b: int): nat
    decreases b - a
  {
    if b <= a then 0 else Count(p, a, b - 1) + (if p(b) then 1 else 0)
  }

  /** It is the number of marked days after the one and up to the other. */
  lemma {:induction false} CountIsNumber(p: int -> bool, a: int, b: int)
    ensures Count(p, a, b) == |set d | a < d <= b && p(d)|
    decreases b - a
  {
    var days := set d | a < d <= b && p(d);
    if a < b {
      CountIsNumber(p, a, b - 1);
      var earlier := set d | a < d <= b - 1 && p(d);
      assert days == if p(b) then earlier + {b} else earlier;
    } else {
      assert days == {};
    }
  }

  lemma {:induction false} CountAdd(p: int -> bool, a: int, b: int, c: int)
    requires a <= b <= c
    ensures Count(p, a, c) == Count(p, a, b) + Count(p, b, c)
    decreases c - b
  {
    if b < c {
      CountAdd(p, a, b, c - 1);
    }
  }

  predicate IsFirstOfMonth(day: int) {
    AddDays(EPOCH, day).day == 1
  }

  /** The marked days are the dates with day 1. */
  lemma FirstOfMonthIff(d: Date)
    ensures IsFirstOfMonth(DayNumber(d)) <==> d.day == 1
  {
    DayNumberOrder(d, AddDays(EPOCH, DayNumber(d)));
  }

  predicate DueChain(interval: int, ends: seq<Instant>) {
    forall i :: 0 <= i < |ends| - 1 ==> Due(interval, ends[i], ends[i + 1])
  }

  /** `next` follows `last` after a gap of `span`, or on a marked day later than the day of `last`. */
  predicate Linked(marked: int -> bool, span: int, last: int, next: int, lastDay: int, nextDay: int) {
    && last <= next && lastDay <= nextDay
    && (next - last >= span || (marked(nextDay) && lastDay < nextDay))
  }

  lemma {:induction false} ChainBound(marked: int -> bool, span: int, ends: seq<int>, days: seq<int>)
    requires span >= 1 && |ends| == |days| >= 1
    requires forall i :: 0 <= i < |ends| - 1 ==> Linked(marked, span, ends[i], ends[i + 1], days[i], days[i + 1])
    ensures ends[0] <= ends[|ends| - 1] && days[0] <= days[|ends| - 1]
    ensures (|ends| - 1 - Count(marked, days[0], days[|ends| - 1])) * span <= ends[|ends| - 1] - ends[0]
  {
    var n := |ends|;
    if n > 1 {
      ChainBound(marked, span, ends[..n - 1], days[..n - 1]);
      var last, next := ends[n - 2], ends[n - 1];
      assert Linked(marked, span, last, next, days[n - 2], days[n - 2 + 1]);
      CountAdd(marked, days[0], days[n - 2], days[n - 1]);
      var f, g := Count(marked, days[0], days[n - 2]), Count(marked, days[n - 2], days[n - 1]);
      LastLink(span, n - 2 - f, g, last - ends[0], next - last, next - last >= span);
    }
  }

  lemma LastLink(p: int, k: int, g: nat, soFar: int, gap: int, long: bool)
    requires p >= 1 && k * p <= soFar && gap >= 0
    requires if long then gap >= p else g >= 1
    ensures (k + 1 - g) * p <= soFar + gap
  {
  }

  lemma DueIsLinked(interval: int, last: Instant, next: Instant)
    requires interval >= 1 && Due(interval, last, next)
    ensures Linked(IsFirstOfMonth, interval * NS_PER_HOUR, last, next, DayOf(last), DayOf(next))
  {
    DueIsLater(interval, last, next);
    DayOfMonotone(last, next);
  }

  /** The end times number at most one more than the intervals that fit between the first and the last
      plus the firsts of a month after the date of the first up to the date of the last. */
  ghost predicate Throttled(interval: int, ends: seq<Instant>)
    requires interval >= 1
  {
    ends != [] ==>
      var first, last, marked := ends[0], ends[|ends| - 1], IsFirstOfMonth;
      |ends| - 1 <= (last - first) / (interval * 3_600_000_000_000)
                    + |set day | DayOf(first) < day <= DayOf(last) && marked(day)|
  }

  /** End times each due after the one before are throttled. */
  lemma ThrottleBound(interval: int, ends: seq<Instant>)
    requires interval >= 1 && |ends| >= 1 && DueChain(interval, ends)
    ensures Throttled(interval, ends)
  {
    var days := seq(|ends|, i requires 0 <= i < |ends| => DayOf(ends[i]));
    forall i | 0 <= i < |ends| - 1
      ensures Linked(IsFirstOfMonth, interval * NS_PER_HOUR, ends[i], ends[i + 1], days[i], days[i + 1])
    {
      DueIsLinked(interval, ends[i], ends[i + 1]);
    }
    ChainQuotient(IsFirstOfMonth, interval * NS_PER_HOUR, ends, days);
  }

  lemma ChainQuotient(marked: int -> bool, span: int, ends: seq<int>, days: seq<int>)
    requires span >= 1 && |ends| == |days| >= 1
    requires forall i :: 0 <= i < |ends| - 1 ==> Linked(marked, span, ends[i], ends[i + 1], days[i], days[i + 1])
    ensures |ends| - 1 <= (ends[|ends| - 1] - ends[0]) / span
                          + |set day | days[0] < day <= days[|ends| - 1] && marked(day)|
  {
    CountIsNumber(marked, days[0], days[|ends| - 1]);
    ChainBound(marked, span, ends, days);
    QuotientAtLeast(ends[|ends| - 1] - ends[0], span, |ends| - 1 - Count(marked, days[0], days[|ends| - 1]));
  }

  lemma QuotientAtLeast(x: int, p: int, k: int)
    requires p >= 1 && k * p <= x
    ensures k <= x / p
  {
    var q := x / p;
    assert x == q * p + x % p;
    assert k > q ==> k * p >= (q + 1) * p;
    assert (q + 1) * p == q * p + p;
  }
}
