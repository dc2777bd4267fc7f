/** The housekeeper's retention job: the cut-off date it computes and what a run of it keeps. */
module Retention {
  import opened Calendar
  import opened Partitions

  /** `currentTime.AddDate(0, 0, -DataRetentionPeriod)`. */
  function Threshold(today: Date, retention: int): Date {
    AddDays(today, -retention)
  }

  /** The 16th of the month before the current one. */
  function LastHalfOfPreviousMonth(today: Date): Date {
    PreviousMonth(today).(day := 16)
  }

  /** The date handed to drop_ros_partition. It always starts a half-month. */
  function CutOff(today: Date, retention: int): (c: Date)
    ensures IsHalfStart(c)
  {
    var threshold := Threshold(today, retention);
    if threshold.day < 15 then
      var c := AddDays(threshold, -threshold.day + 1);
      DayNumberOrder(c, threshold.(day := 1));
      c
    else
      LastHalfOfPreviousMonth(today)
  }

  /** Which date that is: before the 15th, the latest start of a half-month that is not after the threshold;
      from the 15th on, the latest 16th before the first of the current month. */
  lemma CutOffIs(today: Date, retention: int, threshold: Date)
    requires DayNumber(threshold) == DayNumber(today) - retention
    ensures var c := CutOff(today, retention);
            if threshold.day < 15 then
              && (c.day == 1 || c.day == 16) && !Before(threshold, c)
              && forall d: Date :: (d.day == 1 || d.day == 16) && !Before(threshold, d) ==> !Before(c, d)
            else
              && c.day == 16 && Before(c, today.(day := 1))
              && forall d: Date :: d.day == 16 && Before(d, today.(day := 1)) ==> !Before(c, d)
  {
    AddDaysUnique(today, -retention, threshold);
    var c := CutOff(today, retention);
    if threshold.day < 15 {
      DayNumberOrder(c, threshold.(day := 1));
    } else {
      var first := today.(day := 1);
      DayNumberOrder(c, first);
      forall d: Date | d.day == 16 && Before(d, first) ensures !Before(c, d) {
        SixteenthBefore(d, today);
      }
    }
  }

  lemma SixteenthBefore(d: Date, today: Date)
    requires d.day == 16 && Before(d, today.(day := 1))
    ensures !Before(PreviousMonth(today).(day := 16), d)
  {
    var p := PreviousMonth(today);
    DayNumberOrder(p, today.(day := 1));
  }

  predicate MonthBefore(a: Date, b: Date) {
    a.year < b.year || (a.year == b.year && a.month < b.month)
  }

  /** The threshold is past the 14th of a month before the previous one, or the 15th of the previous one. */
  predicate TakenFromCurrentMonth(today: Date, retention: int) {
    var threshold, previous := Threshold(today, retention), PreviousMonth(today);
    threshold == previous.(day := 15) || (threshold.day > 14 && MonthBefore(threshold, previous))
  }

  /** For every date and every retention period, however long: the cut-off is later than the threshold,
      so that records still within the period are dropped, exactly when the branch past the 14th takes its
      month from the current one although the threshold lies further back. */
  lemma CutOffTooLateIff(today: Date, retention: int)
    ensures Before(Threshold(today, retention), CutOff(today, retention)) <==>
              TakenFromCurrentMonth(today, retention)
  {
    var threshold := Threshold(today, retention);
    if threshold.day < 15 {
      DayNumberOrder(CutOff(today, retention), threshold.(day := 1));
    }
  }

  lemma ThresholdMonth(today: Date, retention: int)
    requires 0 <= retention <= 28
    ensures var t := Threshold(today, retention);
            || (t.year == today.year && t.month == today.month)
            || (t.year == PreviousMonth(today).year && t.month == PreviousMonth(today).month)
  {
    var t, p := Threshold(today, retention), PreviousMonth(today);
    DayNumberOrder(t, today);
    DayNumberOrder(t, p);
    DayNumberOrder(p, today);
  }

  /** Up to four weeks, the cut-off is too late only when the threshold is the 15th of the month before
      the current one, and then by exactly one day. */
  lemma CutOffWithinFourWeeks(today: Date, retention: int)
    requires 0 <= retention <= 28
    ensures var t := Threshold(today, retention);
            var c := CutOff(today, retention);
            && (Before(t, c) <==> t == PreviousMonth(today).(day := 15))
            && (Before(t, c) ==> c == NextDay(t))
  {
    CutOffTooLateIff(today, retention);
    ThresholdMonth(today, retention);
  }

  /** The day on which the default period of 15 days reaches back to the 15th of February. */
  predicate IsFifteenDaysAfterMidFebruary(today: Date) {
    today.month == 3 && today.day == (if IsLeap(today.year) then 1 else 2)
  }

  /** With the default period the cut-off is too late on one day of every year. */
  lemma DefaultCutOffTooLateIff(today: Date)
    ensures Before(Threshold(today, 15), CutOff(today, 15)) <==> IsFifteenDaysAfterMidFebruary(today)
  {
    CutOffWithinFourWeeks(today, 15);
    var mid := PreviousMonth(today).(day := 15);
    DayNumberOrder(Threshold(today, 15), mid);
    assert Threshold(today, 15) == mid <==> DayNumber(today) == DayNumber(mid) + 15;
    assert DayNumber(today) == DayNumber(today.(day := 1)) + today.day - 1;
  }

  /** With the default period of 15 days nothing older than 46 days survives a run. */
  lemma CutOffAtMost46DaysBack(today: Date)
    ensures DayNumber(today) - DayNumber(CutOff(today, 15)) <= 46
  {
  }

  /** The bound is reached on the 31st of August of every year. */
  lemma FortySixDaysReached(year: int)
    ensures var today := CivilDate(year, 8, 31);
            DayNumber(today) - DayNumber(CutOff(today, 15)) == 46
  {
    var today: Date := CivilDate(year, 8, 31);
    AddDaysUnique(today, -15, CivilDate(year, 8, 16));
  }

  /** A whole run of the job, for periods up to four weeks: of the records still within the period it
      loses exactly those dated the 15th of the previous month when that is the threshold, and of the
      older ones it keeps exactly those at or after the cut-off. */
  lemma HousekeepingRun(cat: Catalog, today: Date, retention: int, r: Record)
    requires Valid(cat) && 0 <= retention <= 28 && r in Records(cat)
    ensures var after := Without(cat, CutOff(today, retention));
            var t := Threshold(today, retention);
            && (!Before(DateOf(r.time), t) ==>
                  (r !in Records(after) <==>
                     DateOf(r.time) == t && t == PreviousMonth(today).(day := 15)))
            && (Before(DateOf(r.time), t) ==>
                  (r in Records(after) <==> !Before(DateOf(r.time), CutOff(today, retention))))
  {
    var t, c, d := Threshold(today, retention), CutOff(today, retention), DateOf(r.time);
    DropAtHalfStartIsExact(cat, c, r);
    CutOffWithinFourWeeks(today, retention);
    DayNumberOrder(d, t);
    DayNumberOrder(d, c);
    DayNumberOrder(t, c);
  }

  /** Of the records older than the period, for periods up to four weeks, those of the threshold's own
      half-month survive; and when the threshold is past the 14th of the current month, all from the 16th of the
      previous one on. None does when the threshold is the 15th of the previous month. */
  lemma OlderRecordSurvivesIff(cat: Catalog, today: Date, retention: int, r: Record)
    requires Valid(cat) && 0 <= retention <= 28 && r in Records(cat) && Before(DateOf(r.time), Threshold(today, retention))
    ensures var t, d, previous := Threshold(today, retention), DateOf(r.time), PreviousMonth(today);
            r in Records(Without(cat, CutOff(today, retention))) <==>
              if t == previous.(day := 15) then false
              else if t.day > 14 && t.month == today.month then !Before(d, previous.(day := 16))
              else d.year == t.year && d.month == t.month && (d.day > 15 <==> t.day > 15)
  {
    var t, c := Threshold(today, retention), CutOff(today, retention);
    HousekeepingRun(cat, today, retention, r);
    ThresholdMonth(today, retention);
    if t.day < 15 {
      DayNumberOrder(c, t.(day := 1));
    }
  }

  /** With the default period a run loses a record that is still within it exactly on that day, when the
      record is of the 15th of February. */
  lemma DefaultRunLosesIff(cat: Catalog, today: Date, r: Record)
    requires Valid(cat) && r in Records(cat) && !Before(DateOf(r.time), Threshold(today, 15))
    ensures r !in Records(Without(cat, CutOff(today, 15))) <==>
              IsFifteenDaysAfterMidFebruary(today) && DateOf(r.time) == CivilDate(today.year, 2, 15)
  {
    HousekeepingRun(cat, today, 15, r);
    DefaultCutOffTooLateIff(today);
    CutOffWithinFourWeeks(today, 15);
  }

  /** What a run leaves in the catalog: the records at or after the cut-off, and with the default period
      only half-months that started at most 46 days ago. */
  lemma RunKeepsRecent(cat: Catalog, today: Date, retention: int)
    requires Valid(cat)
    ensures var c := CutOff(today, retention);
            Records(Without(cat, c)) == set r | r in Records(cat) && !Before(DateOf(r.time), c)
    ensures retention == 15 ==>
              forall n :: n in Without(cat, CutOff(today, retention)) ==> DayNumber(today) - DayNumber(cat[n].lo) <= 46
  {
    var c := CutOff(today, retention);
    forall r ensures r in Records(Without(cat, c)) <==> r in Records(cat) && !Before(DateOf(r.time), c) {
      DropAtHalfStartIsExact(cat, c, r);
    }
    CutOffAtMost46DaysBack(today);
    forall n | n in Without(cat, c) ensures DayNumber(c) <= DayNumber(cat[n].lo) {
      DayNumberOrder(cat[n].lo, c);
    }
  }

  class Housekeeper {
    const catalog: PartitionCatalog

    constructor (catalog: PartitionCatalog)
      ensures this.catalog == catalog
    {
      this.catalog := catalog;
    }

    /** With the default period, what survives is whole half-months that started at most 46 days ago. */
    method DeletePartitions(today: Date, retention: int)
      requires Valid(catalog.tables)
      modifies catalog
      ensures Valid(catalog.tables)
      ensures catalog.tables == Without(old(catalog.tables), CutOff(today, retention))
      ensures Records(catalog.tables) ==
                set r | r in Records(old(catalog.tables)) && !Before(DateOf(r.time), CutOff(today, retention))
      ensures retention == 15 ==>
                forall n :: n in catalog.tables ==> DayNumber(today) - DayNumber(catalog.tables[n].lo) <= 46
    {
      var partitionTableDate := PartitionTableDate(today, retention);
      RunKeepsRecent(catalog.tables, today, retention);
      WithoutKeepsValid(catalog.tables, partitionTableDate);
      catalog.DropRosPartition(partitionTableDate);
    }
  }

  /** The branch as the job computes it. */
  method PartitionTableDate(today: Date, retention: int) returns (c: Date)
    ensures c == CutOff(today, retention)
  {
    var threshold := AddDays(today, -retention);
    if threshold.day < 15 {
      c := AddDays(threshold, -threshold.day + 1);
    } else {
      c := PreviousMonth(today).(day := 16);
    }
  }

  lemma WithoutKeepsValid(cat: Catalog, cutOff: Date)
    requires Valid(cat)
    ensures Valid(Without(cat, cutOff))
  {
    forall n | n in Without(cat, cutOff) ensures IsHalfMonthTable(n, Without(cat, cutOff)[n]) {
      assert IsHalfMonthTable(n, cat[n]);
    }
  }
}
