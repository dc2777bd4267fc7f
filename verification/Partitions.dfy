/** Half-month range partitions of the history and metrics tables: the SQL functions that create and
    drop them, as operations on one catalog holding the leaf partitions of every parent table. */
module Partitions {
  import opened Calendar

  /** One half of a calendar month: the 1st to the 15th, or the 16th to the end. */
  datatype RawHalf = RawHalf(year: int, month: int, second: bool)

  type HalfMonth = h: RawHalf | 1 <= h.month <= 12 witness RawHalf(1970, 1, false)

  function HalfOf(d: Date): HalfMonth {
    RawHalf(d.year, d.month, d.day > 15)
  }

  function NextMonth(d: Date): (r: Date)
    ensures r.day == 1
    ensures DayNumber(r) == DayNumber(d.(day := 1)) + MonthLength(d.year, d.month)
  {
    if d.month < 12 then
      MonthsApart(d.year, d.month, d.month + 1);
      CivilDate(d.year, d.month + 1, 1)
    else
      YearLength(d.year);
      CivilDate(d.year + 1, 1, 1)
  }

  function FirstDay(h: HalfMonth): Date {
    CivilDate(h.year, h.month, if h.second then 16 else 1)
  }

  /** The day after the last one. */
  function EndDay(h: HalfMonth): Date {
    if h.second then NextMonth(FirstDay(h)) else CivilDate(h.year, h.month, 16)
  }

  function PreviousHalf(h: HalfMonth): (p: HalfMonth)
    ensures EndDay(p) == FirstDay(h)
  {
    if h.second then RawHalf(h.year, h.month, false)
    else
      var m := PreviousMonth(FirstDay(h));
      var p := RawHalf(m.year, m.month, true);
      DayNumberOrder(EndDay(p), FirstDay(h));
      p
  }

  predicate Within(d: Date, lo: Date, hi: Date) {
    !Before(d, lo) && Before(d, hi)
  }

  /** Every date lies in exactly one half-month. */
  lemma HalvesPartitionTheCalendar(d: Date, h: HalfMonth)
    ensures Within(d, FirstDay(h), EndDay(h)) <==> HalfOf(d) == h
  {
  }

  /** A half-month's range holds the 1st to the 15th of its month, or the 16th to the end. */
  lemma HalfMonthRange(d: Date, h: HalfMonth)
    ensures Within(d, FirstDay(h), EndDay(h)) <==>
              d.year == h.year && d.month == h.month && (d.day >= 16 <==> h.second)
  {
  }

  /** `replace(parent || '_' || start, '-', '_')`: the parent and the start date as text. */
  datatype Name = Name(parent: string, year: int, month: int, startDay: int)

  datatype Record = Record(parent: string, id: nat, time: Instant)

  datatype Table = Table(lo: Date, hi: Date, rows: set<Record>)

  type Catalog = map<Name, Table>

  function NameOf(parent: string, h: HalfMonth): Name {
    Name(parent, h.year, h.month, FirstDay(h).day)
  }

  function Records(cat: Catalog): set<Record> {
    set n, r | n in cat && r in cat[n].rows :: r
  }

  predicate Overlap(a: Table, b: Table) {
    Before(a.lo, b.hi) && Before(b.lo, a.hi)
  }

  predicate IsHalfMonthTable(n: Name, t: Table) {
    && 1 <= n.month <= 12
    && (n.startDay == 1 || n.startDay == 16)
    && var h: HalfMonth := RawHalf(n.year, n.month, n.startDay == 16);
       && t.lo == FirstDay(h) && t.hi == EndDay(h)
       && forall r :: r in t.rows ==> r.parent == n.parent && HalfOf(DateOf(r.time)) == h
  }

  predicate Valid(cat: Catalog) {
    forall n :: n in cat ==> IsHalfMonthTable(n, cat[n])
  }

  // ----- What the operations do, on values

  function WithHalf(cat: Catalog, parent: string, h: HalfMonth): Catalog {
    var n := NameOf(parent, h);
    if n in cat then cat else cat[n := Table(FirstDay(h), EndDay(h), {})]
  }

  /** The half-month of a date and the one before it. */
  function WithRecentHalves(cat: Catalog, parent: string, d: Date): Catalog {
    WithHalf(WithHalf(cat, parent, HalfOf(d)), parent, PreviousHalf(HalfOf(d)))
  }

  function WithRecord(cat: Catalog, r: Record): Catalog {
    var n := NameOf(r.parent, HalfOf(DateOf(r.time)));
    if n in cat then cat[n := cat[n].(rows := cat[n].rows + {r})] else cat
  }

  function Without(cat: Catalog, cutOff: Date): Catalog {
    map n | n in cat && !Before(cat[n].lo, cutOff) :: cat[n]
  }

  // ----- The stored procedures

  class PartitionCatalog {
    var tables: Catalog

    constructor ()
      ensures tables == map[]
    {
      tables := map[];
    }

    /** `CREATE TABLE ... PARTITION OF`: an error when the name is taken or the range overlaps a
        partition the parent already has. */
    method CreateRangePartition(name: Name, lo: Date, hi: Date) returns (ok: bool)
      modifies this
      ensures ok <==> && name !in old(tables)
                      && forall n :: n in old(tables) && n.parent == name.parent ==>
                           !Overlap(old(tables)[n], Table(lo, hi, {}))
      ensures tables == if ok then old(tables)[name := Table(lo, hi, {})] else old(tables)
    {
      ok := name !in tables
        && forall n :: n in tables && n.parent == name.parent ==> !Overlap(tables[n], Table(lo, hi, {}));
      if ok {
        tables := tables[name := Table(lo, hi, {})];
      }
    }

    /** Creates a half-month unless its name exists. No error can arise: a free name always means a free range. */
    method CreateIfMissing(name: Name, lo: Date, hi: Date, ghost h: HalfMonth) returns (ok: bool)
      requires Valid(tables)
      requires name == NameOf(name.parent, h) && lo == FirstDay(h) && hi == EndDay(h)
      modifies this
      ensures ok && Valid(tables) && tables == WithHalf(old(tables), name.parent, h)
    {
      ok := true;
      WithHalfKeepsValid(tables, name.parent, h);
      if name !in tables {
        FreeNameMeansFreeRange(tables, name.parent, h);
        ok := CreateRangePartition(name, lo, hi);
      }
    }

    /** Creates the half-month of `maxIntervalEnd` and the one before, skipping a name that exists. */
    method CreateMonthlyPartitions(maxIntervalEnd: Instant, parent: string) returns (ok: bool)
      requires Valid(tables)
      modifies this
      ensures ok && Valid(tables)
      ensures tables == WithRecentHalves(old(tables), parent, DateOf(maxIntervalEnd))
    {
      var recordDate := DateOf(maxIntervalEnd);
      ghost var half, earlier := HalfOf(recordDate), PreviousHalf(HalfOf(recordDate));
      var first, middle := recordDate.(day := 1), recordDate.(day := 16);
      if recordDate.day > 15 {
        ok := CreateIfMissing(Name(parent, middle.year, middle.month, middle.day), middle, NextMonth(recordDate), half);
        if ok {
          ok := CreateIfMissing(Name(parent, first.year, first.month, first.day), first, middle, earlier);
        }
      } else {
        ok := CreateIfMissing(Name(parent, first.year, first.month, first.day), first, middle, half);
        var start := AddDays(PreviousMonth(recordDate), 15);
        DayNumberOrder(start, FirstDay(earlier));
        assert EndDay(earlier) == first;
        if ok {
          ok := CreateIfMissing(Name(parent, start.year, start.month, start.day), start, first, earlier);
        }
      }
    }

    /** An insert goes to the partition whose range holds the record's time, or fails for want of one. */
    method InsertRecord(r: Record) returns (ok: bool)
      requires Valid(tables)
      modifies this
      ensures Valid(tables) && tables == WithRecord(old(tables), r)
      ensures ok <==> exists n :: n in old(tables) && n.parent == r.parent
                                  && Within(DateOf(r.time), old(tables)[n].lo, old(tables)[n].hi)
    {
      var d := DateOf(r.time);
      OnlyOneTableHolds(tables, r.parent, d);
      WithRecordKeepsValid(tables, r);
      if n :| n in tables && n.parent == r.parent && Within(d, tables[n].lo, tables[n].hi) {
        assert n == NameOf(r.parent, HalfOf(d));
        tables := tables[n := tables[n].(rows := tables[n].rows + {r})];
        ok := true;
      } else {
        ok := false;
      }
    }

    /** Collects the partitions, of any parent, that start before the date, then drops them one by one. */
    method DropRosPartition(tableDate: Date)
      modifies this
      ensures tables == Without(old(tables), tableDate)
    {
      var names := set n | n in tables && Before(tables[n].lo, tableDate);
      var start := tables;
      while names != {}
        invariant names <= start.Keys
        invariant forall n :: n in names ==> Before(start[n].lo, tableDate)
        invariant tables == map n | n in start && (n in names || !Before(start[n].lo, tableDate)) :: start[n]
        decreases |names|
      {
        var n :| n in names;
        names := names - {n};
        tables := tables - {n};
      }
    }
  }

  // ----- Names and ranges

  /** Two partitions of one parent have the same name exactly when they have the same range, and
      otherwise they do not overlap. */
  lemma NamesAreRanges(cat: Catalog, a: Name, b: Name)
    requires Valid(cat) && a in cat && b in cat && a.parent == b.parent
    ensures a == b <==> cat[a].lo == cat[b].lo && cat[a].hi == cat[b].hi
    ensures a != b ==> !Overlap(cat[a], cat[b])
  {
  }

  lemma FreeNameMeansFreeRange(cat: Catalog, parent: string, h: HalfMonth)
    requires Valid(cat) && NameOf(parent, h) !in cat
    ensures forall n :: n in cat && n.parent == parent ==>
              !Overlap(cat[n], Table(FirstDay(h), EndDay(h), {}))
  {
    var grown := cat[NameOf(parent, h) := Table(FirstDay(h), EndDay(h), {})];
    assert Valid(grown);
    forall n | n in cat && n.parent == parent
      ensures !Overlap(cat[n], Table(FirstDay(h), EndDay(h), {}))
    {
      NamesAreRanges(grown, n, NameOf(parent, h));
    }
  }

  lemma WithHalfKeepsValid(cat: Catalog, parent: string, h: HalfMonth)
    requires Valid(cat)
    ensures Valid(WithHalf(cat, parent, h))
  {
  }

  lemma WithRecordKeepsValid(cat: Catalog, r: Record)
    requires Valid(cat)
    ensures Valid(WithRecord(cat, r))
  {
    var n, after := NameOf(r.parent, HalfOf(DateOf(r.time))), WithRecord(cat, r);
    if n in cat {
      assert IsHalfMonthTable(n, cat[n]);
      forall k | k in after ensures IsHalfMonthTable(k, after[k]) {
        assert IsHalfMonthTable(k, cat[k]);
      }
    }
  }

  lemma OnlyOneTableHolds(cat: Catalog, parent: string, d: Date)
    requires Valid(cat)
    ensures forall n :: n in cat && n.parent == parent ==>
              (Within(d, cat[n].lo, cat[n].hi) <==> n == NameOf(parent, HalfOf(d)))
  {
  }

  /** Two ranges overlap exactly when some date lies in both. */
  lemma OverlapIff(a: Table, b: Table)
    requires Before(a.lo, a.hi) && Before(b.lo, b.hi)
    ensures Overlap(a, b) <==> exists d: Date :: Within(d, a.lo, a.hi) && Within(d, b.lo, b.hi)
  {
    if Overlap(a, b) {
      var d := if Before(a.lo, b.lo) then b.lo else a.lo;
      assert Within(d, a.lo, a.hi) && Within(d, b.lo, b.hi);
    }
  }

  // ----- Every sequence of calls

  datatype Call =
    | Create(maxIntervalEnd: Instant, parent: string)
    | Insert(record: Record)
    | Drop(tableDate: Date)

  function Apply(cat: Catalog, c: Call): Catalog {
    match c
    case Create(m, parent) => WithRecentHalves(cat, parent, DateOf(m))
    case Insert(r) => WithRecord(cat, r)
    case Drop(d) => Without(cat, d)
  }

  function Run(cat: Catalog, calls: seq<Call>): Catalog
    decreases |calls|
  {
    if calls == [] then cat else Run(Apply(cat, calls[0]), calls[1..])
  }

  lemma ApplyKeepsValid(cat: Catalog, c: Call)
    requires Valid(cat)
    ensures Valid(Apply(cat, c))
  {
    if c.Create? {
      var h := HalfOf(DateOf(c.maxIntervalEnd));
      WithHalfKeepsValid(cat, c.parent, h);
      WithHalfKeepsValid(WithHalf(cat, c.parent, h), c.parent, PreviousHalf(h));
    }
  }

  lemma {:induction false} RunKeepsValid(cat: Catalog, calls: seq<Call>)
    requires Valid(cat)
    ensures Valid(Run(cat, calls))
    decreases |calls|
  {
    if calls != [] {
      ApplyKeepsValid(cat, calls[0]);
      RunKeepsValid(Apply(cat, calls[0]), calls[1..]);
    }
  }

  /** After any sequence of calls from an empty database the partitions of each parent are pairwise
      disjoint, names stand for ranges one to one, and the exists-by-name test is enough: a half-month
      whose name is free overlaps nothing. */
  lemma PartitionsNeverOverlap(calls: seq<Call>, a: Name, b: Name, parent: string, h: HalfMonth)
    ensures var cat := Run(map[], calls);
            && (a in cat && b in cat && a.parent == b.parent ==>
                  && (a == b <==> cat[a].lo == cat[b].lo && cat[a].hi == cat[b].hi)
                  && (a != b ==> !Overlap(cat[a], cat[b])))
            && (NameOf(parent, h) !in cat ==>
                  forall n :: n in cat && n.parent == parent ==>
                    !Overlap(cat[n], Table(FirstDay(h), EndDay(h), {})))
  {
    RunKeepsValid(map[], calls);
    var cat := Run(map[], calls);
    if a in cat && b in cat && a.parent == b.parent {
      NamesAreRanges(cat, a, b);
    }
    if NameOf(parent, h) !in cat {
      FreeNameMeansFreeRange(cat, parent, h);
    }
  }

  // ----- Coverage

  predicate Covered(cat: Catalog, parent: string, t: Instant) {
    exists n :: n in cat && n.parent == parent && Within(DateOf(t), cat[n].lo, cat[n].hi)
  }

  /** What one create call adds to the covered time: exactly the half-month of the date and the one before. */
  lemma CreateCovers(cat: Catalog, parent: string, m: Instant, t: Instant)
    requires Valid(cat)
    ensures Covered(Apply(cat, Create(m, parent)), parent, t) <==>
              || Covered(cat, parent, t)
              || HalfOf(DateOf(t)) == HalfOf(DateOf(m))
              || HalfOf(DateOf(t)) == PreviousHalf(HalfOf(DateOf(m)))
  {
    var after, h := Apply(cat, Create(m, parent)), HalfOf(DateOf(t));
    ApplyKeepsValid(cat, Create(m, parent));
    CoveredByName(cat, parent, t);
    CoveredByName(after, parent, t);
    NamesAfterCreate(cat, parent, HalfOf(DateOf(m)), h);
  }

  lemma CoveredByName(cat: Catalog, parent: string, t: Instant)
    requires Valid(cat)
    ensures Covered(cat, parent, t) <==> NameOf(parent, HalfOf(DateOf(t))) in cat
  {
    OnlyOneTableHolds(cat, parent, DateOf(t));
  }

  lemma NamesAfterCreate(cat: Catalog, parent: string, made: HalfMonth, h: HalfMonth)
    ensures NameOf(parent, h) in WithHalf(WithHalf(cat, parent, made), parent, PreviousHalf(made)) <==>
              NameOf(parent, h) in cat || h == made || h == PreviousHalf(made)
  {
    NamesDiffer(parent, h, made);
    NamesDiffer(parent, h, PreviousHalf(made));
  }

  lemma NamesDiffer(parent: string, a: HalfMonth, b: HalfMonth)
    ensures NameOf(parent, a) == NameOf(parent, b) <==> a == b
  {
  }

  lemma HalfBeforeIsLongEnough(d: Date)
    ensures DayNumber(FirstDay(PreviousHalf(HalfOf(d)))) <= DayNumber(d) - 13
  {
    var p := PreviousHalf(HalfOf(d));
    assert EndDay(p) == FirstDay(HalfOf(d));
    assert DayNumber(FirstDay(HalfOf(d))) <= DayNumber(d);
  }

  /** Right after a create call for `m`, every instant from 13 days before `m` up to `m` has a partition. */
  lemma RecentInstantsCovered(cat: Catalog, parent: string, m: Instant, t: Instant)
    requires Valid(cat)
    requires m - 13 * NS_PER_DAY <= t <= m
    ensures Covered(Apply(cat, Create(m, parent)), parent, t)
  {
    var d, e := DateOf(m), DateOf(t);
    var h, p := HalfOf(d), PreviousHalf(HalfOf(d));
    assert DayOf(m) - 13 <= DayOf(t) <= DayOf(m);
    HalfBeforeIsLongEnough(d);
    DayNumberOrder(e, FirstDay(p));
    DayNumberOrder(d, e);
    HalvesPartitionTheCalendar(d, h);
    HalvesPartitionTheCalendar(e, h);
    HalvesPartitionTheCalendar(e, p);
    CreateCovers(cat, parent, m, t);
  }

  /** Thirteen is the most that holds: when a March follows a 28-day February, the day 14 days before
      its start is not covered. */
  lemma FourteenDaysBackMayBeMissing(year: int, parent: string)
    requires !IsLeap(year)
    ensures var m := Midnight(CivilDate(year, 3, 1));
            !Covered(Apply(map[], Create(m, parent)), parent, m - 14 * NS_PER_DAY)
  {
    var m := Midnight(CivilDate(year, 3, 1));
    FourteenDaysBeforeMarch(year, m - 14 * NS_PER_DAY);
    MidFebruaryMissing(year, parent, m, m - 14 * NS_PER_DAY);
  }

  lemma FourteenDaysBeforeMarch(year: int, t: Instant)
    requires !IsLeap(year) && t == Midnight(CivilDate(year, 3, 1)) - 14 * NS_PER_DAY
    ensures DateOf(t) == CivilDate(year, 2, 15)
  {
    var march: Date, feb: Date := CivilDate(year, 3, 1), CivilDate(year, 2, 15);
    DivisionUnique(t, NS_PER_DAY, DayNumber(march) - 14, 0);
    MonthsApart(year, 2, 3);
    DayNumberOrder(DateOf(t), feb);
  }

  lemma MidFebruaryMissing(year: int, parent: string, m: Instant, t: Instant)
    requires DateOf(m) == CivilDate(year, 3, 1) && DateOf(t) == CivilDate(year, 2, 15)
    ensures !Covered(Apply(map[], Create(m, parent)), parent, t)
  {
    CreateCovers(map[], parent, m, t);
    assert PreviousHalf(HalfOf(DateOf(m))) == RawHalf(year, 2, true);
  }

  // ----- What happens to the records

  /** Creating partitions leaves every record. */
  lemma CreateKeepsRecords(cat: Catalog, maxIntervalEnd: Instant, parent: string)
    ensures Records(Apply(cat, Create(maxIntervalEnd, parent))) == Records(cat)
  {
    var h := HalfOf(DateOf(maxIntervalEnd));
    WithHalfKeepsRecords(cat, parent, h);
    WithHalfKeepsRecords(WithHalf(cat, parent, h), parent, PreviousHalf(h));
  }

  lemma WithHalfKeepsRecords(cat: Catalog, parent: string, h: HalfMonth)
    ensures Records(WithHalf(cat, parent, h)) == Records(cat)
  {
    var after := WithHalf(cat, parent, h);
    forall r ensures r in Records(after) <==> r in Records(cat) {
      if n :| n in cat && r in cat[n].rows {
        assert n in after && r in after[n].rows;
      }
    }
  }

  /** An insert adds its record, if there is a partition for it, and leaves all others. */
  lemma InsertAddsRecord(cat: Catalog, r: Record)
    requires Valid(cat)
    ensures Records(Apply(cat, Insert(r))) == if Covered(cat, r.parent, r.time) then Records(cat) + {r} else Records(cat)
  {
    CoveredByName(cat, r.parent, r.time);
    if Covered(cat, r.parent, r.time) {
      RecordAdded(cat, NameOf(r.parent, HalfOf(DateOf(r.time))), r);
    }
  }

  lemma RecordAdded(cat: Catalog, n: Name, r: Record)
    requires n in cat
    ensures Records(cat[n := cat[n].(rows := cat[n].rows + {r})]) == Records(cat) + {r}
  {
    var after := cat[n := cat[n].(rows := cat[n].rows + {r})];
    assert r in after[n].rows;
    forall x ensures x in Records(after) <==> x in Records(cat) || x == r {
      if k :| k in cat && x in cat[k].rows {
        assert k in after && x in after[k].rows;
      }
      if k :| k in after && x in after[k].rows {
        assert k in cat && (x in cat[k].rows || x == r);
      }
    }
  }

  // ----- What a drop keeps

  predicate IsHalfStart(d: Date) {
    d.day == 1 || d.day == 16
  }

  /** A drop removes whole half-months: a record survives exactly when its half starts no earlier than the date. */
  lemma DropKeeps(cat: Catalog, cutOff: Date, r: Record)
    requires Valid(cat)
    ensures r in Records(Without(cat, cutOff)) <==>
              r in Records(cat) && !Before(FirstDay(HalfOf(DateOf(r.time))), cutOff)
  {
    var rest := Without(cat, cutOff);
    if r in Records(cat) {
      var n :| n in cat && r in cat[n].rows;
      assert cat[n].lo == FirstDay(HalfOf(DateOf(r.time)));
      if !Before(cat[n].lo, cutOff) {
        assert n in rest && r in rest[n].rows;
      }
    }
    if r in Records(rest) {
      var n :| n in rest && r in rest[n].rows;
      assert n in cat && r in cat[n].rows;
      assert cat[n].lo == FirstDay(HalfOf(DateOf(r.time)));
    }
  }

  /** With a cut-off that starts a half-month no partition straddles it, so the drop keeps exactly the
      records dated on or after it. */
  lemma DropAtHalfStartIsExact(cat: Catalog, cutOff: Date, r: Record)
    requires Valid(cat) && IsHalfStart(cutOff)
    ensures r in Records(Without(cat, cutOff)) <==> r in Records(cat) && !Before(DateOf(r.time), cutOff)
    ensures forall n :: n in Without(cat, cutOff) ==> !Before(cat[n].lo, cutOff)
    ensures forall n :: n in cat && n !in Without(cat, cutOff) ==> !Before(cutOff, cat[n].hi)
  {
    DropKeeps(cat, cutOff, r);
    forall n | n in cat && n !in Without(cat, cutOff)
      ensures !Before(cutOff, cat[n].hi)
    {
      var h: HalfMonth := RawHalf(n.year, n.month, n.startDay == 16);
      HalvesPartitionTheCalendar(cutOff, h);
      assert cat[n].hi == EndDay(h);
    }
  }
}
