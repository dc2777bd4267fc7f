/** Sums carried along a pipeline, and grouping by a key. */
module Grouping {

  /** The sums of the three usage columns. */
  datatype Sums = Sums(cpu: real, memory: real, rss: real) {
    function Plus(other: Sums): Sums {
      Sums(cpu + other.cpu, memory + other.memory, rss + other.rss)
    }
  }

  const ZERO: Sums := Sums(0.0, 0.0, 0.0)

  function Total<T>(xs: seq<T>, f: T -> Sums): Sums {
    if xs == [] then ZERO else Total(xs[..|xs| - 1], f).Plus(f(xs[|xs| - 1]))
  }

  function Flatten<T>(groups: seq<seq<T>>): seq<T> {
    if groups == [] then [] else Flatten(groups[..|groups| - 1]) + groups[|groups| - 1]
  }

  lemma {:induction false} TotalConcat<T>(a: seq<T>, b: seq<T>, f: T -> Sums)
    ensures Total(a + b, f) == Total(a, f).Plus(Total(b, f))
    decreases |b|
  {
    if b == [] {
      assert a + b == a;
    } else {
      var n := |b| - 1;
      assert (a + b)[..|a + b| - 1] == a + b[..n];
      TotalConcat(a, b[..n], f);
    }
  }

  lemma TotalOne<T>(x: T, f: T -> Sums)
    ensures Total([x], f) == f(x)
  {
    assert [x][..0] == [];
  }

  lemma {:induction false} TotalWithout<T>(xs: seq<T>, i: nat, f: T -> Sums)
    requires i < |xs|
    ensures Total(xs, f) == Total(xs[..i] + xs[i + 1..], f).Plus(f(xs[i]))
  {
    TotalConcat(xs[..i], xs[i..], f);
    TotalConcat([xs[i]], xs[i + 1..], f);
    TotalConcat(xs[..i], xs[i + 1..], f);
    assert xs == xs[..i] + xs[i..] && xs[i..] == [xs[i]] + xs[i + 1..];
    assert [xs[i]][..0] == [] && Total([xs[i]][..0], f) == ZERO;
  }

  lemma MultisetWithout<T>(xs: seq<T>, i: nat)
    requires i < |xs|
    ensures multiset(xs[..i] + xs[i + 1..]) == multiset(xs) - multiset{xs[i]}
  {
    assert xs == xs[..i] + [xs[i]] + xs[i + 1..];
  }

  /** Where a permutation has the first element; without it the rest is a permutation too. */
  lemma SamePosition<T>(a: seq<T>, b: seq<T>) returns (i: nat)
    requires a != [] && multiset(a) == multiset(b)
    ensures i < |b| && b[i] == a[0]
    ensures multiset(a[..0] + a[1..]) == multiset(b[..i] + b[i + 1..])
  {
    assert a[0] in multiset(b);
    i :| i < |b| && b[i] == a[0];
    MultisetWithout(a, 0);
    MultisetWithout(b, i);
  }

  /** A total does not depend on the order. */
  lemma {:induction false} TotalPermuted<T>(a: seq<T>, b: seq<T>, f: T -> Sums)
    requires multiset(a) == multiset(b)
    ensures Total(a, f) == Total(b, f)
    decreases |a|
  {
    if a == [] {
      assert |multiset(b)| == |b|;
    } else {
      var i := SamePosition(a, b);
      TotalPermuted(a[..0] + a[1..], b[..i] + b[i + 1..], f);
      TotalWithout(a, 0, f);
      TotalWithout(b, i, f);
    }
  }

  function Map<T, U>(f: T -> U, xs: seq<T>): seq<U> {
    seq(|xs|, i requires 0 <= i < |xs| => f(xs[i]))
  }

  lemma MapConcat<T, U>(f: T -> U, a: seq<T>, b: seq<T>)
    ensures Map(f, a + b) == Map(f, a) + Map(f, b)
  {
  }

  lemma MapWithout<T, U>(f: T -> U, xs: seq<T>, i: nat)
    requires i < |xs|
    ensures multiset(Map(f, xs)) == multiset(Map(f, xs[..i] + xs[i + 1..])) + multiset{f(xs[i])}
  {
    var before, after := xs[..i], xs[i + 1..];
    MapConcat(f, before, after);
    assert Map(f, xs) == Map(f, before) + [f(xs[i])] + Map(f, after);
  }

  /** Neither does what a function makes of each element. */
  lemma {:induction false} MapPermuted<T, U>(f: T -> U, a: seq<T>, b: seq<T>)
    requires multiset(a) == multiset(b)
    ensures multiset(Map(f, a)) == multiset(Map(f, b))
    decreases |a|
  {
    if a == [] {
      assert |multiset(b)| == |b|;
    } else {
      var i := SamePosition(a, b);
      MapPermuted(f, a[..0] + a[1..], b[..i] + b[i + 1..]);
      MapWithout(f, a, 0);
      MapWithout(f, b, i);
    }
  }

  lemma {:induction false} TotalPointwise<T, U>(xs: seq<T>, ys: seq<U>, f: T -> Sums, g: U -> Sums)
    requires |xs| == |ys| && forall i :: 0 <= i < |xs| ==> f(xs[i]) == g(ys[i])
    ensures Total(xs, f) == Total(ys, g)
  {
    if xs != [] {
      TotalPointwise(xs[..|xs| - 1], ys[..|ys| - 1], f, g);
    }
  }

  /** What stands for each group with the group's total has the total of all. */
  lemma {:induction false} TotalOfGroups<T, U>(groups: seq<seq<T>>, us: seq<U>, f: T -> Sums, g: U -> Sums)
    requires |groups| == |us| && forall i :: 0 <= i < |us| ==> g(us[i]) == Total(groups[i], f)
    ensures Total(us, g) == Total(Flatten(groups), f)
  {
    if us != [] {
      var n := |us| - 1;
      TotalOfGroups(groups[..n], us[..n], f, g);
      TotalConcat(Flatten(groups[..n]), groups[n], f);
    }
  }

  lemma {:induction false} FlattenConcat<T>(a: seq<seq<T>>, b: seq<seq<T>>)
    ensures Flatten(a + b) == Flatten(a) + Flatten(b)
    decreases |b|
  {
    if b == [] {
      assert a + b == a;
    } else {
      var n, whole := |b| - 1, a + b;
      assert whole[..|whole| - 1] == a + b[..n] && whole[|whole| - 1] == b[n];
      FlattenConcat(a, b[..n]);
      assert Flatten(a) + Flatten(b[..n]) + b[n] == Flatten(a) + Flatten(b);
    }
  }

  lemma FlattenOne<T>(g: seq<T>)
    ensures Flatten([g]) == g
  {
  }

  lemma {:induction false} FlattenMember<T>(groups: seq<seq<T>>, i: nat, x: T)
    requires i < |groups| && x in groups[i]
    ensures x in Flatten(groups)
  {
    if i < |groups| - 1 {
      FlattenMember(groups[..|groups| - 1], i, x);
    }
  }

  ghost predicate OneKeyEach<T, K>(groups: seq<seq<T>>, key: T -> K) {
    && (forall i :: 0 <= i < |groups| ==> groups[i] != [])
    && (forall i, x :: 0 <= i < |groups| && x in groups[i] ==> key(x) == key(groups[i][0]))
    && (forall i, j :: 0 <= i < j < |groups| ==> key(groups[i][0]) != key(groups[j][0]))
  }

  /** The rows of one key, in order. */
  function Select<T, K(==)>(rows: seq<T>, key: T -> K, k: K): seq<T> {
    if rows == [] then []
    else Select(rows[..|rows| - 1], key, k) + (if key(rows[|rows| - 1]) == k then [rows[|rows| - 1]] else [])
  }

  /** Selecting takes the rows of the key, each as often and in the order they come in. */
  lemma {:induction false} SelectConcat<T, K>(a: seq<T>, b: seq<T>, key: T -> K, k: K)
    ensures Select(a + b, key, k) == Select(a, key, k) + Select(b, key, k)
    decreases |b|
  {
    if b == [] {
      assert a + b == a;
    } else {
      var n := |b| - 1;
      assert (a + b)[..|a + b| - 1] == a + b[..n];
      SelectConcat(a, b[..n], key, k);
    }
  }

  lemma SelectOne<T, K>(x: T, key: T -> K, k: K)
    ensures Select([x], key, k) == if key(x) == k then [x] else []
  {
    assert [x][..0] == [];
  }

  /** Every row in one group, each group the rows of one key; the groups themselves are in any order. */
  ghost predicate IsGrouping<T, K>(groups: seq<seq<T>>, rows: seq<T>, key: T -> K) {
    && multiset(Flatten(groups)) == multiset(rows)
    && OneKeyEach(groups, key)
    && forall i :: 0 <= i < |groups| ==> groups[i] == Select(rows, key, key(groups[i][0]))
  }

  lemma {:induction false} NothingSelected<T, K>(rows: seq<T>, key: T -> K, k: K)
    requires forall x :: x in rows ==> key(x) != k
    ensures Select(rows, key, k) == []
  {
    if rows != [] {
      NothingSelected(rows[..|rows| - 1], key, k);
    }
  }

  lemma {:induction false} MemberOfGroup<T>(groups: seq<seq<T>>, x: T) returns (i: nat)
    requires x in Flatten(groups)
    ensures i < |groups| && x in groups[i]
  {
    var n := |groups| - 1;
    if x in groups[n] {
      i := n;
    } else {
      i := MemberOfGroup(groups[..n], x);
    }
  }

  lemma NewKeyUnseen<T, K>(groups: seq<seq<T>>, rows: seq<T>, x: T, key: T -> K)
    requires IsGrouping(groups, rows, key) && forall i :: 0 <= i < |groups| ==> key(groups[i][0]) != key(x)
    ensures Select(rows, key, key(x)) == []
  {
    forall y | y in rows ensures key(y) != key(x) {
      assert y in multiset(rows);
      var i := MemberOfGroup(groups, y);
    }
    NothingSelected(rows, key, key(x));
  }

  lemma SelectedAfter<T, K>(groups: seq<seq<T>>, r: seq<seq<T>>, rows: seq<T>, x: T, key: T -> K, j: nat)
    requires IsGrouping(groups, rows, key) && j <= |groups|
    requires j < |groups| ==> key(groups[j][0]) == key(x) && r == groups[j := groups[j] + [x]]
    requires j == |groups| ==> r == groups + [[x]] && Select(rows, key, key(x)) == []
    requires OneKeyEach(r, key)
    ensures forall i :: 0 <= i < |r| ==> r[i] == Select(rows + [x], key, key(r[i][0]))
  {
  }

  lemma AppendKeepsKeys<T, K>(groups: seq<seq<T>>, j: nat, x: T, key: T -> K)
    requires OneKeyEach(groups, key) && j < |groups| && key(groups[j][0]) == key(x)
    ensures OneKeyEach(groups[j := groups[j] + [x]], key)
  {
  }

  lemma NewGroupKeepsKeys<T, K>(groups: seq<seq<T>>, x: T, key: T -> K)
    requires OneKeyEach(groups, key) && forall i :: 0 <= i < |groups| ==> key(groups[i][0]) != key(x)
    ensures OneKeyEach(groups + [[x]], key)
  {
  }

  lemma AppendToGroup<T>(groups: seq<seq<T>>, j: nat, x: T)
    requires j < |groups|
    ensures multiset(Flatten(groups[j := groups[j] + [x]])) == multiset(Flatten(groups)) + multiset{x}
  {
    var before, after := groups[..j], groups[j + 1..];
    assert groups == before + [groups[j]] + after;
    assert groups[j := groups[j] + [x]] == before + [groups[j] + [x]] + after;
    FlattenThree(before, groups[j], after);
    FlattenThree(before, groups[j] + [x], after);
  }

  lemma FlattenThree<T>(before: seq<seq<T>>, g: seq<T>, after: seq<seq<T>>)
    ensures Flatten(before + [g] + after) == Flatten(before) + g + Flatten(after)
  {
    FlattenConcat(before + [g], after);
    FlattenConcat(before, [g]);
    FlattenOne(g);
  }

  method AddToGroups<T, K(==)>(groups: seq<seq<T>>, ghost rows: seq<T>, x: T, key: T -> K) returns (r: seq<seq<T>>)
    requires IsGrouping(groups, rows, key)
    ensures IsGrouping(r, rows + [x], key)
  {
    var j := 0;
    while j < |groups| && key(groups[j][0]) != key(x)
      invariant 0 <= j <= |groups|
      invariant forall i :: 0 <= i < j ==> key(groups[i][0]) != key(x)
    {
      j := j + 1;
    }
    if j < |groups| {
      AppendToGroup(groups, j, x);
      AppendKeepsKeys(groups, j, x, key);
      r := groups[j := groups[j] + [x]];
      SelectedAfter(groups, r, rows, x, key, j);
    } else {
      FlattenConcat(groups, [[x]]);
      FlattenOne([x]);
      NewGroupKeepsKeys(groups, x, key);
      NewKeyUnseen(groups, rows, x, key);
      r := groups + [[x]];
      SelectedAfter(groups, r, rows, x, key, |groups|);
    }
  }

  lemma NoGroups<T, K>(key: T -> K)
    ensures IsGrouping([], [], key)
  {
  }

  method GroupBy<T, K(==)>(rows: seq<T>, key: T -> K) returns (groups: seq<seq<T>>)
    ensures IsGrouping(groups, rows, key)
  {
    if rows == [] {
      NoGroups<T, K>(key);
      return [];
    }
    var n := |rows| - 1;
    var earlier := GroupBy(rows[..n], key);
    groups := AddToGroups(earlier, rows[..n], rows[n], key);
    assert rows[..n] + [rows[n]] == rows;
  }

  lemma GroupMember<T, K>(groups: seq<seq<T>>, rows: seq<T>, key: T -> K, i: nat, x: T)
    requires IsGrouping(groups, rows, key) && i < |groups| && x in groups[i]
    ensures x in rows
  {
    FlattenMember(groups, i, x);
    assert x in multiset(Flatten(groups));
  }

  lemma {:induction false} InSomeGroup<T, K>(groups: seq<seq<T>>, rows: seq<T>, key: T -> K, x: T) returns (i: nat)
    requires IsGrouping(groups, rows, key) && x in rows
    ensures i < |groups| && x in groups[i] && key(x) == key(groups[i][0])
  {
    assert x in multiset(rows);
    i := MemberOfGroup(groups, x);
  }
}

/** From the rows of a usage report to the chunks sent to Kruize. */
module Aggregation {
  import opened Wrappers
  import opened Calendar
  import opened Grouping

  /** One usage metric of a CSV row, None standing for NaN. */
  datatype Usage = Usage(sum: Option<real>, max: Option<real>, min: Option<real>, avg: Option<real>)

  datatype CsvRow = CsvRow(
    namespace: string, ownerKind: string, ownerName: string,
    workload: string, workloadType: string,
    container: string, image: string,
    intervalStart: string, intervalEnd: string,
    cpu: Usage, memory: Usage, rss: Usage)

  /** A row with the Kubernetes object it is attributed to. */
  datatype ObjectRow = ObjectRow(row: CsvRow, objectType: string, objectName: string)

  datatype AggregateKey = AggregateKey(
    namespace: string, objectType: string, objectName: string, workload: string,
    container: string, image: string, intervalStart: string, intervalEnd: string)

  datatype Aggregate = Aggregate(key: AggregateKey, sums: Sums)

  datatype ExperimentKey = ExperimentKey(namespace: string, objectType: string, objectName: string)

  datatype Container = Container(image: string, name: string, sums: Sums)

  datatype UpdateResult = UpdateResult(
    experiment: ExperimentKey, intervalStart: string, intervalEnd: string, containers: seq<Container>)

  // ----- filterValidCSVRecords and determine_k8s_object_type

  function LowerChar(c: char): char {
    if 'A' <= c <= 'Z' then c + 'a' - 'A' else c
  }

  function ToLower(s: string): string {
    seq(|s|, i requires 0 <= i < |s| => LowerChar(s[i]))
  }

  const WORKLOAD_TYPES: set<string> := {
    "daemonset", "deployment", "deploymentconfig", "replicaset", "replicationcontroller", "statefulset"}

  predicate AtLeastZero(x: Option<real>) {
    x.Some? && x.value >= 0.0
  }

  predicate ValidUsage(u: Usage) {
    AtLeastZero(u.sum) && AtLeastZero(u.max) && AtLeastZero(u.min) && AtLeastZero(u.avg)
  }

  predicate Given(s: string) {
    s != "" && s != "<none>"
  }

  predicate IsKept(r: CsvRow) {
    && ValidUsage(r.cpu) && ValidUsage(r.memory) && ValidUsage(r.rss)
    && Given(r.ownerKind) && Given(r.ownerName) && Given(r.workloadType)
    && ToLower(r.workloadType) in WORKLOAD_TYPES
  }

  function Kept(rows: seq<CsvRow>): seq<CsvRow> {
    if rows == [] then []
    else
      var last := rows[|rows| - 1];
      Kept(rows[..|rows| - 1]) + (if IsKept(last) then [last.(workloadType := ToLower(last.workloadType))] else [])
  }

  function Attribute(r: CsvRow): ObjectRow {
    if ToLower(r.ownerKind) == "replicaset" && !Given(r.workload) then ObjectRow(r, "replicaset", r.ownerName)
    else if ToLower(r.ownerKind) == "replicationcontroller" && !Given(r.workload) then
      ObjectRow(r, "replicationcontroller", r.ownerName)
    else ObjectRow(r, r.workloadType, r.workload)
  }

  lemma LowerCase(s: string, i: nat)
    requires i < |s|
    ensures |ToLower(s)| == |s|
    ensures ToLower(s)[i] == if 65 <= s[i] as int <= 90 then (s[i] as int + 32) as char else s[i]
  {
  }

  datatype Metric = CpuUsage | MemoryUsage | MemoryRss

  datatype Measure = SumOf | MaxOf | MinOf | AvgOf

  function Measured(r: CsvRow, metric: Metric, measure: Measure): Option<real> {
    var u := match metric case CpuUsage => r.cpu case MemoryUsage => r.memory case MemoryRss => r.rss;
    match measure case SumOf => u.sum case MaxOf => u.max case MinOf => u.min case AvgOf => u.avg
  }

  /** Which rows are kept: all twelve values of the three usages are there and not negative, the owner and the
      workload type are given, and the type is one of six, in whatever case. */
  lemma KeptIff(r: CsvRow)
    ensures IsKept(r) <==>
              && (forall metric: Metric, measure: Measure ::
                    Measured(r, metric, measure).Some? && Measured(r, metric, measure).value >= 0.0)
              && r.ownerKind !in {"", "<none>"} && r.ownerName !in {"", "<none>"} && r.workloadType !in {"", "<none>"}
              && ToLower(r.workloadType) in {"daemonset", "deployment", "deploymentconfig", "replicaset",
                                             "replicationcontroller", "statefulset"}
  {
    UsageIff(r, CpuUsage, r.cpu);
    UsageIff(r, MemoryUsage, r.memory);
    UsageIff(r, MemoryRss, r.rss);
  }

  lemma UsageIff(r: CsvRow, metric: Metric, u: Usage)
    requires u == match metric case CpuUsage => r.cpu case MemoryUsage => r.memory case MemoryRss => r.rss
    ensures ValidUsage(u) <==>
              forall measure: Measure :: Measured(r, metric, measure).Some? && Measured(r, metric, measure).value >= 0.0
  {
    assert Measured(r, metric, SumOf) == u.sum && Measured(r, metric, MaxOf) == u.max;
    assert Measured(r, metric, MinOf) == u.min && Measured(r, metric, AvgOf) == u.avg;
  }

  /** The kept rows are the rows that pass, in order, each with its workload type in lower case. */
  lemma {:induction false} KeptConcat(a: seq<CsvRow>, b: seq<CsvRow>)
    ensures Kept(a + b) == Kept(a) + Kept(b)
    decreases |b|
  {
    if b == [] {
      assert a + b == a;
    } else {
      var n := |b| - 1;
      assert (a + b)[..|a + b| - 1] == a + b[..n];
      KeptConcat(a, b[..n]);
    }
  }

  lemma KeptOne(r: CsvRow)
    ensures Kept([r]) == if IsKept(r) then [r.(workloadType := ToLower(r.workloadType))] else []
  {
    assert [r][..0] == [];
  }

  /** A pod without a workload counts for its replica set or replication controller, any other for its workload. */
  lemma AttributedTo(r: CsvRow)
    ensures var o, kind := Attribute(r), ToLower(r.ownerKind);
            && o.row == r
            && (r.workload in {"", "<none>"} && kind in {"replicaset", "replicationcontroller"} ==>
                  o.objectType == kind && o.objectName == r.ownerName)
            && (r.workload !in {"", "<none>"} || kind !in {"replicaset", "replicationcontroller"} ==>
                  o.objectType == r.workloadType && o.objectName == r.workload)
  {
  }

  // ----- What is summed, at each level

  function ValueOr0(x: Option<real>): real {
    if x.Some? then x.value else 0.0
  }

  function RowSums(r: CsvRow): Sums {
    Sums(ValueOr0(r.cpu.sum), ValueOr0(r.memory.sum), ValueOr0(r.rss.sum))
  }

  function ObjectRowSums(r: ObjectRow): Sums {
    RowSums(r.row)
  }

  function AggregateSums(a: Aggregate): Sums {
    a.sums
  }

  function ContainerSums(c: Container): Sums {
    c.sums
  }

  function ResultSums(u: UpdateResult): Sums {
    Total(u.containers, ContainerSums)
  }

  // ----- Keys

  function AggregateKeyOf(r: ObjectRow): AggregateKey {
    AggregateKey(r.row.namespace, r.objectType, r.objectName, r.row.workload,
                 r.row.container, r.row.image, r.row.intervalStart, r.row.intervalEnd)
  }

  function ExperimentKeyOf(a: Aggregate): ExperimentKey {
    ExperimentKey(a.key.namespace, a.key.objectType, a.key.objectName)
  }

  function IntervalEndOf(a: Aggregate): string {
    a.key.intervalEnd
  }

  /** Rows are aggregated together exactly when they agree in eight columns. */
  lemma SameAggregateIff(a: ObjectRow, b: ObjectRow)
    ensures AggregateKeyOf(a) == AggregateKeyOf(b) <==>
              && a.row.namespace == b.row.namespace && a.objectType == b.objectType && a.objectName == b.objectName
              && a.row.workload == b.row.workload && a.row.container == b.row.container && a.row.image == b.row.image
              && a.row.intervalStart == b.row.intervalStart && a.row.intervalEnd == b.row.intervalEnd
  {
  }

  /** Aggregates are of one experiment exactly when they are of one object of one namespace. */
  lemma SameExperimentIff(a: Aggregate, b: Aggregate)
    ensures ExperimentKeyOf(a) == ExperimentKeyOf(b) <==>
              a.key.namespace == b.key.namespace && a.key.objectType == b.key.objectType && a.key.objectName == b.key.objectName
  {
  }

  /** A kept row is aggregated under its own namespace, object, workload, container, image and interval, with
      the sums of its three columns. */
  lemma AggregatedAs(r: CsvRow)
    requires IsKept(r)
    ensures var kept := r.(workloadType := ToLower(r.workloadType));
            var k, o := AggregateKeyOf(Attribute(kept)), Attribute(kept);
            && RowSums(kept) == Sums(r.cpu.sum.value, r.memory.sum.value, r.rss.sum.value)
            && k.namespace == r.namespace && k.workload == r.workload && k.container == r.container && k.image == r.image
            && k.intervalStart == r.intervalStart && k.intervalEnd == r.intervalEnd
            && k.objectType == o.objectType && k.objectName == o.objectName
  {
  }

  /** How a timestamp column parses. */
  type Clock = string -> Option<Instant>

  predicate TimesParse(clock: Clock, r: CsvRow) {
    clock(r.intervalStart).Some? && clock(r.intervalEnd).Some?
  }

  predicate AggregateTimesParse(clock: Clock, a: Aggregate) {
    clock(a.key.intervalStart).Some? && clock(a.key.intervalEnd).Some?
  }

  // ----- The pipeline

  method FilterValidCSVRecords(rows: seq<CsvRow>) returns (kept: seq<CsvRow>, dropped: nat)
    ensures kept == Kept(rows) && |kept| + dropped == |rows|
  {
    kept, dropped := [], 0;
    for i := 0 to |rows|
      invariant kept == Kept(rows[..i]) && |kept| + dropped == i
    {
      assert rows[..i + 1][..i] == rows[..i];
      if IsKept(rows[i]) {
        kept := kept + [rows[i].(workloadType := ToLower(rows[i].workloadType))];
      } else {
        dropped := dropped + 1;
      }
    }
    assert rows[..|rows|] == rows;
  }

  function AggregateOf(g: seq<ObjectRow>): Aggregate
    requires g != []
  {
    Aggregate(AggregateKeyOf(g[0]), Total(g, ObjectRowSums))
  }

  ghost predicate HasKey(aggregates: seq<Aggregate>, k: AggregateKey) {
    exists i :: 0 <= i < |aggregates| && aggregates[i].key == k
  }

  /** The aggregate has the key of some row and the sums of exactly the rows of that key. */
  ghost predicate SumsRows(a: Aggregate, objects: seq<ObjectRow>) {
    && (exists o :: o in objects && AggregateKeyOf(o) == a.key)
    && a.sums == Total(Select(objects, AggregateKeyOf, a.key), ObjectRowSums)
  }

  /** One aggregate for each key of the rows. */
  ghost predicate AggregatesOf(aggregates: seq<Aggregate>, objects: seq<ObjectRow>) {
    && (forall i, j :: 0 <= i < j < |aggregates| ==> aggregates[i].key != aggregates[j].key)
    && (forall o :: o in objects ==> HasKey(aggregates, AggregateKeyOf(o)))
    && (forall i :: 0 <= i < |aggregates| ==> SumsRows(aggregates[i], objects))
  }

  /** One aggregate for each key, with the sums of all rows of that key. */
  method AggregateObjects(objects: seq<ObjectRow>) returns (aggregates: seq<Aggregate>)
    ensures AggregatesOf(aggregates, objects)
    ensures Total(aggregates, AggregateSums) == Total(objects, ObjectRowSums)
  {
    var groups := GroupBy(objects, AggregateKeyOf);
    aggregates := [];
    for i := 0 to |groups|
      invariant |aggregates| == i
      invariant forall j :: 0 <= j < i ==> aggregates[j] == AggregateOf(groups[j])
    {
      assert groups[i] != [];
      aggregates := aggregates + [AggregateOf(groups[i])];
    }
    GroupTotals(groups, objects, aggregates);
    GroupsAggregated(groups, objects, aggregates);
  }

  lemma GroupsAggregated(groups: seq<seq<ObjectRow>>, objects: seq<ObjectRow>, aggregates: seq<Aggregate>)
    requires IsGrouping(groups, objects, AggregateKeyOf) && |aggregates| == |groups|
    requires forall i :: 0 <= i < |groups| ==> aggregates[i] == AggregateOf(groups[i])
    ensures AggregatesOf(aggregates, objects)
  {
    forall i | 0 <= i < |aggregates| ensures SumsRows(aggregates[i], objects) {
      GroupMember(groups, objects, AggregateKeyOf, i, groups[i][0]);
    }
    forall o | o in objects ensures HasKey(aggregates, AggregateKeyOf(o)) {
      var i := InSomeGroup(groups, objects, AggregateKeyOf, o);
      assert aggregates[i].key == AggregateKeyOf(o);
    }
  }

  lemma GroupTotals(groups: seq<seq<ObjectRow>>, objects: seq<ObjectRow>, aggregates: seq<Aggregate>)
    requires IsGrouping(groups, objects, AggregateKeyOf) && |aggregates| == |groups|
    requires forall i :: 0 <= i < |groups| ==> aggregates[i] == AggregateOf(groups[i])
    ensures Total(aggregates, AggregateSums) == Total(objects, ObjectRowSums)
  {
    TotalOfGroups(groups, aggregates, ObjectRowSums, AggregateSums);
    TotalPermuted(Flatten(groups), objects, ObjectRowSums);
  }

  function Attributed(rows: seq<CsvRow>): seq<ObjectRow> {
    Map(Attribute, rows)
  }

  lemma RowOfAttributed(rows: seq<CsvRow>, i: nat)
    requires i < |rows|
    ensures Attributed(rows)[i].row == rows[i]
  {
    assert Map(Attribute, rows)[i] == Attribute(rows[i]);
    assert Attribute(rows[i]).row == rows[i];
  }

  lemma SumsOfAttributed(rows: seq<CsvRow>)
    ensures Total(rows, RowSums) == Total(Attributed(rows), ObjectRowSums)
  {
    forall i | 0 <= i < |rows| ensures RowSums(rows[i]) == ObjectRowSums(Attributed(rows)[i]) {
      RowOfAttributed(rows, i);
    }
    TotalPointwise(rows, Attributed(rows), RowSums, ObjectRowSums);
  }

  /** One aggregate for each key of the kept rows; no row kept is an error. */
  method AggregateData(rows: seq<CsvRow>) returns (aggregates: seq<Aggregate>, dropped: nat, err: bool)
    ensures |Kept(rows)| + dropped == |rows|
    ensures err <==> Kept(rows) == []
    ensures err ==> aggregates == []
    ensures AggregatesOf(aggregates, Attributed(Kept(rows)))
    ensures Total(aggregates, AggregateSums) == Total(Kept(rows), RowSums)
  {
    var kept;
    kept, dropped := FilterValidCSVRecords(rows);
    aggregates, err := [], kept == [];
    if err {
      return;
    }
    SumsOfAttributed(kept);
    aggregates := AggregateObjects(Attributed(kept));
  }

  /** The latest of the times, or None when one does not parse. */
  method MaxIntervalEndTime(clock: Clock, times: seq<string>) returns (max: Option<Instant>)
    requires times != []
    ensures max.None? <==> exists i :: 0 <= i < |times| && clock(times[i]).None?
    ensures max.Some? ==>
              && (exists i :: 0 <= i < |times| && clock(times[i]) == max)
              && forall i :: 0 <= i < |times| ==> clock(times[i]).value <= max.value
  {
    var converted: seq<Instant> := [];
    for i := 0 to |times|
      invariant |converted| == i
      invariant forall j :: 0 <= j < i ==> clock(times[j]) == Some(converted[j])
    {
      var t := clock(times[i]);
      if t.None? {
        return None;
      }
      converted := converted + [t.value];
    }
    var best := Latest(converted);
    max := Some(best);
    ghost var j :| 0 <= j < |converted| && converted[j] == best;
    assert clock(times[j]) == max;
    forall i | 0 <= i < |times| ensures clock(times[i]).value <= best {
      assert converted[i] in converted;
    }
  }

  method Latest(converted: seq<Instant>) returns (best: Instant)
    requires converted != []
    ensures best in converted && forall t :: t in converted ==> t <= best
  {
    best := converted[0];
    for i := 0 to |converted|
      invariant best in converted
      invariant forall j :: 0 <= j < i ==> converted[j] <= best
    {
      if best < converted[i] {
        best := converted[i];
      }
    }
  }

  // ----- Nothing is lost or sent twice

  /** A container's share of an interval of an experiment: what is sent to Kruize. */
  datatype Item = Item(experiment: ExperimentKey, intervalEnd: string, container: Container)

  function ContainerOf(a: Aggregate): Container {
    Container(a.key.image, a.key.container, a.sums)
  }

  function ItemOf(a: Aggregate): Item {
    Item(ExperimentKeyOf(a), IntervalEndOf(a), ContainerOf(a))
  }

  function ResultItems(u: UpdateResult): seq<Item> {
    seq(|u.containers|, i requires 0 <= i < |u.containers| => Item(u.experiment, u.intervalEnd, u.containers[i]))
  }

  function ItemsOf(results: seq<UpdateResult>): seq<Item> {
    Flatten(Map(ResultItems, results))
  }

  function ItemSums(x: Item): Sums {
    x.container.sums
  }

  /** The items sent and those of the aggregates skipped are together those of all aggregates, each as often. */
  ghost predicate Conserved(sent: seq<UpdateResult>, skipped: seq<Aggregate>, all: seq<Aggregate>) {
    multiset(ItemsOf(sent)) + multiset(Map(ItemOf, skipped)) == multiset(Map(ItemOf, all))
  }

  /** No interval of an experiment is sent in two results. */
  predicate Distinct(results: seq<UpdateResult>) {
    forall i, j :: 0 <= i < j < |results| ==>
      results[i].experiment != results[j].experiment || results[i].intervalEnd != results[j].intervalEnd
  }

  lemma ItemsConcat(a: seq<UpdateResult>, b: seq<UpdateResult>)
    ensures ItemsOf(a + b) == ItemsOf(a) + ItemsOf(b)
  {
    MapConcat(ResultItems, a, b);
    FlattenConcat(Map(ResultItems, a), Map(ResultItems, b));
  }

  lemma ConservedTogether(sent: seq<UpdateResult>, skipped: seq<Aggregate>, all: seq<Aggregate>,
                          sent': seq<UpdateResult>, skipped': seq<Aggregate>, all': seq<Aggregate>)
    requires Conserved(sent, skipped, all) && Conserved(sent', skipped', all')
    ensures Conserved(sent + sent', skipped + skipped', all + all')
  {
    ItemsConcat(sent, sent');
    MapConcat(ItemOf, skipped, skipped');
    MapConcat(ItemOf, all, all');
  }

  lemma ConservedPermuted(sent: seq<UpdateResult>, skipped: seq<Aggregate>, all: seq<Aggregate>, all': seq<Aggregate>)
    requires Conserved(sent, skipped, all) && multiset(all) == multiset(all')
    ensures Conserved(sent, skipped, all')
  {
    MapPermuted(ItemOf, all, all');
  }

  lemma {:induction false} TotalOfItems(results: seq<UpdateResult>)
    ensures Total(ItemsOf(results), ItemSums) == Total(results, ResultSums)
  {
    forall i | 0 <= i < |results| ensures ResultSums(results[i]) == Total(Map(ResultItems, results)[i], ItemSums) {
      TotalPointwise(results[i].containers, ResultItems(results[i]), ContainerSums, ItemSums);
    }
    TotalOfGroups(Map(ResultItems, results), results, ItemSums, ResultSums);
  }

  /** Where the items are conserved, so are the sums. */
  lemma ConservedSums(sent: seq<UpdateResult>, skipped: seq<Aggregate>, all: seq<Aggregate>)
    requires Conserved(sent, skipped, all)
    ensures Total(sent, ResultSums).Plus(Total(skipped, AggregateSums)) == Total(all, AggregateSums)
  {
    TotalOfItems(sent);
    TotalPointwise(skipped, Map(ItemOf, skipped), AggregateSums, ItemSums);
    TotalPointwise(all, Map(ItemOf, all), AggregateSums, ItemSums);
    TotalConcat(ItemsOf(sent), Map(ItemOf, skipped), ItemSums);
    TotalPermuted(ItemsOf(sent) + Map(ItemOf, skipped), Map(ItemOf, all), ItemSums);
  }

  ghost predicate AllParse(clock: Clock, aggregates: seq<Aggregate>) {
    forall a :: a in aggregates ==> AggregateTimesParse(clock, a)
  }

  // ----- One experiment

  /** The containers are those of the aggregates, in order. */
  predicate HoldsAll(containers: seq<Container>, g: seq<Aggregate>) {
    && |containers| == |g|
    && forall i :: 0 <= i < |g| ==> containers[i] == Container(g[i].key.image, g[i].key.container, g[i].sums)
  }

  /** The result starts with the first aggregate of its interval and holds one container for each, in order. */
  ghost predicate ResultOf(u: UpdateResult, experiment: seq<Aggregate>) {
    var g := Select(experiment, IntervalEndOf, u.intervalEnd);
    && g != [] && u.intervalStart == g[0].key.intervalStart && u.intervalEnd == g[0].key.intervalEnd
    && HoldsAll(u.containers, g)
  }

  ghost predicate OneExperiment(experiment: seq<Aggregate>, key: ExperimentKey) {
    forall a :: a in experiment ==> ExperimentKeyOf(a) == key
  }

  /** The results are those of intervals of the experiment, each of another one. */
  ghost predicate PaidFor(experiment: seq<Aggregate>, key: ExperimentKey, results: seq<UpdateResult>) {
    && (forall u :: u in results ==> u.experiment == key && ResultOf(u, experiment))
    && Distinct(results)
  }

  /** The times of an interval are those of its first aggregate. */
  predicate IntervalParses(clock: Clock, experiment: seq<Aggregate>, end: string) {
    var g := Select(experiment, IntervalEndOf, end);
    g != [] && AggregateTimesParse(clock, g[0])
  }

  /** Of `all`, exactly those in an interval that does not parse. */
  ghost predicate Unparsed(clock: Clock, experiment: seq<Aggregate>, all: seq<Aggregate>, skipped: seq<Aggregate>) {
    forall a :: multiset(skipped)[a] == if IntervalParses(clock, experiment, IntervalEndOf(a)) then 0 else multiset(all)[a]
  }

  ghost predicate EndsParse(clock: Clock, experiment: seq<Aggregate>) {
    forall a :: a in experiment ==> clock(a.key.intervalEnd).Some?
  }

  /** An aggregate of an experiment is skipped with all others when some interval end does not parse, and with
      its interval when the start of the interval's first aggregate does not. */
  ghost predicate IsSkipped(clock: Clock, experiment: seq<Aggregate>, a: Aggregate) {
    !EndsParse(clock, experiment) || !IntervalParses(clock, experiment, IntervalEndOf(a))
  }

  /** The results come from the first `n` groups. */
  ghost predicate FromGroups(results: seq<UpdateResult>, groups: seq<seq<Aggregate>>, n: nat)
    requires n <= |groups|
  {
    forall u :: u in results ==>
      exists j :: 0 <= j < n && groups[j] != [] && u.intervalEnd == IntervalEndOf(groups[j][0])
  }

  lemma IntervalItems(g: seq<Aggregate>, key: ExperimentKey, u: UpdateResult)
    requires OneExperiment(g, key) && forall a :: a in g ==> IntervalEndOf(a) == u.intervalEnd
    requires u.experiment == key && u.containers == ContainersOf(g)
    ensures Conserved([u], [], g)
  {
    assert Map(ResultItems, [u]) == [ResultItems(u)];
    FlattenOne(ResultItems(u));
    assert ResultItems(u) == Map(ItemOf, g);
    assert Map(ItemOf, []) == [];
  }

  lemma NothingSent(g: seq<Aggregate>)
    ensures Conserved([], g, g)
  {
    assert ItemsOf([]) == [];
  }

  /** A result of a new interval keeps the results distinct. */
  lemma NewInterval(results: seq<UpdateResult>, groups: seq<seq<Aggregate>>, n: nat, u: UpdateResult)
    requires OneKeyEach(groups, IntervalEndOf) && n < |groups|
    requires Distinct(results) && FromGroups(results, groups, n) && u.intervalEnd == IntervalEndOf(groups[n][0])
    ensures Distinct(results + [u]) && FromGroups(results + [u], groups, n + 1)
  {
    forall i | 0 <= i < |results| ensures results[i].intervalEnd != u.intervalEnd {
      assert results[i] in results;
    }
  }

  lemma MembersOf(groups: seq<seq<Aggregate>>, experiment: seq<Aggregate>, key: ExperimentKey, i: nat)
    requires IsGrouping(groups, experiment, IntervalEndOf) && i < |groups| && OneExperiment(experiment, key)
    ensures forall a :: a in groups[i] ==> a in experiment && IntervalEndOf(a) == IntervalEndOf(groups[i][0])
    ensures OneExperiment(groups[i], key) && groups[i][0] in groups[i]
  {
    forall a | a in groups[i] ensures a in experiment {
      GroupMember(groups, experiment, IntervalEndOf, i, a);
    }
  }

  /** The `i`-th group is the interval of its members and of no other aggregate. */
  lemma GroupIsInterval(clock: Clock, experiment: seq<Aggregate>, groups: seq<seq<Aggregate>>, i: nat)
    requires IsGrouping(groups, experiment, IntervalEndOf) && i < |groups|
    ensures forall a :: a in groups[i] ==>
              (IntervalParses(clock, experiment, IntervalEndOf(a)) <==> AggregateTimesParse(clock, groups[i][0]))
  {
    assert groups[i] == Select(experiment, IntervalEndOf, IntervalEndOf(groups[i][0]));
  }

  lemma UnparsedStep(clock: Clock, experiment: seq<Aggregate>, groups: seq<seq<Aggregate>>, i: nat, skipped: seq<Aggregate>)
    requires IsGrouping(groups, experiment, IntervalEndOf) && i < |groups|
    requires Unparsed(clock, experiment, Flatten(groups[..i]), skipped)
    ensures Unparsed(clock, experiment, Flatten(groups[..i + 1]),
                     if AggregateTimesParse(clock, groups[i][0]) then skipped else skipped + groups[i])
  {
    GroupIsInterval(clock, experiment, groups, i);
    FlattenStep(groups, i);
  }

  /** What was sent and skipped of the first `i` intervals. */
  ghost predicate PaidSoFar(clock: Clock, experiment: seq<Aggregate>, key: ExperimentKey, groups: seq<seq<Aggregate>>, i: nat,
                            payload: seq<UpdateResult>, skipped: seq<Aggregate>)
    requires i <= |groups|
  {
    && Conserved(payload, skipped, Flatten(groups[..i])) && PaidFor(experiment, key, payload)
    && Unparsed(clock, experiment, Flatten(groups[..i]), skipped) && FromGroups(payload, groups, i)
  }

  lemma IntervalSkipped(clock: Clock, experiment: seq<Aggregate>, key: ExperimentKey, groups: seq<seq<Aggregate>>, i: nat,
                        payload: seq<UpdateResult>, skipped: seq<Aggregate>)
    requires IsGrouping(groups, experiment, IntervalEndOf) && i < |groups| && !AggregateTimesParse(clock, groups[i][0])
    requires PaidSoFar(clock, experiment, key, groups, i, payload, skipped)
    ensures PaidSoFar(clock, experiment, key, groups, i + 1, payload, skipped + groups[i])
  {
    NothingSent(groups[i]);
    ConservedTogether(payload, skipped, Flatten(groups[..i]), [], groups[i], groups[i]);
    assert payload + [] == payload;
    FlattenStep(groups, i);
    UnparsedStep(clock, experiment, groups, i, skipped);
  }

  lemma IntervalResult(experiment: seq<Aggregate>, groups: seq<seq<Aggregate>>, i: nat, u: UpdateResult)
    requires IsGrouping(groups, experiment, IntervalEndOf) && i < |groups|
    requires u.intervalStart == groups[i][0].key.intervalStart && u.intervalEnd == IntervalEndOf(groups[i][0])
    requires u.containers == ContainersOf(groups[i])
    ensures ResultOf(u, experiment)
  {
    assert groups[i] == Select(experiment, IntervalEndOf, u.intervalEnd);
    AllHeld(groups[i]);
  }

  lemma AllHeld(g: seq<Aggregate>)
    ensures HoldsAll(ContainersOf(g), g)
  {
    forall i | 0 <= i < |g|
      ensures ContainersOf(g)[i] == Container(g[i].key.image, g[i].key.container, g[i].sums)
    {
      assert ContainersOf(g)[i] == ContainerOf(g[i]);
    }
  }

  lemma OneMorePaid(experiment: seq<Aggregate>, key: ExperimentKey, payload: seq<UpdateResult>, u: UpdateResult)
    requires PaidFor(experiment, key, payload) && u.experiment == key && ResultOf(u, experiment) && Distinct(payload + [u])
    ensures PaidFor(experiment, key, payload + [u])
  {
  }

  lemma IntervalSent(clock: Clock, experiment: seq<Aggregate>, key: ExperimentKey, groups: seq<seq<Aggregate>>, i: nat,
                     payload: seq<UpdateResult>, skipped: seq<Aggregate>, u: UpdateResult)
    requires IsGrouping(groups, experiment, IntervalEndOf) && i < |groups| && AggregateTimesParse(clock, groups[i][0])
    requires OneExperiment(experiment, key) && PaidSoFar(clock, experiment, key, groups, i, payload, skipped)
    requires u.experiment == key && u.intervalStart == groups[i][0].key.intervalStart
    requires u.intervalEnd == IntervalEndOf(groups[i][0]) && u.containers == ContainersOf(groups[i])
    ensures PaidSoFar(clock, experiment, key, groups, i + 1, payload + [u], skipped)
  {
    MembersOf(groups, experiment, key, i);
    IntervalItems(groups[i], key, u);
    IntervalResult(experiment, groups, i, u);
    ConservedTogether(payload, skipped, Flatten(groups[..i]), [u], [], groups[i]);
    assert skipped + [] == skipped;
    FlattenStep(groups, i);
    UnparsedStep(clock, experiment, groups, i, skipped);
    NewInterval(payload, groups, i, u);
    OneMorePaid(experiment, key, payload, u);
  }

  lemma NothingPaid(clock: Clock, experiment: seq<Aggregate>, key: ExperimentKey, groups: seq<seq<Aggregate>>)
    ensures PaidSoFar(clock, experiment, key, groups, 0, [], [])
  {
    NothingSent([]);
    assert groups[..0] == [];
  }

  lemma AllPaid(clock: Clock, experiment: seq<Aggregate>, key: ExperimentKey, groups: seq<seq<Aggregate>>,
                payload: seq<UpdateResult>, skipped: seq<Aggregate>)
    requires IsGrouping(groups, experiment, IntervalEndOf)
    requires PaidSoFar(clock, experiment, key, groups, |groups|, payload, skipped)
    ensures Conserved(payload, skipped, experiment) && Unparsed(clock, experiment, experiment, skipped)
  {
    assert groups[..|groups|] == groups;
    ConservedPermuted(payload, skipped, Flatten(groups), experiment);
  }

  /** Adds the result of the `i`-th interval, or skips it when its times do not parse. */
  method AddInterval(clock: Clock, g: seq<Aggregate>, payload0: seq<UpdateResult>, ghost skipped0: seq<Aggregate>,
                     ghost experiment: seq<Aggregate>, ghost key: ExperimentKey, ghost groups: seq<seq<Aggregate>>, ghost i: nat)
    returns (payload: seq<UpdateResult>, ghost skipped: seq<Aggregate>)
    requires IsGrouping(groups, experiment, IntervalEndOf) && i < |groups| && g == groups[i]
    requires OneExperiment(experiment, key) && PaidSoFar(clock, experiment, key, groups, i, payload0, skipped0)
    ensures PaidSoFar(clock, experiment, key, groups, i + 1, payload, skipped)
  {
    payload, skipped := payload0, skipped0;
    MembersOf(groups, experiment, key, i);
    if clock(g[0].key.intervalStart).None? || clock(g[0].key.intervalEnd).None? {
      IntervalSkipped(clock, experiment, key, groups, i, payload, skipped);
      skipped := skipped + g;
    } else {
      var containers := ListContainers(g);
      var u := UpdateResult(ExperimentKeyOf(g[0]), g[0].key.intervalStart, g[0].key.intervalEnd, containers);
      IntervalSent(clock, experiment, key, groups, i, payload, skipped, u);
      payload := payload + [u];
    }
  }

  /** One result for each interval of the experiment, but for exactly those whose times do not parse. */
  method GetUpdateResultPayload(clock: Clock, experiment: seq<Aggregate>, ghost key: ExperimentKey)
    returns (payload: seq<UpdateResult>, ghost skipped: seq<Aggregate>)
    requires OneExperiment(experiment, key)
    ensures PaidFor(experiment, key, payload)
    ensures Conserved(payload, skipped, experiment) && Unparsed(clock, experiment, experiment, skipped)
  {
    var groups := GroupBy(experiment, IntervalEndOf);
    payload, skipped := [], [];
    NothingPaid(clock, experiment, key, groups);
    for i := 0 to |groups|
      invariant PaidSoFar(clock, experiment, key, groups, i, payload, skipped)
    {
      payload, skipped := AddInterval(clock, groups[i], payload, skipped, experiment, key, groups, i);
    }
    AllPaid(clock, experiment, key, groups, payload, skipped);
  }

  function ContainersOf(g: seq<Aggregate>): seq<Container> {
    Map(ContainerOf, g)
  }

  method ListContainers(g: seq<Aggregate>) returns (containers: seq<Container>)
    ensures containers == ContainersOf(g)
    ensures Total(containers, ContainerSums) == Total(g, AggregateSums)
  {
    containers := [];
    for i := 0 to |g|
      invariant |containers| == i
      invariant forall j :: 0 <= j < i ==> containers[j] == ContainerOf(g[j])
    {
      containers := containers + [ContainerOf(g[i])];
    }
    TotalPointwise(containers, g, ContainerSums, AggregateSums);
  }

  method SliceMetricsUpdatePayloadToChunks<T>(objects: seq<T>, chunkSize: int) returns (chunks: seq<seq<T>>)
    requires chunkSize >= 1
    ensures Flatten(chunks) == objects
    ensures forall c :: c in chunks ==> 1 <= |c| <= chunkSize
    ensures forall i :: 0 <= i < |chunks| - 1 ==> |chunks[i]| == chunkSize
  {
    chunks := [];
    var i := 0;
    while i < |objects|
      invariant 0 <= i <= |objects| && Flatten(chunks) == objects[..i]
      invariant forall c :: c in chunks ==> 1 <= |c| <= chunkSize
      invariant forall j :: 0 <= j < |chunks| && (j < |chunks| - 1 || i < |objects|) ==> |chunks[j]| == chunkSize
      decreases |objects| - i
    {
      var end := if i + chunkSize < |objects| then i + chunkSize else |objects|;
      FlattenConcat(chunks, [objects[i..end]]);
      FlattenOne(objects[i..end]);
      chunks := chunks + [objects[i..end]];
      i := end;
    }
    assert objects[..i] == objects;
  }

  /** No chunk is longer than the limit, and all but the last are full. */
  predicate InChunks(chunks: seq<seq<UpdateResult>>, chunkSize: int) {
    && (forall c :: c in chunks ==> |c| <= chunkSize)
    && (forall i :: 0 <= i < |chunks| - 1 ==> |chunks[i]| == chunkSize)
  }

  /** The payload in chunks when it is longer than the limit, whole otherwise. */
  method Chunks(payload: seq<UpdateResult>, chunkSize: int) returns (chunks: seq<seq<UpdateResult>>)
    requires chunkSize >= 1
    ensures Flatten(chunks) == payload && InChunks(chunks, chunkSize)
    ensures |payload| <= chunkSize ==> chunks == [payload]
  {
    if |payload| > chunkSize {
      chunks := SliceMetricsUpdatePayloadToChunks(payload, chunkSize);
    } else {
      chunks := [payload];
      FlattenOne(payload);
    }
  }

  /** Of the experiment, exactly the aggregates that are to be skipped. */
  ghost predicate SkippedOf(clock: Clock, experiment: seq<Aggregate>, skipped: seq<Aggregate>) {
    forall a :: multiset(skipped)[a] == if IsSkipped(clock, experiment, a) then multiset(experiment)[a] else 0
  }

  lemma EndsOf(clock: Clock, experiment: seq<Aggregate>, ends: seq<string>)
    requires |ends| == |experiment| && forall j :: 0 <= j < |ends| ==> ends[j] == experiment[j].key.intervalEnd
    ensures EndsParse(clock, experiment) <==> forall i :: 0 <= i < |ends| ==> clock(ends[i]).Some?
  {
    forall i | 0 <= i < |ends| ensures experiment[i] in experiment && experiment[i].key.intervalEnd == ends[i] {
    }
  }

  /** The chunks of one experiment; it is skipped when an interval end does not parse. */
  method ExperimentChunks(clock: Clock, experiment: seq<Aggregate>, chunkSize: int, ghost key: ExperimentKey)
    returns (chunks: seq<seq<UpdateResult>>, ghost skipped: seq<Aggregate>)
    requires chunkSize >= 1 && experiment != [] && OneExperiment(experiment, key)
    ensures PaidFor(experiment, key, Flatten(chunks))
    ensures Conserved(Flatten(chunks), skipped, experiment) && SkippedOf(clock, experiment, skipped)
    ensures InChunks(chunks, chunkSize) && (|Flatten(chunks)| <= chunkSize ==> chunks == [] || chunks == [Flatten(chunks)])
    ensures forall c :: c in chunks ==> |c| <= chunkSize
  {
    var ends := seq(|experiment|, j requires 0 <= j < |experiment| => experiment[j].key.intervalEnd);
    var maxEndTime := MaxIntervalEndTime(clock, ends);
    EndsOf(clock, experiment, ends);
    if maxEndTime.None? {
      NothingSent(experiment);
      return [], experiment;
    }
    var payload;
    payload, skipped := GetUpdateResultPayload(clock, experiment, key);
    chunks := Chunks(payload, chunkSize);
  }

  // ----- All experiments

  function ExperimentOf(aggregates: seq<Aggregate>, key: ExperimentKey): seq<Aggregate> {
    Select(aggregates, ExperimentKeyOf, key)
  }

  /** Each result is that of one interval of one experiment of the aggregates. */
  ghost predicate AllSentFrom(results: seq<UpdateResult>, aggregates: seq<Aggregate>) {
    forall u :: u in results ==> ResultOf(u, ExperimentOf(aggregates, u.experiment))
  }

  /** Of every result sent, all its times and containers go back to aggregates of its own namespace, object and
      interval. */
  lemma SentGoesBack(results: seq<UpdateResult>, aggregates: seq<Aggregate>, u: UpdateResult, i: nat) returns (a: Aggregate)
    requires AllSentFrom(results, aggregates) && u in results && i < |u.containers|
    ensures a in aggregates && u.containers[i] == Container(a.key.image, a.key.container, a.sums)
    ensures u.experiment == ExperimentKey(a.key.namespace, a.key.objectType, a.key.objectName)
    ensures u.intervalEnd == a.key.intervalEnd && (i == 0 ==> u.intervalStart == a.key.intervalStart)
  {
    var experiment := ExperimentOf(aggregates, u.experiment);
    a := Select(experiment, IntervalEndOf, u.intervalEnd)[i];
    SelectMember(experiment, IntervalEndOf, u.intervalEnd, a);
    SelectMember(aggregates, ExperimentKeyOf, u.experiment, a);
  }

  /** Of `done`, exactly the aggregates that are to be skipped in their own experiment. */
  ghost predicate SkippedExactly(clock: Clock, skipped: seq<Aggregate>, done: seq<Aggregate>, aggregates: seq<Aggregate>) {
    forall a :: multiset(skipped)[a] ==
                if IsSkipped(clock, ExperimentOf(aggregates, ExperimentKeyOf(a)), a) then multiset(done)[a] else 0
  }

  /** What was sent and skipped of the first `n` experiments. */
  ghost predicate SentSoFar(clock: Clock, aggregates: seq<Aggregate>, experiments: seq<seq<Aggregate>>, n: nat,
                            results: seq<UpdateResult>, skipped: seq<Aggregate>)
    requires n <= |experiments| && forall j :: 0 <= j < |experiments| ==> experiments[j] != []
  {
    && Conserved(results, skipped, Flatten(experiments[..n]))
    && AllSentFrom(results, aggregates) && SkippedExactly(clock, skipped, Flatten(experiments[..n]), aggregates)
    && Distinct(results)
    && forall u :: u in results ==> exists j :: 0 <= j < n && u.experiment == ExperimentKeyOf(experiments[j][0])
  }

  lemma ApartFromEarlier(results: seq<UpdateResult>, more: seq<UpdateResult>, experiments: seq<seq<Aggregate>>, n: nat)
    requires OneKeyEach(experiments, ExperimentKeyOf) && n < |experiments| && Distinct(results) && Distinct(more)
    requires forall u :: u in results ==> exists j :: 0 <= j < n && u.experiment == ExperimentKeyOf(experiments[j][0])
    requires forall u :: u in more ==> u.experiment == ExperimentKeyOf(experiments[n][0])
    ensures Distinct(results + more)
  {
    var all := results + more;
    forall i, j | 0 <= i < j < |all|
      ensures all[i].experiment != all[j].experiment || all[i].intervalEnd != all[j].intervalEnd
    {
      if i < |results| <= j {
        assert all[i] in results && all[j] in more;
      }
    }
  }

  lemma OneMoreSkipped(clock: Clock, aggregates: seq<Aggregate>, experiments: seq<seq<Aggregate>>, n: nat,
                       skipped: seq<Aggregate>, rest: seq<Aggregate>)
    requires IsGrouping(experiments, aggregates, ExperimentKeyOf) && n < |experiments|
    requires SkippedExactly(clock, skipped, Flatten(experiments[..n]), aggregates)
    requires SkippedOf(clock, experiments[n], rest)
    ensures SkippedExactly(clock, skipped + rest, Flatten(experiments[..n]) + experiments[n], aggregates)
  {
    var key := ExperimentKeyOf(experiments[n][0]);
    assert experiments[n] == ExperimentOf(aggregates, key);
    forall a ensures multiset(rest)[a] ==
      if IsSkipped(clock, ExperimentOf(aggregates, ExperimentKeyOf(a)), a) then multiset(experiments[n])[a] else 0
    {
      assert a in experiments[n] ==> ExperimentKeyOf(a) == key;
      assert a !in experiments[n] ==> multiset(experiments[n])[a] == 0;
    }
  }

  lemma OneMoreExperiment(clock: Clock, aggregates: seq<Aggregate>, experiments: seq<seq<Aggregate>>, n: nat,
                          results: seq<UpdateResult>, skipped: seq<Aggregate>,
                          more: seq<UpdateResult>, rest: seq<Aggregate>)
    requires IsGrouping(experiments, aggregates, ExperimentKeyOf) && n < |experiments|
    requires SentSoFar(clock, aggregates, experiments, n, results, skipped)
    requires Conserved(more, rest, experiments[n]) && SkippedOf(clock, experiments[n], rest)
    requires PaidFor(experiments[n], ExperimentKeyOf(experiments[n][0]), more)
    ensures SentSoFar(clock, aggregates, experiments, n + 1, results + more, skipped + rest)
  {
    assert experiments[n] == ExperimentOf(aggregates, ExperimentKeyOf(experiments[n][0]));
    ConservedTogether(results, skipped, Flatten(experiments[..n]), more, rest, experiments[n]);
    OneMoreSkipped(clock, aggregates, experiments, n, skipped, rest);
    FlattenStep(experiments, n);
    ApartFromEarlier(results, more, experiments, n);
  }

  lemma ExperimentHasOneKey(experiments: seq<seq<Aggregate>>, aggregates: seq<Aggregate>, i: nat)
    requires IsGrouping(experiments, aggregates, ExperimentKeyOf) && i < |experiments|
    ensures experiments[i] != [] && OneExperiment(experiments[i], ExperimentKeyOf(experiments[i][0]))
  {
  }

  lemma FlattenStep<T>(groups: seq<seq<T>>, i: nat)
    requires i < |groups|
    ensures Flatten(groups[..i + 1]) == Flatten(groups[..i]) + groups[i]
  {
    assert groups[..i + 1][..i] == groups[..i];
  }

  lemma NoneSent(clock: Clock, aggregates: seq<Aggregate>, experiments: seq<seq<Aggregate>>)
    requires forall j :: 0 <= j < |experiments| ==> experiments[j] != []
    ensures SentSoFar(clock, aggregates, experiments, 0, [], [])
  {
    NothingSent([]);
    assert experiments[..0] == [];
  }

  lemma AllExperimentsSent(clock: Clock, aggregates: seq<Aggregate>, experiments: seq<seq<Aggregate>>,
                           results: seq<UpdateResult>, skipped: seq<Aggregate>)
    requires IsGrouping(experiments, aggregates, ExperimentKeyOf)
    requires SentSoFar(clock, aggregates, experiments, |experiments|, results, skipped)
    ensures Conserved(results, skipped, aggregates) && SkippedExactly(clock, skipped, aggregates, aggregates)
  {
    assert experiments[..|experiments|] == experiments;
    ConservedPermuted(results, skipped, Flatten(experiments), aggregates);
  }

  /** The chunks of all experiments of the aggregated rows. */
  method SendExperiments(clock: Clock, aggregates: seq<Aggregate>, chunkSize: int)
    returns (chunks: seq<seq<UpdateResult>>, ghost skipped: seq<Aggregate>)
    requires chunkSize >= 1
    ensures Conserved(Flatten(chunks), skipped, aggregates) && SkippedExactly(clock, skipped, aggregates, aggregates)
    ensures AllSentFrom(Flatten(chunks), aggregates) && Distinct(Flatten(chunks))
    ensures forall c :: c in chunks ==> |c| <= chunkSize
  {
    var experiments := GroupBy(aggregates, ExperimentKeyOf);
    chunks, skipped := [], [];
    NoneSent(clock, aggregates, experiments);
    for i := 0 to |experiments|
      invariant SentSoFar(clock, aggregates, experiments, i, Flatten(chunks), skipped)
      invariant forall c :: c in chunks ==> |c| <= chunkSize
    {
      ExperimentHasOneKey(experiments, aggregates, i);
      var more, rest := ExperimentChunks(clock, experiments[i], chunkSize, ExperimentKeyOf(experiments[i][0]));
      OneMoreExperiment(clock, aggregates, experiments, i, Flatten(chunks), skipped, Flatten(more), rest);
      FlattenConcat(chunks, more);
      chunks, skipped := chunks + more, skipped + rest;
    }
    AllExperimentsSent(clock, aggregates, experiments, Flatten(chunks), skipped);
  }

  /** Over all chunks of all experiments a report sends each aggregate of the rows its filter keeps exactly
      once, in the one result of its experiment and interval, which holds all aggregates of that interval; but
      it skips exactly the experiments with an interval end that does not parse, and the intervals with a start
      that does not. So it sends the sums of the kept rows, less those of what is skipped. No chunk exceeds the
      limit. */
  method ProcessReport(clock: Clock, rows: seq<CsvRow>, chunkSize: int)
    returns (chunks: seq<seq<UpdateResult>>, dropped: nat, ghost aggregates: seq<Aggregate>, ghost skipped: seq<Aggregate>)
    requires chunkSize >= 1
    ensures |Kept(rows)| + dropped == |rows|
    ensures AggregatesOf(aggregates, Attributed(Kept(rows)))
    ensures Conserved(Flatten(chunks), skipped, aggregates) && SkippedExactly(clock, skipped, aggregates, aggregates)
    ensures AllSentFrom(Flatten(chunks), aggregates) && Distinct(Flatten(chunks))
    ensures Total(Flatten(chunks), ResultSums).Plus(Total(skipped, AggregateSums)) == Total(Kept(rows), RowSums)
    ensures (forall r :: r in Kept(rows) ==> TimesParse(clock, r)) ==>
              skipped == [] && Total(Flatten(chunks), ResultSums) == Total(Kept(rows), RowSums)
    ensures forall c :: c in chunks ==> |c| <= chunkSize
  {
    var frame, err;
    frame, dropped, err := AggregateData(rows);
    aggregates := frame;
    if err {
      NothingSent(frame);
      return [], dropped, aggregates, [];
    }
    chunks, skipped := SendExperiments(clock, frame, chunkSize);
    ConservedSums(Flatten(chunks), skipped, frame);
    if forall r :: r in Kept(rows) ==> TimesParse(clock, r) {
      KeptTimesParse(clock, frame, Kept(rows));
      NoneSkipped(clock, skipped, frame);
    }
  }

  lemma {:induction false} SelectMember<T, K>(rows: seq<T>, key: T -> K, k: K, x: T)
    ensures x in Select(rows, key, k) <==> x in rows && key(x) == k
  {
    if rows != [] {
      var n := |rows| - 1;
      SelectMember(rows[..n], key, k, x);
      assert x in rows <==> x in rows[..n] || x == rows[n];
    }
  }

  lemma NotSkipped(clock: Clock, aggregates: seq<Aggregate>, a: Aggregate)
    requires AllParse(clock, aggregates) && a in aggregates
    ensures !IsSkipped(clock, ExperimentOf(aggregates, ExperimentKeyOf(a)), a)
  {
    var experiment := ExperimentOf(aggregates, ExperimentKeyOf(a));
    forall b | b in experiment ensures AggregateTimesParse(clock, b) {
      SelectMember(aggregates, ExperimentKeyOf, ExperimentKeyOf(a), b);
    }
    SelectMember(aggregates, ExperimentKeyOf, ExperimentKeyOf(a), a);
    SelectMember(experiment, IntervalEndOf, IntervalEndOf(a), a);
    var g := Select(experiment, IntervalEndOf, IntervalEndOf(a));
    SelectMember(experiment, IntervalEndOf, IntervalEndOf(a), g[0]);
  }

  lemma NoneSkipped(clock: Clock, skipped: seq<Aggregate>, aggregates: seq<Aggregate>)
    requires SkippedExactly(clock, skipped, aggregates, aggregates) && AllParse(clock, aggregates)
    ensures skipped == []
  {
    if skipped != [] {
      var a := skipped[0];
      assert a in multiset(skipped);
      assert a in multiset(aggregates);
      NotSkipped(clock, aggregates, a);
    }
  }

  lemma KeptTimesParse(clock: Clock, aggregates: seq<Aggregate>, rows: seq<CsvRow>)
    requires AggregatesOf(aggregates, Attributed(rows)) && forall r :: r in rows ==> TimesParse(clock, r)
    ensures AllParse(clock, aggregates)
  {
    forall a | a in aggregates ensures AggregateTimesParse(clock, a) {
      var o := SummedRow(aggregates, Attributed(rows), a);
      TimesOfAttributed(clock, rows, o);
    }
  }

  lemma SummedRow(aggregates: seq<Aggregate>, objects: seq<ObjectRow>, a: Aggregate) returns (o: ObjectRow)
    requires AggregatesOf(aggregates, objects) && a in aggregates
    ensures o in objects && AggregateKeyOf(o) == a.key
  {
    var i :| 0 <= i < |aggregates| && aggregates[i] == a;
    assert SumsRows(aggregates[i], objects);
    o :| o in objects && AggregateKeyOf(o) == a.key;
  }

  lemma TimesOfAttributed(clock: Clock, rows: seq<CsvRow>, o: ObjectRow)
    requires o in Attributed(rows) && forall r :: r in rows ==> TimesParse(clock, r)
    ensures TimesParse(clock, o.row)
  {
    var j :| 0 <= j < |rows| && Attributed(rows)[j] == o;
    RowOfAttributed(rows, j);
  }
}
