module Wrappers {
  datatype Option<+T> = None | Some(value: T)
}

/** A Kruize recommendation and the table columns derived from it. */
module Payload {
  import opened Wrappers
  import opened Calendar
  import opened Conversion

  datatype Amount = Amount(amount: real, format: string)

  datatype Resources = Resources(cpu: Amount, memory: Amount)

  datatype Config = Config(limits: Resources, requests: Resources)

  datatype Notification = Notification(kind: string, message: string, code: int)

  datatype Engine = Engine(config: Config, variation: Config, notifications: Option<map<string, Notification>>)

  datatype Engines = Engines(cost: Engine, performance: Engine)

  datatype BoxPlot = BoxPlot(min: real, q1: real, median: real, q3: real, max: real, format: string)

  datatype PlotPoint = PlotPoint(cpuUsage: Option<BoxPlot>, memoryUsage: Option<BoxPlot>)

  datatype Plot = Plot(dataPoints: int, plotsData: map<string, PlotPoint>)

  datatype Term = Term(
    durationInHours: real,
    notifications: map<string, Notification>,
    monitoringStartTime: Instant,
    engines: Option<Engines>,
    plots: Option<Plot>)

  datatype RecommendationData = RecommendationData(
    notifications: map<string, Notification>,
    monitoringEndTime: Instant,
    current: Config,
    shortTerm: Term,
    mediumTerm: Term,
    longTerm: Term)

  datatype Resource = Cpu | Memory

  datatype TermName = ShortTerm | MediumTerm | LongTerm

  datatype EngineName = Cost | Performance

  /** The 14 columns derived from a recommendation. */
  datatype Column =
    | RequestCurrent(resource: Resource)
    | VariationPct(resource: Resource, term: TermName, engine: EngineName)

  /** Column values, None standing for SQL NULL. */
  type Columns = map<Column, Option<real>>

  function ColumnSet(): set<Column> {
    (set r: Resource :: RequestCurrent(r))
    + (set r: Resource, t: TermName, e: EngineName :: VariationPct(r, t, e))
  }

  lemma ColumnSetIsComplete()
    ensures forall c: Column :: c in ColumnSet()
  {
    forall c: Column ensures c in ColumnSet() {
      match c
      case RequestCurrent(r) => assert c == RequestCurrent(r);
      case VariationPct(r, t, e) => assert c == VariationPct(r, t, e);
    }
  }

  function AllColumns(): (s: set<Column>)
    ensures forall c: Column :: c in s
  {
    ColumnSetIsComplete();
    ColumnSet()
  }

  function NoValues(): Columns {
    map c | c in AllColumns() :: None
  }

  /** Whether at least one stored percentage is not NULL. */
  predicate HasValues(cols: Columns) {
    exists r: Resource, t: TermName, e: EngineName ::
      VariationPct(r, t, e) in cols && cols[VariationPct(r, t, e)].Some?
  }

  function AmountOf(r: Resource, of: Resources): real {
    match r case Cpu => of.cpu.amount case Memory => of.memory.amount
  }

  function TermOf(data: RecommendationData, t: TermName): Term {
    match t case ShortTerm => data.shortTerm case MediumTerm => data.mediumTerm case LongTerm => data.longTerm
  }

  function EngineOf(engines: Engines, e: EngineName): Engine {
    match e case Cost => engines.cost case Performance => engines.performance
  }

  function ClampRequest(r: Resource, x: real): real {
    match r case Cpu => ClampToNumeric10_4Range(x) case Memory => ClampToNumeric20_4Range(x)
  }

  function VariationPercentOfRequest(r: Resource, variation: real, current: real): real {
    match r
    case Cpu => VariationPercentOfRequestCPU(variation, current)
    case Memory => VariationPercentOfRequestMemoryBytesMiB(variation, current)
  }

  /** One engine's request variation in percent of the given current requests. */
  function EnginePct(engines: Engines, r: Resource, e: EngineName, cpuReq: real, memReq: real): real {
    VariationPercentOfRequest(r, AmountOf(r, EngineOf(engines, e).variation.requests),
                              match r case Cpu => cpuReq case Memory => memReq)
  }

  /** The clamped current request, and per term and engine the variation as a percentage of it; NULL when
      the term has no engines. */
  function ColumnOf(data: RecommendationData, c: Column): Option<real> {
    match c
    case RequestCurrent(r) => Some(ClampRequest(r, AmountOf(r, data.current.requests)))
    case VariationPct(r, t, e) =>
      match TermOf(data, t).engines
      case None => None
      case Some(engines) =>
        Some(EnginePct(engines, r, e, ClampRequest(Cpu, data.current.requests.cpu.amount),
                       ClampRequest(Memory, data.current.requests.memory.amount)))
  }

  function Extract(data: RecommendationData): Columns {
    map c | c in AllColumns() :: ColumnOf(data, c)
  }

  /** What the NUMERIC columns hold of the extracted values. */
  function Stored(cols: Columns): Columns {
    map c | c in cols :: match cols[c] case None => None case Some(x) => Some(RoundToFourDecimals(x))
  }

  /** The four columns of one term replaced. */
  function WithPcts(cols: Columns, t: TermName, cpuCost: real, memCost: real, cpuPerf: real, memPerf: real): Columns {
    map c | c in cols ::
      if c.VariationPct? && c.term == t then
        Some(match c.engine
             case Cost => (match c.resource case Cpu => cpuCost case Memory => memCost)
             case Performance => (match c.resource case Cpu => cpuPerf case Memory => memPerf))
      else cols[c]
  }

  function WithTerm(cols: Columns, t: TermName, engines: Engines, cpuReq: real, memReq: real): Columns {
    WithPcts(cols, t, EnginePct(engines, Cpu, Cost, cpuReq, memReq), EnginePct(engines, Memory, Cost, cpuReq, memReq),
             EnginePct(engines, Cpu, Performance, cpuReq, memReq), EnginePct(engines, Memory, Performance, cpuReq, memReq))
  }

  function WithTermIfAny(cols: Columns, t: TermName, engines: Option<Engines>, cpuReq: real, memReq: real): Columns {
    if engines.Some? then WithTerm(cols, t, engines.value, cpuReq, memReq) else cols
  }

  function WithThreeTerms(cols: Columns, data: RecommendationData, cpuReq: real, memReq: real): Columns {
    var short := WithTermIfAny(cols, ShortTerm, data.shortTerm.engines, cpuReq, memReq);
    var medium := WithTermIfAny(short, MediumTerm, data.mediumTerm.engines, cpuReq, memReq);
    WithTermIfAny(medium, LongTerm, data.longTerm.engines, cpuReq, memReq)
  }

  /** The fields of the values extracted from a recommendation, None standing for a nil pointer. */
  datatype ColumnValues = ColumnValues(
    cpuRequestCurrent: Option<real>,
    memoryRequestCurrent: Option<real>,
    cpuVariationShortCostPct: Option<real>,
    cpuVariationShortPerformancePct: Option<real>,
    cpuVariationMediumCostPct: Option<real>,
    cpuVariationMediumPerformancePct: Option<real>,
    cpuVariationLongCostPct: Option<real>,
    cpuVariationLongPerformancePct: Option<real>,
    memoryVariationShortCostPct: Option<real>,
    memoryVariationShortPerformancePct: Option<real>,
    memoryVariationMediumCostPct: Option<real>,
    memoryVariationMediumPerformancePct: Option<real>,
    memoryVariationLongCostPct: Option<real>,
    memoryVariationLongPerformancePct: Option<real>)
  {
    /** The field of a column. */
    function Value(c: Column): Option<real> {
      match c
      case RequestCurrent(Cpu) => cpuRequestCurrent
      case RequestCurrent(Memory) => memoryRequestCurrent
      case VariationPct(Cpu, ShortTerm, Cost) => cpuVariationShortCostPct
      case VariationPct(Cpu, ShortTerm, Performance) => cpuVariationShortPerformancePct
      case VariationPct(Cpu, MediumTerm, Cost) => cpuVariationMediumCostPct
      case VariationPct(Cpu, MediumTerm, Performance) => cpuVariationMediumPerformancePct
      case VariationPct(Cpu, LongTerm, Cost) => cpuVariationLongCostPct
      case VariationPct(Cpu, LongTerm, Performance) => cpuVariationLongPerformancePct
      case VariationPct(Memory, ShortTerm, Cost) => memoryVariationShortCostPct
      case VariationPct(Memory, ShortTerm, Performance) => memoryVariationShortPerformancePct
      case VariationPct(Memory, MediumTerm, Cost) => memoryVariationMediumCostPct
      case VariationPct(Memory, MediumTerm, Performance) => memoryVariationMediumPerformancePct
      case VariationPct(Memory, LongTerm, Cost) => memoryVariationLongCostPct
      case VariationPct(Memory, LongTerm, Performance) => memoryVariationLongPerformancePct
    }

    function Contents(): Columns {
      map c | c in AllColumns() :: Value(c)
    }
  }

  lemma ShortTermFields(v: ColumnValues, cpuCost: real, memCost: real, cpuPerf: real, memPerf: real)
    ensures v.(cpuVariationShortCostPct := Some(cpuCost), memoryVariationShortCostPct := Some(memCost),
               cpuVariationShortPerformancePct := Some(cpuPerf), memoryVariationShortPerformancePct := Some(memPerf)).Contents()
            == WithPcts(v.Contents(), ShortTerm, cpuCost, memCost, cpuPerf, memPerf)
  {
  }

  lemma MediumTermFields(v: ColumnValues, cpuCost: real, memCost: real, cpuPerf: real, memPerf: real)
    ensures v.(cpuVariationMediumCostPct := Some(cpuCost), memoryVariationMediumCostPct := Some(memCost),
               cpuVariationMediumPerformancePct := Some(cpuPerf), memoryVariationMediumPerformancePct := Some(memPerf)).Contents()
            == WithPcts(v.Contents(), MediumTerm, cpuCost, memCost, cpuPerf, memPerf)
  {
  }

  lemma LongTermFields(v: ColumnValues, cpuCost: real, memCost: real, cpuPerf: real, memPerf: real)
    ensures v.(cpuVariationLongCostPct := Some(cpuCost), memoryVariationLongCostPct := Some(memCost),
               cpuVariationLongPerformancePct := Some(cpuPerf), memoryVariationLongPerformancePct := Some(memPerf)).Contents()
            == WithPcts(v.Contents(), LongTerm, cpuCost, memCost, cpuPerf, memPerf)
  {
  }

  class RecommendationColumnValues {
    var values: ColumnValues

    constructor (data: RecommendationData)
      ensures values.Contents() == Extract(data)
    {
      var cpuReq := ClampToNumeric10_4Range(data.current.requests.cpu.amount);
      var memReq := ClampToNumeric20_4Range(data.current.requests.memory.amount);
      values := ColumnValues(Some(cpuReq), Some(memReq), None, None, None, None, None, None, None, None, None, None, None, None);
      new;
      CurrentFields(cpuReq, memReq);
      ExtractTermVariations(data, cpuReq, memReq);
      ExtractTermByTerm(data);
    }

    /** The percentages of the terms with engines; the other fields stay. */
    method ExtractTermVariations(data: RecommendationData, cpuReq: real, memReq: real)
      modifies this
      ensures values.Contents() == WithThreeTerms(old(values.Contents()), data, cpuReq, memReq)
    {
      if data.shortTerm.engines.Some? {
        ghost var before := values;
        var cost := data.shortTerm.engines.value.cost.variation.requests;
        var perf := data.shortTerm.engines.value.performance.variation.requests;
        var cpuCost := VariationPercentOfRequestCPU(cost.cpu.amount, cpuReq);
        var memCost := VariationPercentOfRequestMemoryBytesMiB(cost.memory.amount, memReq);
        var cpuPerf := VariationPercentOfRequestCPU(perf.cpu.amount, cpuReq);
        var memPerf := VariationPercentOfRequestMemoryBytesMiB(perf.memory.amount, memReq);
        values := values.(cpuVariationShortCostPct := Some(cpuCost));
        values := values.(memoryVariationShortCostPct := Some(memCost));
        values := values.(cpuVariationShortPerformancePct := Some(cpuPerf));
        values := values.(memoryVariationShortPerformancePct := Some(memPerf));
        ShortTermFields(before, cpuCost, memCost, cpuPerf, memPerf);
      }
      if data.mediumTerm.engines.Some? {
        ghost var before := values;
        var cost := data.mediumTerm.engines.value.cost.variation.requests;
        var perf := data.mediumTerm.engines.value.performance.variation.requests;
        var cpuCost := VariationPercentOfRequestCPU(cost.cpu.amount, cpuReq);
        var memCost := VariationPercentOfRequestMemoryBytesMiB(cost.memory.amount, memReq);
        var cpuPerf := VariationPercentOfRequestCPU(perf.cpu.amount, cpuReq);
        var memPerf := VariationPercentOfRequestMemoryBytesMiB(perf.memory.amount, memReq);
        values := values.(cpuVariationMediumCostPct := Some(cpuCost));
        values := values.(memoryVariationMediumCostPct := Some(memCost));
        values := values.(cpuVariationMediumPerformancePct := Some(cpuPerf));
        values := values.(memoryVariationMediumPerformancePct := Some(memPerf));
        MediumTermFields(before, cpuCost, memCost, cpuPerf, memPerf);
      }
      if data.longTerm.engines.Some? {
        ghost var before := values;
        var cost := data.longTerm.engines.value.cost.variation.requests;
        var perf := data.longTerm.engines.value.performance.variation.requests;
        var cpuCost := VariationPercentOfRequestCPU(cost.cpu.amount, cpuReq);
        var memCost := VariationPercentOfRequestMemoryBytesMiB(cost.memory.amount, memReq);
        var cpuPerf := VariationPercentOfRequestCPU(perf.cpu.amount, cpuReq);
        var memPerf := VariationPercentOfRequestMemoryBytesMiB(perf.memory.amount, memReq);
        values := values.(cpuVariationLongCostPct := Some(cpuCost));
        values := values.(memoryVariationLongCostPct := Some(memCost));
        values := values.(cpuVariationLongPerformancePct := Some(cpuPerf));
        values := values.(memoryVariationLongPerformancePct := Some(memPerf));
        LongTermFields(before, cpuCost, memCost, cpuPerf, memPerf);
      }
    }
  }

  lemma CurrentFields(cpuReq: real, memReq: real)
    ensures ColumnValues(Some(cpuReq), Some(memReq), None, None, None, None, None, None, None, None, None, None, None, None)
              .Contents() == NoValues()[RequestCurrent(Cpu) := Some(cpuReq)][RequestCurrent(Memory) := Some(memReq)]
  {
  }

  lemma WithTermAt(cols: Columns, t: TermName, engines: Option<Engines>, cpuReq: real, memReq: real, c: Column)
    requires c in cols
    ensures c in WithTermIfAny(cols, t, engines, cpuReq, memReq)
    ensures WithTermIfAny(cols, t, engines, cpuReq, memReq)[c] ==
              if c.VariationPct? && c.term == t && engines.Some? then
                Some(EnginePct(engines.value, c.resource, c.engine, cpuReq, memReq))
              else cols[c]
  {
  }

  /** Filling in the columns term after term gives every column its own value. */
  lemma ExtractTermByTerm(data: RecommendationData)
    ensures var cpuReq := ClampRequest(Cpu, data.current.requests.cpu.amount);
            var memReq := ClampRequest(Memory, data.current.requests.memory.amount);
            WithThreeTerms(NoValues()[RequestCurrent(Cpu) := Some(cpuReq)][RequestCurrent(Memory) := Some(memReq)],
                           data, cpuReq, memReq) == Extract(data)
  {
    var cpuReq := ClampRequest(Cpu, data.current.requests.cpu.amount);
    var memReq := ClampRequest(Memory, data.current.requests.memory.amount);
    var none := NoValues()[RequestCurrent(Cpu) := Some(cpuReq)][RequestCurrent(Memory) := Some(memReq)];
    var short := WithTermIfAny(none, ShortTerm, data.shortTerm.engines, cpuReq, memReq);
    var medium := WithTermIfAny(short, MediumTerm, data.mediumTerm.engines, cpuReq, memReq);
    var all := WithTermIfAny(medium, LongTerm, data.longTerm.engines, cpuReq, memReq);
    forall c: Column ensures c in all && all[c] == ColumnOf(data, c) {
      WithTermAt(none, ShortTerm, data.shortTerm.engines, cpuReq, memReq, c);
      WithTermAt(short, MediumTerm, data.mediumTerm.engines, cpuReq, memReq, c);
      WithTermAt(medium, LongTerm, data.longTerm.engines, cpuReq, memReq, c);
    }
  }

  /** Storing loses nothing of a percentage, and no extracted value overflows its column. */
  lemma StoredPercentagesAreExact(data: RecommendationData, c: Column)
    ensures c in Stored(Extract(data))
    ensures c.VariationPct? ==> Stored(Extract(data))[c] == Extract(data)[c] == ColumnOf(data, c)
    ensures var bound := if c == RequestCurrent(Memory) then MAX_NUMERIC_20_4 else MAX_NUMERIC_10_4;
            Stored(Extract(data))[c].Some? ==> Abs(Stored(Extract(data))[c].value) <= bound
  {
    assert Extract(data)[c] == ColumnOf(data, c);
    if c.VariationPct? {
      if TermOf(data, c.term).engines.Some? {
        var v := AmountOf(c.resource, EngineOf(TermOf(data, c.term).engines.value, c.engine).variation.requests);
        var d := ClampRequest(c.resource, AmountOf(c.resource, data.current.requests));
        if c.resource == Cpu {
          PercentageStoredExactly(CalculatePercentage(
            TruncateToThreeDecimalPlaces(v), TruncateToThreeDecimalPlaces(d)));
        } else {
          PercentageStoredExactly(CalculatePercentage(
            TruncateMemoryBytesToMiBTwoDecimals(v), TruncateMemoryBytesToMiBTwoDecimals(d)));
        }
      }
    } else {
      RoundedClampFits(AmountOf(c.resource, data.current.requests), 9_999_999_999);
      RoundedClampFits(AmountOf(c.resource, data.current.requests), 99_999_999_999_999_999_999);
      assert MAX_NUMERIC_10_4 == 9_999_999_999 as real / 10000.0;
      assert MAX_NUMERIC_20_4 == 99_999_999_999_999_999_999 as real / 10000.0;
    }
  }

  /** The request columns hold the current request, to the nearest ten thousandth and cut at the largest value of
      the column, 10 or 20 digits with four decimals. */
  lemma StoredRequestIs(data: RecommendationData, r: Resource)
    ensures var x := match r case Cpu => data.current.requests.cpu.amount case Memory => data.current.requests.memory.amount;
            var most := match r case Cpu => 9_999_999_999.0 / 10_000.0
                                case Memory => 99_999_999_999_999_999_999.0 / 10_000.0;
            var column := Stored(Extract(data))[RequestCurrent(r)];
            && column.Some?
            && (x > most ==> column.value == most) && (x < -most ==> column.value == -most)
            && (-most <= x <= most ==> -0.00005 <= column.value - x <= 0.00005)
  {
    var x := AmountOf(r, data.current.requests);
    assert Extract(data)[RequestCurrent(r)] == ColumnOf(data, RequestCurrent(r));
    var y := ClampRequest(r, x);
    Rounded(y * 10000.0);
    RoundOfInteger(9_999_999_999);
    RoundOfInteger(-9_999_999_999);
    RoundOfInteger(99_999_999_999_999_999_999);
    RoundOfInteger(-99_999_999_999_999_999_999);
  }

  lemma RoundedClampFits(x: real, k: nat)
    ensures Abs(RoundToFourDecimals(Clamp(x, k as real / 10000.0))) <= k as real / 10000.0
  {
    var y := Clamp(x, k as real / 10000.0) * 10000.0;
    assert -(k as real) <= y <= k as real;
    RoundWithin(y, k);
  }

  lemma RoundWithin(y: real, k: int)
    requires -(k as real) <= y <= k as real
    ensures -k <= Round(y) <= k
  {
  }
}
