/** The stored percentages are computed in cores and MiB. What a response then shows when it is asked for in
    other units: when the stored percentage is still the recomputed one, and how far apart the two can be. */
module UnitAgreement {
  import opened Wrappers
  import opened Calendar
  import opened Conversion
  import opened Payload
  import opened JsonTree
  import opened RecommendationJson
  import opened VariationCache
  import opened ResponseFields

  /** The units the columns are computed in. */
  const COLUMN_UNITS: Units := Units("cores", "MiB", false)

  /** The units ParseUnitParams lets through. */
  predicate KnownUnits(u: Units) {
    u.cpu in {"cores", "millicores"} && u.memory in {"bytes", "MiB", "GiB"}
  }

  // ----- When a percentage is reproduced

  /** In all units a percentage is reproduced exactly when its variation is not zero, the percentage fits its
      column, and it is the same in the units of the request as in those of the column. */
  lemma ReproducedIff(u: Units, data: RecommendationData, t: TermName, e: EngineName, r: Resource)
    ensures Reproduced(u, data, t, e, r) <==>
              (TermOf(data, t).engines.Some? ==>
                 var v := RequestVariation(TermOf(data, t).engines.value, r, e);
                 var c := AmountOf(r, data.current.requests);
                 var inColumn := ShownPct(COLUMN_UNITS, r, v, ClampRequest(r, c));
                 v != 0.0 && Abs(inColumn) <= MAX_NUMERIC_10_4 && ShownPct(u, r, v, c) == inColumn)
  {
    if TermOf(data, t).engines.Some? {
      var v := RequestVariation(TermOf(data, t).engines.value, r, e);
      var c := AmountOf(r, data.current.requests);
      ThousandthsMissTheBound(CalculatePercentage(Convert(u, r, v), Convert(u, r, c)));
    }
  }

  /** The bound has a fourth decimal, so no percentage cut to three equals it. */
  lemma ThousandthsMissTheBound(x: real)
    ensures Abs(TruncateToThreeDecimalPlaces(x)) != MAX_NUMERIC_10_4
  {
    ThreeDecimals(x);
    var k := Trunc(x * 1000.0);
    assert k as real / 1000.0 == MAX_NUMERIC_10_4 ==> (10 * k) as real == 9_999_999_999.0;
    assert k as real / 1000.0 == -MAX_NUMERIC_10_4 ==> (10 * k) as real == -9_999_999_999.0;
  }

  predicate IsWhole(x: real) {
    x.Floor as real == x
  }

  /** An amount that neither the units of the request nor those of the column cut: any amount when they are
      the same, whole millicores, whole hundredths of a MiB for bytes, whole hundredths of a GiB. */
  predicate Uncut(u: Units, r: Resource, x: real) {
    match r
    case Cpu => u.cpu == "cores" || IsWhole(x * 1000.0)
    case Memory =>
      if u.memory == "MiB" then true
      else if u.memory == "bytes" then IsWhole(x / 1024.0 / 1024.0 * 100.0)
      else IsWhole(x / 1024.0 / 1024.0 / 1024.0 * 100.0)
  }

  lemma CutOfWhole(x: real)
    requires IsWhole(x)
    ensures Trunc(x) as real == x && Round(x) as real == x
  {
    TruncOfInteger(x.Floor);
    RoundOfInteger(x.Floor);
  }

  lemma WholeGiBIsWholeMiB(x: real)
    requires IsWhole(x / 1024.0 / 1024.0 / 1024.0 * 100.0)
    ensures IsWhole(x / 1024.0 / 1024.0 * 100.0)
  {
    Times1024(x / 1024.0 / 1024.0, (x / 1024.0 / 1024.0 / 1024.0 * 100.0).Floor);
  }

  lemma Times1024(y: real, k: int)
    requires k as real == y / 1024.0 * 100.0
    ensures IsWhole(y * 100.0)
  {
    WholeOfInt(1024 * k, y * 100.0);
  }

  lemma WholeOfInt(k: int, x: real)
    requires x == k as real
    ensures IsWhole(x)
  {
  }

  /** The factor between the units of the request and those of the column. */
  function Scale(u: Units, r: Resource): real {
    match r
    case Cpu => if u.cpu == "cores" then 1.0 else 1000.0
    case Memory => if u.memory == "MiB" then 1.0 else if u.memory == "bytes" then 1048576.0 else 1.0 / 1024.0
  }

  lemma UncutScales(u: Units, r: Resource, x: real)
    requires KnownUnits(u) && Uncut(u, r, x)
    ensures Convert(u, r, x) == Scale(u, r) * Convert(COLUMN_UNITS, r, x)
  {
    match r
    case Cpu =>
      if u.cpu != "cores" {
        CutOfWhole(x * 1000.0);
        ThreeDecimals(x);
      }
    case Memory =>
      if u.memory == "bytes" {
        CutOfWhole(x / 1024.0 / 1024.0 * 100.0);
      } else if u.memory == "GiB" {
        WholeGiBIsWholeMiB(x);
        CutOfWhole(x / 1024.0 / 1024.0 * 100.0);
        CutOfWhole(x / 1024.0 / 1024.0 / 1024.0 * 100.0);
      }
  }

  lemma ScaledPercentage(k: real, a: real, b: real)
    requires k > 0.0
    ensures CalculatePercentage(k * a, k * b) == CalculatePercentage(a, b)
  {
    if a != 0.0 && b != 0.0 {
      var q := a / b;
      assert a == q * b;
      assert k * a == q * (k * b);
      assert k * b != 0.0;
      assert k * a / (k * b) == q;
    }
  }

  lemma UncutAgree(u: Units, r: Resource, v: real, c: real)
    requires KnownUnits(u) && Uncut(u, r, v) && Uncut(u, r, c)
    ensures ShownPct(u, r, v, c) == ShownPct(COLUMN_UNITS, r, v, c)
  {
    UncutScales(u, r, v);
    UncutScales(u, r, c);
    ScaledPercentage(Scale(u, r), Convert(COLUMN_UNITS, r, v), Convert(COLUMN_UNITS, r, c));
  }

  /** For amounts that no units cut, and a current request inside its column's range, a percentage is
      reproduced exactly when the variation is not zero and the percentage fits its column. */
  lemma UncutReproducedIff(u: Units, data: RecommendationData, t: TermName, e: EngineName, r: Resource)
    requires KnownUnits(u) && TermOf(data, t).engines.Some?
    requires var c := AmountOf(r, data.current.requests); ClampRequest(r, c) == c && Uncut(u, r, c)
    requires Uncut(u, r, RequestVariation(TermOf(data, t).engines.value, r, e))
    ensures Reproduced(u, data, t, e, r) <==>
              var v := RequestVariation(TermOf(data, t).engines.value, r, e);
              v != 0.0 && Abs(ShownPct(COLUMN_UNITS, r, v, AmountOf(r, data.current.requests))) <= MAX_NUMERIC_10_4
  {
    ReproducedIff(u, data, t, e, r);
    UncutAgree(u, r, RequestVariation(TermOf(data, t).engines.value, r, e), AmountOf(r, data.current.requests));
  }

  // ----- How far apart the two can be

  /** What converting can move an amount by, in hundredths of the unit it is shown in. */
  function Tolerance(u: Units, r: Resource): real {
    match r
    case Cpu => if u.cpu == "cores" then 0.1 else 50.0
    case Memory => if u.memory == "bytes" then 0.0 else 1.0
  }

  /** That, as a share of the current request as it is shown. */
  function Share(u: Units, r: Resource, c: real): real
    requires Convert(u, r, c) != 0.0
  {
    Tolerance(u, r) / Abs(Convert(u, r, c))
  }

  lemma RoundMoves(x: real)
    ensures Abs(x - Round(x) as real) <= 0.5
  {
  }

  lemma MillicoresError(v: real, c: real)
    requires ConvertCPUUnit("millicores", c) != 0.0
    ensures c != 0.0
    ensures Near(TruncateToThreeDecimalPlaces(CalculatePercentage(
                   ConvertCPUUnit("millicores", v), ConvertCPUUnit("millicores", c))), v, c,
                 50.0 / Abs(ConvertCPUUnit("millicores", c)))
  {
    var vt, ct := ConvertCPUUnit("millicores", v), ConvertCPUUnit("millicores", c);
    RoundMoves(v * 1000.0);
    RoundMoves(c * 1000.0);
    RoundOfInteger(0);
    PercentageError(v * 1000.0, c * 1000.0, vt, ct, 0.5, 50.0 / Abs(ct));
    ThousandthOf(TruncateToThreeDecimalPlaces(CalculatePercentage(vt, ct)), v, c, 50.0 / Abs(ct));
  }

  lemma ThousandthOf(p: real, v: real, c: real, tolerance: real)
    requires c != 0.0 && c * 1000.0 != 0.0 && Near(p, v * 1000.0, c * 1000.0, tolerance)
    ensures Near(p, v, c, tolerance)
  {
    SameQuotient(v, c, 1000.0, v * 1000.0, c * 1000.0);
  }

  lemma GiBCut(bytes: real)
    ensures CutTo(bytes / 1073741824.0, TruncateMemoryBytesToGiBTwoDecimals(bytes), 0.01)
  {
  }

  lemma GiBError(v: real, c: real)
    requires TruncateMemoryBytesToGiBTwoDecimals(c) != 0.0
    ensures c != 0.0
    ensures Near(TruncateToThreeDecimalPlaces(CalculatePercentage(
                   TruncateMemoryBytesToGiBTwoDecimals(v), TruncateMemoryBytesToGiBTwoDecimals(c))), v, c,
                 1.0 / Abs(TruncateMemoryBytesToGiBTwoDecimals(c)))
  {
    var vt, ct := TruncateMemoryBytesToGiBTwoDecimals(v), TruncateMemoryBytesToGiBTwoDecimals(c);
    GiBCut(v);
    GiBCut(c);
    PercentageError(v / 1073741824.0, c / 1073741824.0, vt, ct, 0.01, 1.0 / Abs(ct));
    NearScaled(TruncateToThreeDecimalPlaces(CalculatePercentage(vt, ct)), v / 1073741824.0, c / 1073741824.0, 1073741824.0,
               v, c, 1.0 / Abs(ct));
  }

  /** For every request and variation, in all units: a percentage of a request that is shown as nothing is
      shown as zero, any other is within Share * (1 + |v / c|) + 0.001 of the exact one. */
  lemma ShownPctError(u: Units, r: Resource, v: real, c: real)
    requires KnownUnits(u)
    ensures if Convert(u, r, c) == 0.0 then ShownPct(u, r, v, c) == 0.0
            else c != 0.0 && Near(ShownPct(u, r, v, c), v, c, Share(u, r, c))
  {
    if Convert(u, r, c) != 0.0 {
      match r
      case Cpu => if u.cpu == "cores" { CoresError(v, c); } else { MillicoresError(v, c); }
      case Memory =>
        if u.memory == "MiB" {
          MiBError(v, c);
        } else if u.memory == "GiB" {
          GiBError(v, c);
        } else {
          PercentageError(v, c, v, c, 0.0, 0.0);
        }
    }
  }

  predicate Close(x: real, y: real, v: real, c: real, tolerance: real)
    requires c != 0.0
  {
    Abs(x - y) <= tolerance * (1.0 + Abs(v / c)) + 0.002
  }

  /** So a stored percentage that fits its column is within the two shares of the recomputed one; of a request
      that is too small for its column's or the response's unit, the percentage there is zero. */
  lemma StoredPctWithin(u: Units, r: Resource, v: real, c: real)
    requires KnownUnits(u) && ClampRequest(r, c) == c
    requires Abs(ShownPct(COLUMN_UNITS, r, v, c)) <= MAX_NUMERIC_10_4
    ensures WithinShares(u, r, v, c, VariationPercentOfRequest(r, v, ClampRequest(r, c)), ShownPct(u, r, v, c))
  {
    StoredIsShown(r, v, c);
    ShownPctError(u, r, v, c);
    ShownPctError(COLUMN_UNITS, r, v, c);
    if Convert(u, r, c) != 0.0 && Convert(COLUMN_UNITS, r, c) != 0.0 {
      Apart(VariationPercentOfRequest(r, v, c), ShownPct(u, r, v, c), v, c, Share(COLUMN_UNITS, r, c), Share(u, r, c));
    }
  }

  /** How a stored percentage `x` and one recomputed in other units `y` can differ. */
  predicate WithinShares(u: Units, r: Resource, v: real, c: real, x: real, y: real) {
    && (Convert(COLUMN_UNITS, r, c) == 0.0 ==> x == 0.0)
    && (Convert(u, r, c) == 0.0 ==> y == 0.0)
    && (Convert(u, r, c) != 0.0 && Convert(COLUMN_UNITS, r, c) != 0.0 ==>
          c != 0.0 && Close(x, y, v, c, Share(u, r, c) + Share(COLUMN_UNITS, r, c)))
  }

  lemma Apart(x: real, y: real, v: real, c: real, a: real, b: real)
    requires c != 0.0 && Near(x, v, c, a) && Near(y, v, c, b)
    ensures Close(x, y, v, c, b + a)
  {
    var share := 1.0 + Abs(v / c);
    assert (b + a) * share == b * share + a * share;
  }

  /** One core, one byte, one MiB or one GiB. */
  function Least(u: Units, r: Resource): real {
    match r
    case Cpu => 1.0
    case Memory => if u.memory == "bytes" then 1.0 else if u.memory == "MiB" then 1048576.0 else 1073741824.0
  }

  /** That amount as it is shown. */
  function LeastShown(u: Units, r: Resource): real {
    if r == Cpu && u.cpu != "cores" then 1000.0 else 1.0
  }

  /** The share of a request of that size: 0.1 in cores, 0.05 in millicores, 1 in MiB and GiB, 0 in bytes. */
  function LeastShare(u: Units, r: Resource): real {
    Tolerance(u, r) / LeastShown(u, r)
  }

  lemma LargeIsShown(u: Units, r: Resource, c: real)
    requires KnownUnits(u) && Least(u, r) <= c
    ensures LeastShown(u, r) <= Convert(u, r, c)
  {
    match r
    case Cpu =>
      ThreeDecimalsMonotone(1.0, c);
      assert TruncateToThreeDecimalPlaces(1.0) == 1.0;
    case Memory =>
      TruncOfInteger(100);
      if u.memory == "MiB" {
        TruncMonotone(100.0, c / 1024.0 / 1024.0 * 100.0);
      } else if u.memory == "GiB" {
        TruncMonotone(100.0, c / 1024.0 / 1024.0 / 1024.0 * 100.0);
      }
  }

  lemma LargeRequest(u: Units, r: Resource, c: real)
    requires KnownUnits(u) && Least(u, r) <= c
    ensures Convert(u, r, c) > 0.0 && Share(u, r, c) <= LeastShare(u, r)
  {
    LargeIsShown(u, r, c);
    SmallShare(Tolerance(u, r), Convert(u, r, c), LeastShown(u, r));
  }

  lemma SmallShare(tolerance: real, x: real, unit: real)
    requires tolerance >= 0.0 && 0.0 < unit <= x
    ensures tolerance / Abs(x) <= tolerance / unit
  {
    ShareAtMost(tolerance, x, unit);
  }

  /** From one unit up, the bounds do not depend on the request. */
  lemma LargeRequestError(u: Units, r: Resource, v: real, c: real)
    requires KnownUnits(u) && Least(u, r) <= c
    ensures Near(ShownPct(u, r, v, c), v, c, LeastShare(u, r))
  {
    LargeRequest(u, r, c);
    ShownPctError(u, r, v, c);
    NearWider(ShownPct(u, r, v, c), v, c, Share(u, r, c), LeastShare(u, r));
  }

  lemma LargeRequestWithin(u: Units, r: Resource, v: real, c: real)
    requires KnownUnits(u) && Least(u, r) <= c && Least(COLUMN_UNITS, r) <= c && ClampRequest(r, c) == c
    requires Abs(ShownPct(COLUMN_UNITS, r, v, c)) <= MAX_NUMERIC_10_4
    ensures Close(VariationPercentOfRequest(r, v, ClampRequest(r, c)), ShownPct(u, r, v, c), v, c,
                  LeastShare(u, r) + LeastShare(COLUMN_UNITS, r))
  {
    StoredIsShown(r, v, c);
    LargeRequestError(u, r, v, c);
    LargeRequestError(COLUMN_UNITS, r, v, c);
    Apart(VariationPercentOfRequest(r, v, c), ShownPct(u, r, v, c), v, c, LeastShare(COLUMN_UNITS, r), LeastShare(u, r));
  }

  lemma StoredIsShown(r: Resource, v: real, c: real)
    requires Abs(ShownPct(COLUMN_UNITS, r, v, c)) <= MAX_NUMERIC_10_4
    ensures VariationPercentOfRequest(r, v, c) == ShownPct(COLUMN_UNITS, r, v, c)
  {
  }

  // ----- In the response

  /** A request's variation in a response for a recommendation. */
  function RequestShown(response: Response, t: TermName, e: EngineName, r: Resource): Json {
    if response.Tree? then Field(CellsAt(response.json, t, e, Requests, r).variation, AmountKey) else Null
  }

  lemma MarshalledVariation(text: Instant -> string, data: RecommendationData, t: TermName, e: EngineName, r: Resource)
    requires TermOf(data, t).engines.Some?
    ensures CellIn(EngineAt(Marshal(text, data), t, e), VariationKey, Requests, r) ==
              MarshalAmount(ResourceOf(r, EngineOf(TermOf(data, t).engines.value, e).variation.requests))
  {
    var engine := EngineOf(TermOf(data, t).engines.value, e);
    MarshalledEngines(text, data, t, e);
    EngineVariation(MarshalConfig(engine.config), MarshalConfig(engine.variation), NotificationsOrNull(engine.notifications));
    MarshalledResource(engine.variation, r);
  }

  lemma EngineVariation(config: Json, variation: Json, notifications: Json)
    ensures Field(EngineObject(config, variation, notifications), VariationKey) == variation
  {
  }

  lemma MarshalledCurrent(text: Instant -> string, data: RecommendationData, r: Resource)
    ensures CellIn(Marshal(text, data), CurrentKey, Requests, r) == MarshalAmount(ResourceOf(r, data.current.requests))
  {
    MarshalledRoot(text, data);
    MarshalledResource(data.current, r);
  }

  lemma MarshalledResource(c: Config, r: Resource)
    ensures Field(Field(MarshalConfig(c), SectionKey(Requests)), ResourceKey(r)) == MarshalAmount(ResourceOf(r, c.requests))
  {
    assert Field(MarshalConfig(c), SectionKey(Requests)) == MarshalResources(c.requests);
  }

  function SectionOf(s: Section, c: Config): Resources {
    match s case Limits => c.limits case Requests => c.requests
  }

  lemma MarshalledSection(c: Config, s: Section, r: Resource)
    ensures Field(Field(MarshalConfig(c), SectionKey(s)), ResourceKey(r)) == MarshalAmount(ResourceOf(r, SectionOf(s, c)))
  {
    assert Field(MarshalConfig(c), SectionKey(s)) == MarshalResources(SectionOf(s, c));
  }

  lemma MarshalledConfig(text: Instant -> string, data: RecommendationData, t: TermName, e: EngineName, s: Section, r: Resource)
    requires TermOf(data, t).engines.Some?
    ensures CellIn(EngineAt(Marshal(text, data), t, e), ConfigKey, s, r) ==
              MarshalAmount(ResourceOf(r, SectionOf(s, EngineOf(TermOf(data, t).engines.value, e).config)))
  {
    var engine := EngineOf(TermOf(data, t).engines.value, e);
    MarshalledEngines(text, data, t, e);
    EngineConfig(MarshalConfig(engine.config), MarshalConfig(engine.variation), NotificationsOrNull(engine.notifications));
    MarshalledSection(engine.config, s, r);
  }

  lemma EngineConfig(config: Json, variation: Json, notifications: Json)
    ensures Field(EngineObject(config, variation, notifications), ConfigKey) == config
  {
  }

  /** An amount is served in the units of the request and with their name, unless it is zero. */
  ghost predicate AmountServed(u: Units, r: Resource, a: Amount, cell: Json) {
    && Field(cell, AmountKey) == (if a.amount == 0.0 then Null else Num(Convert(u, r, a.amount)))
    && (a.amount != 0.0 ==> Field(cell, FormatKey) == Str(FormatName(u, r)))
  }

  lemma AmountInUnits(u: Units, r: Resource, a: Amount)
    ensures AmountServed(u, r, a, InUnits(u, r, MarshalAmount(a)))
  {
    AmountField(a);
    if a.amount != 0.0 {
      CellAmountIs(MarshalAmount(a), Convert(u, r, a.amount), FormatName(u, r));
    }
  }

  /** For every recommendation, in either form and in all units, from the payload to the response: each engine's
      recommended and the current limits and requests, each resource under its own name. */
  lemma AmountsServed(forList: bool, u: Units, text: Instant -> string, data: RecommendationData, stored: Option<Columns>,
                      t: TermName, e: EngineName, s: Section, r: Resource)
    requires TermOf(data, t).engines.Some?
    ensures match UpdateRecommendationJSON(forList, u, Marshal(text, data), stored)
            case Tree(out) =>
              && AmountServed(u, r, ResourceOf(r, SectionOf(s, EngineOf(TermOf(data, t).engines.value, e).config)),
                              CellsAt(out, t, e, s, r).config)
              && AmountServed(u, r, ResourceOf(r, SectionOf(s, data.current)), CellsAt(out, t, e, s, r).current)
            case _ => false
  {
    var x := ResourceOf(r, SectionOf(s, EngineOf(TermOf(data, t).engines.value, e).config));
    var y := ResourceOf(r, SectionOf(s, data.current));
    MarshalledIsAsserted(text, data);
    MarshalledConfig(text, data, t, e, s, r);
    MarshalledRoot(text, data);
    MarshalledSection(data.current, s, r);
    ResponseCells(forList, u, Marshal(text, data), stored, t, e, s, r);
    AmountInUnits(u, r, x);
    AmountInUnits(u, r, y);
  }

  function QuantileOf(b: BoxPlot, key: Key): real {
    if key == Q1Key then b.q1 else if key == Q3Key then b.q3 else if key == MinKey then b.min
    else if key == MaxKey then b.max else b.median
  }

  function UsageOf(p: PlotPoint, r: Resource): Option<BoxPlot> {
    match r case Cpu => p.cpuUsage case Memory => p.memoryUsage
  }

  /** In a union of fields, a key that only one part can have is that part's. */
  lemma OfLast(before: Fields, last: Fields, key: Key)
    requires key !in before
    ensures Field(Obj(before + last), key) == Field(Obj(last), key)
  {
  }

  lemma OfEarlier(before: Fields, last: Fields, key: Key)
    requires key !in last
    ensures Field(Obj(before + last), key) == Field(Obj(before), key)
  {
  }

  lemma NumberOf(key: Key, x: real)
    ensures Field(Obj(NumberField(key, x)), key) == if x == 0.0 then Null else Num(x)
  {
  }

  lemma BoxPlotFields(min: Fields, q1: Fields, median: Fields, q3: Fields, max: Fields, format: Fields, key: Key)
    requires min.Keys <= {MinKey} && q1.Keys <= {Q1Key} && median.Keys <= {MedianKey}
    requires q3.Keys <= {Q3Key} && max.Keys <= {MaxKey} && format.Keys <= {FormatKey}
    ensures Field(Obj(min + q1 + median + q3 + max + format), key) ==
              if key == MinKey then Field(Obj(min), key) else if key == Q1Key then Field(Obj(q1), key)
              else if key == MedianKey then Field(Obj(median), key) else if key == Q3Key then Field(Obj(q3), key)
              else if key == MaxKey then Field(Obj(max), key) else Field(Obj(format), key)
  {
    if key == FormatKey {
      OfLast(min + q1 + median + q3 + max, format, key);
    } else {
      OfEarlier(min + q1 + median + q3 + max, format, key);
      if key == MaxKey {
        OfLast(min + q1 + median + q3, max, key);
      } else {
        OfEarlier(min + q1 + median + q3, max, key);
        if key == Q3Key {
          OfLast(min + q1 + median, q3, key);
        } else {
          OfEarlier(min + q1 + median, q3, key);
          if key == MedianKey {
            OfLast(min + q1, median, key);
          } else {
            OfEarlier(min + q1, median, key);
            if key == Q1Key {
              OfLast(min, q1, key);
            } else {
              OfEarlier(min, q1, key);
            }
          }
        }
      }
    }
  }

  lemma MarshalledBoxPlot(key: Key, b: BoxPlot, q: Key)
    requires IsQuantile(q)
    ensures var usage := Field(Obj(UsageField(key, Some(b))), key);
            && usage.Obj?
            && Field(usage, q) == (if QuantileOf(b, q) == 0.0 then Null else Num(QuantileOf(b, q)))
            && Field(usage, FormatKey) == (if b.format == "" then Null else Str(b.format))
  {
    var min, q1, median := NumberField(MinKey, b.min), NumberField(Q1Key, b.q1), NumberField(MedianKey, b.median);
    var q3, max, format := NumberField(Q3Key, b.q3), NumberField(MaxKey, b.max), TextField(FormatKey, b.format);
    assert Field(Obj(UsageField(key, Some(b))), key) == Obj(min + q1 + median + q3 + max + format);
    BoxPlotFields(min, q1, median, q3, max, format, q);
    BoxPlotFields(min, q1, median, q3, max, format, FormatKey);
    NumberOf(q, QuantileOf(b, q));
  }

  lemma MarshalledPoint(p: PlotPoint, r: Resource)
    ensures Field(Obj(UsageField(CpuUsageKey, p.cpuUsage) + UsageField(MemoryUsageKey, p.memoryUsage)), UsageKey(r)) ==
              Field(Obj(UsageField(UsageKey(r), UsageOf(p, r))), UsageKey(r))
  {
  }

  lemma MarshalledPlots(text: Instant -> string, term: Term, point: string, r: Resource)
    requires term.plots.Some? && point in term.plots.value.plotsData
    ensures UsageIn(MarshalTerm(text, term), Text(point), r) ==
              Field(Obj(UsageField(UsageKey(r), UsageOf(term.plots.value.plotsData[point], r))), UsageKey(r))
  {
    MarshalledPoint(term.plots.value.plotsData[point], r);
    MarshalledTermFields(text, term);
    PlotsData(term.plots.value, point);
  }

  lemma PointIn(points: map<string, PlotPoint>, point: string)
    requires point in points
    ensures Field(PointsObject(points), Text(point)) ==
              Obj(UsageField(CpuUsageKey, points[point].cpuUsage) + UsageField(MemoryUsageKey, points[point].memoryUsage))
  {
    assert Text(point) in PointsObject(points).fields;
  }

  lemma PlotsData(p: Plot, point: string)
    requires point in p.plotsData
    ensures Field(Field(Field(Obj(PlotsField(Some(p))), PlotsKey), PlotsDataKey), Text(point)) ==
              Obj(UsageField(CpuUsageKey, p.plotsData[point].cpuUsage) + UsageField(MemoryUsageKey, p.plotsData[point].memoryUsage))
  {
    var points: Fields := map[PlotsDataKey := PointsObject(p.plotsData)];
    assert p.plotsData != map[];
    assert Field(Obj(PlotsField(Some(p))), PlotsKey) == Obj(NumberField(Text("datapoints"), p.dataPoints as real) + points);
    OfLast(NumberField(Text("datapoints"), p.dataPoints as real), points, PlotsDataKey);
    PointIn(p.plotsData, point);
  }

  lemma TermParts(duration: Fields, notes: Fields, start: Fields, engines: Fields, plots: Fields)
    requires duration.Keys <= {DurationInHoursKey} && notes.Keys <= {NotificationsKey}
    requires start.Keys <= {MonitoringStartTimeKey} && engines.Keys <= {RecommendationEnginesKey} && plots.Keys <= {PlotsKey}
    ensures var whole := Obj(duration + notes + start + engines + plots);
            && Field(whole, PlotsKey) == Field(Obj(plots), PlotsKey)
            && Field(whole, MonitoringStartTimeKey) == Field(Obj(start), MonitoringStartTimeKey)
            && Field(whole, DurationInHoursKey) == Field(Obj(duration), DurationInHoursKey)
  {
    OfLast(duration + notes + start + engines, plots, PlotsKey);
    OfEarlier(duration + notes + start + engines, plots, MonitoringStartTimeKey);
    OfEarlier(duration + notes + start, engines, MonitoringStartTimeKey);
    OfLast(duration + notes, start, MonitoringStartTimeKey);
    OfEarlier(duration + notes + start + engines, plots, DurationInHoursKey);
    OfEarlier(duration + notes + start, engines, DurationInHoursKey);
    OfEarlier(duration + notes, start, DurationInHoursKey);
    OfEarlier(duration, notes, DurationInHoursKey);
  }

  lemma MarshalledTermFields(text: Instant -> string, term: Term)
    ensures Field(MarshalTerm(text, term), PlotsKey) == Field(Obj(PlotsField(term.plots)), PlotsKey)
    ensures Field(MarshalTerm(text, term), DurationInHoursKey) ==
              if term.durationInHours == 0.0 then Null else Num(term.durationInHours)
    ensures Field(MarshalTerm(text, term), MonitoringStartTimeKey) == Str(text(term.monitoringStartTime))
  {
    TermParts(NumberField(DurationInHoursKey, term.durationInHours), NotificationsField(term.notifications),
              map[MonitoringStartTimeKey := Str(text(term.monitoringStartTime))], EnginesField(term.engines),
              PlotsField(term.plots));
    NumberOf(DurationInHoursKey, term.durationInHours);
  }

  /** From the payload to the response: a term's start time unless it stands for none, and its duration in
      tenths of an hour. */
  lemma TermsServed(u: Units, text: Instant -> string, data: RecommendationData, stored: Option<Columns>, t: TermName)
    ensures match UpdateRecommendationJSON(false, u, Marshal(text, data), stored)
            case Tree(out) =>
              var start, shown := text(TermOf(data, t).monitoringStartTime), TermAt(out, t);
              && Field(shown, MonitoringStartTimeKey) == (if start == "0001-01-01T00:00:00Z" then Null else Str(start))
              && (TermOf(data, t).durationInHours != 0.0 ==>
                    && Field(shown, DurationInHoursKey).Num?
                    && CutToSteps(TermOf(data, t).durationInHours, Field(shown, DurationInHoursKey).n, 10.0))
            case _ => false
  {
    MarshalledIsAsserted(text, data);
    MarshalledTerm(text, data, t);
    MarshalledTermFields(text, TermOf(data, t));
    ResponseTermFields(false, u, Marshal(text, data), stored, t);
  }

  /** A box plot as it is served: each quantile in the units of its resource. */
  ghost predicate BoxPlotServed(u: Units, r: Resource, b: BoxPlot, shown: Json) {
    && (forall q :: IsQuantile(q) ==> Field(shown, q) == Num(Convert(u, r, QuantileOf(b, q))))
    && Field(shown, FormatKey) == (if b.format == "" then Null else Str(FormatName(u, r)))
  }

  lemma ShownBoxPlot(u: Units, r: Resource, b: BoxPlot, usage: Json, after: Json)
    requires usage == Field(Obj(UsageField(UsageKey(r), Some(b))), UsageKey(r)) && UsageShown(u, r, usage, after)
    ensures BoxPlotServed(u, r, b, after)
  {
    ZeroConverts(u, r);
    forall q | IsQuantile(q) ensures Field(after, q) == Num(Convert(u, r, QuantileOf(b, q))) {
      MarshalledBoxPlot(UsageKey(r), b, q);
    }
    MarshalledBoxPlot(UsageKey(r), b, Q1Key);
    assert !IsQuantile(FormatKey);
  }

  lemma PlotsServed(u: Units, text: Instant -> string, data: RecommendationData, stored: Option<Columns>,
                    t: TermName, point: string, r: Resource)
    requires TermOf(data, t).plots.Some? && point in TermOf(data, t).plots.value.plotsData
    requires UsageOf(TermOf(data, t).plots.value.plotsData[point], r).Some?
    ensures match UpdateRecommendationJSON(false, u, Marshal(text, data), stored)
            case Tree(out) =>
              BoxPlotServed(u, r, UsageOf(TermOf(data, t).plots.value.plotsData[point], r).value,
                            UsageIn(TermAt(out, t), Text(point), r))
            case _ => false
  {
    var b := UsageOf(TermOf(data, t).plots.value.plotsData[point], r).value;
    MarshalledIsAsserted(text, data);
    MarshalledTerm(text, data, t);
    MarshalledPlots(text, TermOf(data, t), point, r);
    ResponsePlots(u, Marshal(text, data), stored, t, Text(point), r);
    match UpdateRecommendationJSON(false, u, Marshal(text, data), stored)
    case Tree(out) =>
      ShownBoxPlot(u, r, b, UsageIn(TermAt(Marshal(text, data), t), Text(point), r), UsageIn(TermAt(out, t), Text(point), r));
    case _ =>
  }

  lemma AmountField(a: Amount)
    ensures MarshalAmount(a).Obj?
    ensures Field(MarshalAmount(a), AmountKey) == if a.amount == 0.0 then Null else Num(a.amount)
  {
    assert AmountKey in MarshalAmount(a).fields <==> a.amount != 0.0;
  }

  lemma CellAmountIs(cell: Json, x: real, format: string)
    requires cell.Obj?
    ensures Field(Cell(cell, x, format), AmountKey) == Num(x) && Field(Cell(cell, x, format), FormatKey) == Str(format)
  {
  }

  /** The cells of a request of a recommendation, as they are shown. */
  lemma VariationOf(u: Units, x: Amount, y: Amount, config: Json, stored: Option<Columns>,
                    t: TermName, e: EngineName, r: Resource)
    ensures var cells := Cells(MarshalAmount(y), config, MarshalAmount(x));
            var shown := Field(VariationShown(u, cells, stored, t, e, Requests, r), AmountKey);
            if ReadsStored(stored) then
              StoredPct(stored.value, r, t, e).Some? ==> shown == Num(StoredPct(stored.value, r, t, e).value)
            else shown == if x.amount == 0.0 then Null else Num(ShownPct(u, r, x.amount, y.amount))
  {
    AmountField(x);
    CurrentInUnits(u, r, y);
    CellAmountIs(MarshalAmount(x), ShownPct(u, r, x.amount, y.amount), "percent");
    if ReadsStored(stored) && StoredPct(stored.value, r, t, e).Some? {
      CellAmountIs(MarshalAmount(x), StoredPct(stored.value, r, t, e).value, "percent");
    }
  }

  lemma RequestServed(forList: bool, u: Units, text: Instant -> string, data: RecommendationData,
                      stored: Option<Columns>, t: TermName, e: EngineName, r: Resource)
    requires TermOf(data, t).engines.Some?
    ensures var shown := RequestShown(UpdateRecommendationJSON(forList, u, Marshal(text, data), stored), t, e, r);
            if ReadsStored(stored) then
              StoredPct(stored.value, r, t, e).Some? ==> shown == Num(StoredPct(stored.value, r, t, e).value)
            else
              var v := RequestVariation(TermOf(data, t).engines.value, r, e);
              shown == if v == 0.0 then Null else Num(ShownPct(u, r, v, AmountOf(r, data.current.requests)))
  {
    var blob := Marshal(text, data);
    var x := ResourceOf(r, EngineOf(TermOf(data, t).engines.value, e).variation.requests);
    var y := ResourceOf(r, data.current.requests);
    MarshalledIsAsserted(text, data);
    MarshalledVariation(text, data, t, e, r);
    MarshalledCurrent(text, data, r);
    ResponseCells(forList, u, blob, stored, t, e, Requests, r);
    assert UpdateRecommendationJSON(forList, u, blob, stored).Tree?;
    VariationOf(u, x, y, CellsAt(blob, t, e, Requests, r).config, stored, t, e, r);
  }

  /** For every recommendation, in either form and in all units: a request's variation is served as its stored
      percentage, and recomputed in the units of the request, or not at all when it is zero. */
  lemma PercentagesServed(forList: bool, u: Units, text: Instant -> string, data: RecommendationData,
                          t: TermName, e: EngineName, r: Resource)
    requires TermOf(data, t).engines.Some?
    ensures var v := RequestVariation(TermOf(data, t).engines.value, r, e);
            var c := AmountOf(r, data.current.requests);
            var blob := Marshal(text, data);
            && RequestShown(UpdateRecommendationJSON(forList, u, blob, Some(Stored(Extract(data)))), t, e, r) ==
                 Num(VariationPercentOfRequest(r, v, ClampRequest(r, c)))
            && RequestShown(UpdateRecommendationJSON(forList, u, blob, None), t, e, r) ==
                 if v == 0.0 then Null else Num(ShownPct(u, r, v, c))
  {
    ValuesIffEngines(data);
    StoredPctOf(data, t, e, r);
    RequestServed(forList, u, text, data, Some(Stored(Extract(data))), t, e, r);
    RequestServed(forList, u, text, data, None, t, e, r);
  }

  /** The variation is there and not zero, and the current request and the percentage are inside their columns. */
  predicate Comparable(u: Units, data: RecommendationData, t: TermName, e: EngineName, r: Resource) {
    var c := AmountOf(r, data.current.requests);
    && KnownUnits(u) && TermOf(data, t).engines.Some? && ClampRequest(r, c) == c
    && var v := RequestVariation(TermOf(data, t).engines.value, r, e);
       v != 0.0 && Abs(ShownPct(COLUMN_UNITS, r, v, c)) <= MAX_NUMERIC_10_4
  }

  /** Two percentages no further apart than the shares of the units of the request and of the columns. */
  predicate ServedClose(fast: Json, slow: Json, u: Units, data: RecommendationData,
                        t: TermName, e: EngineName, r: Resource)
    requires Comparable(u, data, t, e, r)
  {
    && fast.Num? && slow.Num?
    && WithinShares(u, r, RequestVariation(TermOf(data, t).engines.value, r, e), AmountOf(r, data.current.requests),
                    fast.n, slow.n)
  }

  lemma ResponsesClose(forList: bool, u: Units, text: Instant -> string, data: RecommendationData,
                       t: TermName, e: EngineName, r: Resource)
    requires Comparable(u, data, t, e, r)
    ensures var blob := Marshal(text, data);
            ServedClose(RequestShown(UpdateRecommendationJSON(forList, u, blob, Some(Stored(Extract(data)))), t, e, r),
                        RequestShown(UpdateRecommendationJSON(forList, u, blob, None), t, e, r), u, data, t, e, r)
  {
    PercentagesServed(forList, u, text, data, t, e, r);
    PercentagesClose(u, data, t, e, r);
  }

  lemma PercentagesClose(u: Units, data: RecommendationData, t: TermName, e: EngineName, r: Resource)
    requires Comparable(u, data, t, e, r)
    ensures var v := RequestVariation(TermOf(data, t).engines.value, r, e);
            var c := AmountOf(r, data.current.requests);
            ServedClose(Num(VariationPercentOfRequest(r, v, ClampRequest(r, c))), Num(ShownPct(u, r, v, c)), u, data, t, e, r)
  {
    StoredPctWithin(u, r, RequestVariation(TermOf(data, t).engines.value, r, e), AmountOf(r, data.current.requests));
  }

  /** A million bytes more for a container with three, and a third of its tenth of a core. */
  function Sample(): RecommendationData {
    var none := Resources(Amount(0.0, ""), Amount(0.0, ""));
    var variation := Config(none, Resources(Amount(0.03479, "cores"), Amount(1_000_000.0, "bytes")));
    var engine := Engine(Config(none, none), variation, None);
    var term := Term(24.0, map[], 0, None, None);
    RecommendationData(map[], 0, Config(none, Resources(Amount(0.1, "cores"), Amount(3_000_000.0, "bytes"))),
                       term.(engines := Some(Engines(engine, engine))), term, term)
  }

  lemma SampleServed(u: Units, text: Instant -> string, r: Resource)
    ensures var blob := Marshal(text, Sample());
            var v, c := if r == Cpu then 0.03479 else 1_000_000.0, if r == Cpu then 0.1 else 3_000_000.0;
            && RequestShown(UpdateRecommendationJSON(true, u, blob, Some(Stored(Extract(Sample())))), ShortTerm, Cost, r) ==
                 Num(VariationPercentOfRequest(r, v, ClampRequest(r, c)))
            && RequestShown(UpdateRecommendationJSON(true, u, blob, None), ShortTerm, Cost, r) == Num(ShownPct(u, r, v, c))
  {
    PercentagesServed(true, u, text, Sample(), ShortTerm, Cost, r);
    SampleAmounts(r);
  }

  lemma SampleAmounts(r: Resource)
    ensures TermOf(Sample(), ShortTerm).engines.Some?
    ensures RequestVariation(TermOf(Sample(), ShortTerm).engines.value, r, Cost) == if r == Cpu then 0.03479 else 1_000_000.0
    ensures AmountOf(r, Sample().current.requests) == if r == Cpu then 0.1 else 3_000_000.0
  {
  }

  /** In a list response in bytes, which is what the list endpoints default to, the stored percentage is
      not the one the response would compute: 33.216 against 33.333. */
  lemma BytesListDiffers(text: Instant -> string)
    ensures var blob, u := Marshal(text, Sample()), Units("cores", "bytes", true);
            var fast := UpdateRecommendationJSON(true, u, blob, Some(Stored(Extract(Sample()))));
            var slow := UpdateRecommendationJSON(true, u, blob, None);
            && RequestShown(fast, ShortTerm, Cost, Memory) == Num(33.216)
            && RequestShown(slow, ShortTerm, Cost, Memory) == Num(33.333)
  {
    SampleServed(Units("cores", "bytes", true), text, Memory);
    SamplePercentages();
  }

  /** For a request below a core the two can be a whole percent apart, more than for any request from a core up:
      in millicores 34 is stored where the response would compute 35. */
  lemma MillicoresListDiffers(text: Instant -> string)
    ensures var blob, u := Marshal(text, Sample()), Units("millicores", "bytes", true);
            var fast := UpdateRecommendationJSON(true, u, blob, Some(Stored(Extract(Sample()))));
            var slow := UpdateRecommendationJSON(true, u, blob, None);
            && RequestShown(fast, ShortTerm, Cost, Cpu) == Num(34.0)
            && RequestShown(slow, ShortTerm, Cost, Cpu) == Num(35.0)
            && !Close(34.0, 35.0, 0.03479, 0.1, LeastShare(u, Cpu) + LeastShare(COLUMN_UNITS, Cpu))
  {
    SampleServed(Units("millicores", "bytes", true), text, Cpu);
    SampleCpuPercentages();
  }

  lemma SampleCpuPercentages()
    ensures VariationPercentOfRequest(Cpu, 0.03479, ClampRequest(Cpu, 0.1)) == 34.0
    ensures ShownPct(Units("millicores", "bytes", true), Cpu, 0.03479, 0.1) == 35.0
  {
    ThreeDecimals(0.03479);
    assert TruncateToThreeDecimalPlaces(0.1) == 0.1;
    assert TruncateToThreeDecimalPlaces(0.03479) == 0.034;
    assert ConvertCPUUnit("millicores", 0.03479) == 35.0 && ConvertCPUUnit("millicores", 0.1) == 100.0;
  }

  lemma SamplePercentages()
    ensures VariationPercentOfRequest(Memory, 1_000_000.0, ClampRequest(Memory, 3_000_000.0)) == 33.216
    ensures ShownPct(Units("cores", "bytes", true), Memory, 1_000_000.0, 3_000_000.0) == 33.333
  {
    assert Trunc(1_000_000.0 / 1024.0 / 1024.0 * 100.0) == 95;
    assert Trunc(3_000_000.0 / 1024.0 / 1024.0 * 100.0) == 286;
    ThreeDecimals(CalculatePercentage(0.95, 2.86));
    ThreeDecimals(CalculatePercentage(1_000_000.0, 3_000_000.0));
  }

  lemma CurrentInUnits(u: Units, r: Resource, a: Amount)
    ensures AmountOrZero(InUnits(u, r, MarshalAmount(a))) == Convert(u, r, a.amount)
  {
    AmountField(a);
    ZeroConverts(u, r);
    if a.amount != 0.0 {
      CellAmountIs(MarshalAmount(a), Convert(u, r, a.amount), FormatName(u, r));
    }
  }
}
