/** JSON trees as the API handlers hold them. An object that came out of json.Unmarshal shares no part
    with any other, so an update in place is an update of the value. */
module JsonTree {
  import opened Payload

  datatype Section = Limits | Requests

  /** Field names: those the passes look for have a name of their own, any other is its text. */
  datatype Key =
    | CurrentKey | RecommendationTermsKey | RecommendationEnginesKey | NotificationsKey
    | ConfigKey | VariationKey | AmountKey | FormatKey
    | PlotsKey | PlotsDataKey | CpuUsageKey | MemoryUsageKey | Q1Key | Q3Key | MinKey | MaxKey | MedianKey
    | MonitoringStartTimeKey | DurationInHoursKey
    | TermKey(t: TermName) | EngineKey(e: EngineName) | SectionKey(s: Section) | ResourceKey(r: Resource)
    | Text(text: string)

  datatype Json =
    | Null
    | Bool(b: bool)
    | Num(n: real)
    | Str(s: string)
    | Arr(items: seq<Json>)
    | Obj(fields: map<Key, Json>)

  /** `m[key]`, nil when absent or when there is no object to look in. */
  function Field(j: Json, key: Key): Json {
    if j.Obj? && key in j.fields then j.fields[key] else Null
  }

  /** `m[key] = v`. */
  function Put(j: Json, key: Key, v: Json): Json {
    if j.Obj? then Obj(j.fields[key := v]) else j
  }

  /** `delete(m, key)`. */
  function Remove(j: Json, key: Key): Json {
    if j.Obj? then Obj(j.fields - {key}) else j
  }

  lemma RemoveAfterPut(j: Json, key: Key, v: Json, other: Key)
    requires key != other
    ensures Remove(Put(j, key, v), other) == Put(Remove(j, other), key, v)
  {
  }

  lemma RemoveTwo(j: Json, key: Key, other: Key)
    ensures Remove(Remove(j, key), other) == Remove(Remove(j, other), key)
  {
    if j.Obj? {
      assert j.fields - {key} - {other} == j.fields - {other} - {key};
    }
  }

  lemma FieldOfPut(j: Json, key: Key, v: Json, k: Key)
    requires j.Obj?
    ensures Field(Put(j, key, v), k) == if k == key then v else Field(j, k)
    ensures Put(j, key, v).Obj? && (key in j.fields ==> Put(j, key, v).fields.Keys == j.fields.Keys)
  {
  }

  lemma PutTwo(j: Json, key: Key, v: Json, other: Key, w: Json)
    requires key != other
    ensures Put(Put(j, key, v), other, w) == Put(Put(j, other, w), key, v)
  {
  }

  lemma PutEqual(j: Json, key: Key, v: Json, w: Json)
    requires j.Obj?
    ensures Put(j, key, v) == Put(j, key, w) <==> v == w
  {
    assert Field(Put(j, key, v), key) == v;
    assert Field(Put(j, key, w), key) == w;
  }
}

/** The passes that turn a stored recommendation into an API response. */
module RecommendationJson {
  import opened Wrappers
  import opened Conversion
  import opened Payload
  import opened JsonTree

  /** Unit choices of a request; `k8s` asks for Kubernetes unit names. */
  datatype Units = Units(cpu: string, memory: string, k8s: bool)

  /** The passes over the terms of a recommendation. */
  datatype Pass =
    | ToUnits(u: Units)
    | FilterNotifications
    | DropPlots
    | InjectStored(cols: Columns)
    | ToPercent(cpuLimits: real, memoryLimits: real, cpuRequests: real, memoryRequests: real, skipRequests: bool)

  // ----- Cells: {amount, format}

  function ConvertCPUUnit(unit: string, x: real): real {
    if unit == "millicores" then Round(x * 1000.0) as real
    else if unit == "cores" then TruncateToThreeDecimalPlaces(x)
    else x
  }

  function ConvertMemoryUnit(unit: string, x: real): real {
    if unit == "MiB" then TruncateMemoryBytesToMiBTwoDecimals(x)
    else if unit == "GiB" then TruncateMemoryBytesToGiBTwoDecimals(x)
    else if unit == "bytes" then x
    else 0.0
  }

  function Convert(u: Units, r: Resource, x: real): real {
    match r case Cpu => ConvertCPUUnit(u.cpu, x) case Memory => ConvertMemoryUnit(u.memory, x)
  }

  function FormatName(u: Units, r: Resource): string {
    match r
    case Cpu => if !u.k8s then u.cpu else if u.cpu == "millicores" then "m" else ""
    case Memory =>
      if !u.k8s then u.memory
      else if u.memory == "bytes" then "bytes"
      else if u.memory == "MiB" then "Mi"
      else if u.memory == "GiB" then "Gi"
      else ""
  }

  /** What a cut amount is: no further from zero, less than a step away, and a whole number of steps. */
  predicate CutToSteps(x: real, shown: real, steps: real)
    requires steps > 0.0
  {
    && CutTo(x, shown, 1.0 / steps) && (shown * steps).Floor as real == shown * steps
  }

  /** Amounts as they are shown: cores cut to thousandths, whole millicores to the nearest, bytes as they are,
      MiB and GiB cut to hundredths. */
  lemma ConversionMeans(x: real)
    ensures CutToSteps(x, ConvertCPUUnit("cores", x), 1000.0)
    ensures var m := ConvertCPUUnit("millicores", x); m.Floor as real == m && -0.5 <= m - 1000.0 * x <= 0.5
    ensures ConvertMemoryUnit("bytes", x) == x
    ensures CutToSteps(x / 1_048_576.0, ConvertMemoryUnit("MiB", x), 100.0)
    ensures CutToSteps(x / 1_073_741_824.0, ConvertMemoryUnit("GiB", x), 100.0)
  {
    ThreeDecimalsCut(x);
    ThreeDecimals(x);
    WholeSteps(Trunc(x * 1000.0), 1000.0);
    Rounded(x * 1000.0);
    MiBCut(x);
    WholeSteps(Trunc(x / 1024.0 / 1024.0 * 100.0), 100.0);
    WholeSteps(Trunc(x / 1024.0 / 1024.0 / 1024.0 * 100.0), 100.0);
  }

  lemma WholeSteps(k: int, steps: real)
    requires steps > 0.0
    ensures (k as real / steps * steps).Floor as real == k as real / steps * steps
  {
    assert k as real / steps * steps == k as real;
  }

  /** A unit by any other name leaves a CPU amount and drops a memory amount. */
  lemma OtherUnits(unit: string, x: real)
    ensures unit !in {"cores", "millicores"} ==> ConvertCPUUnit(unit, x) == x
    ensures unit !in {"bytes", "MiB", "GiB"} ==> ConvertMemoryUnit(unit, x) == 0.0
  {
  }

  /** How the units are named, in a request that asks for Kubernetes names and in one that does not. */
  lemma FormatNames(u: Units)
    requires u.cpu in {"cores", "millicores"} && u.memory in {"bytes", "MiB", "GiB"}
    ensures !u.k8s ==> FormatName(u, Cpu) == u.cpu && FormatName(u, Memory) == u.memory
    ensures u.k8s ==>
              && (u.cpu == "cores" ==> FormatName(u, Cpu) == "") && (u.cpu == "millicores" ==> FormatName(u, Cpu) == "m")
              && (u.memory == "bytes" ==> FormatName(u, Memory) == "bytes")
              && (u.memory == "MiB" ==> FormatName(u, Memory) == "Mi")
              && (u.memory == "GiB" ==> FormatName(u, Memory) == "Gi")
  {
  }

  function Cell(cell: Json, amount: real, format: string): Json {
    Put(Put(cell, AmountKey, Num(amount)), FormatKey, Str(format))
  }

  function CurrentFor(p: Pass, s: Section, r: Resource): real
    requires p.ToPercent?
  {
    match s
    case Limits => (match r case Cpu => p.cpuLimits case Memory => p.memoryLimits)
    case Requests => (match r case Cpu => p.cpuRequests case Memory => p.memoryRequests)
  }

  /** What unit conversion and percentage conversion make of an amount. */
  function CellPass(p: Pass, s: Section, r: Resource, cell: Json): Json {
    if !Field(cell, AmountKey).Num? then cell
    else
      var x := Field(cell, AmountKey).n;
      match p
      case ToUnits(u) => Cell(cell, Convert(u, r, x), FormatName(u, r))
      case ToPercent(_, _, _, _, _) =>
        Cell(cell, TruncateToThreeDecimalPlaces(CalculatePercentage(x, CurrentFor(p, s, r))), "percent")
      case _ => cell
  }

  function OnResource(p: Pass, s: Section, r: Resource, section: Json): Json {
    var cell := Field(section, ResourceKey(r));
    if cell.Obj? then Put(section, ResourceKey(r), CellPass(p, s, r, cell)) else section
  }

  function OnSection(p: Pass, s: Section, config: Json): Json {
    var section := Field(config, SectionKey(s));
    if section.Obj? then Put(config, SectionKey(s), OnResource(p, s, Cpu, OnResource(p, s, Memory, section)))
    else config
  }

  function OnConfig(p: Pass, key: Key, owner: Json): Json {
    var config := Field(owner, key);
    if config.Obj? then
      var limits := OnSection(p, Limits, config);
      Put(owner, key, if p.ToPercent? && p.skipRequests then limits else OnSection(p, Requests, limits))
    else owner
  }

  // ----- injectStoredRequestVariationPct

  function StoredPct(cols: Columns, r: Resource, t: TermName, e: EngineName): Option<real> {
    if VariationPct(r, t, e) in cols then cols[VariationPct(r, t, e)] else None
  }

  function InjectResource(cols: Columns, t: TermName, e: EngineName, r: Resource, requests: Json): Json {
    var cell := Field(requests, ResourceKey(r));
    var p := StoredPct(cols, r, t, e);
    if cell.Obj? && p.Some? then Put(requests, ResourceKey(r), Cell(cell, p.value, "percent")) else requests
  }

  function InjectRequests(cols: Columns, t: TermName, e: EngineName, variation: Json): Json {
    var requests := Field(variation, SectionKey(Requests));
    if requests.Obj? then
      Put(variation, SectionKey(Requests),
          InjectResource(cols, t, e, Memory, InjectResource(cols, t, e, Cpu, requests)))
    else variation
  }

  function InjectVariation(cols: Columns, t: TermName, e: EngineName, engine: Json): Json {
    var variation := Field(engine, VariationKey);
    if variation.Obj? then Put(engine, VariationKey, InjectRequests(cols, t, e, variation)) else engine
  }

  // ----- filterNotifications

  const NOTIFICATIONS_TO_SHOW: set<Key> := {Text("323004"), Text("323005"), Text("324003"), Text("324004")}

  function DeleteNotificationObject(section: Json): Json {
    var n := Field(section, NotificationsKey);
    if n.Obj? && exists k :: k in n.fields && k !in NOTIFICATIONS_TO_SHOW
    then Remove(section, NotificationsKey) else section
  }

  // ----- Plots and interval fields

  function Quantile(u: Units, r: Resource, usage: Json, key: Key): Json {
    var x := if Field(usage, key).Num? then Field(usage, key).n else 0.0;
    Put(usage, key, Num(Convert(u, r, x)))
  }

  function ConvertUsage(u: Units, r: Resource, key: Key, point: Json): Json {
    var usage := Field(point, key);
    if usage.Obj? then
      var named := if Field(usage, FormatKey).Str? then Put(usage, FormatKey, Str(FormatName(u, r))) else usage;
      var quartiles := Quantile(u, r, Quantile(u, r, named, Q1Key), Q3Key);
      Put(point, key, Quantile(u, r, Quantile(u, r, Quantile(u, r, quartiles, MinKey), MaxKey), MedianKey))
    else point
  }

  function ConvertPoints(u: Units, data: Json): Json {
    if data.Obj? then
      Obj(map k | k in data.fields ::
            ConvertUsage(u, Memory, MemoryUsageKey, ConvertUsage(u, Cpu, CpuUsageKey, data.fields[k])))
    else data
  }

  function ConvertPlots(u: Units, term: Json): Json {
    var plots := Field(term, PlotsKey);
    if plots.Obj? && Field(plots, PlotsDataKey).Obj? then
      Put(term, PlotsKey, Put(plots, PlotsDataKey, ConvertPoints(u, Field(plots, PlotsDataKey))))
    else term
  }

  function DropNilStartTime(term: Json): Json {
    if Field(term, MonitoringStartTimeKey) == Str("0001-01-01T00:00:00Z")
    then Remove(term, MonitoringStartTimeKey) else term
  }

  function TruncateDuration(term: Json): Json {
    var d := Field(term, DurationInHoursKey);
    if d.Num? then Put(term, DurationInHoursKey, Num(Trunc(d.n * 10.0) as real / 10.0)) else term
  }

  // ----- Engines, terms, whole trees

  function EnginePass(p: Pass, t: TermName, e: EngineName, engine: Json): Json {
    match p
    case ToUnits(_) => OnConfig(p, VariationKey, OnConfig(p, ConfigKey, engine))
    case FilterNotifications => DeleteNotificationObject(engine)
    case DropPlots => engine
    case InjectStored(cols) => InjectVariation(cols, t, e, engine)
    case ToPercent(_, _, _, _, _) => OnConfig(p, VariationKey, engine)
  }

  function OnEngine(p: Pass, t: TermName, e: EngineName, engines: Json): Json {
    var engine := Field(engines, EngineKey(e));
    if engine.Obj? then Put(engines, EngineKey(e), EnginePass(p, t, e, engine)) else engines
  }

  function PassedEngines(p: Pass, t: TermName, engines: Json): Json {
    OnEngine(p, t, Performance, OnEngine(p, t, Cost, engines))
  }

  function OnEngines(p: Pass, t: TermName, term: Json): Json {
    var engines := Field(term, RecommendationEnginesKey);
    if engines.Obj? then Put(term, RecommendationEnginesKey, PassedEngines(p, t, engines)) else term
  }

  /** What a pass does to the fields of a term before it turns to the engines. */
  function TermFieldsPass(p: Pass, term: Json): Json {
    match p
    case ToUnits(u) => ConvertPlots(u, TruncateDuration(DropNilStartTime(term)))
    case FilterNotifications => DeleteNotificationObject(term)
    case _ => term
  }

  function TermPass(p: Pass, t: TermName, term: Json): Json {
    if p.DropPlots? then Remove(term, PlotsKey) else OnEngines(p, t, TermFieldsPass(p, term))
  }

  function OnTerm(p: Pass, t: TermName, terms: Json): Json {
    var term := Field(terms, TermKey(t));
    if term.Obj? then Put(terms, TermKey(t), TermPass(p, t, term)) else terms
  }

  function PassedTerms(p: Pass, terms: Json): Json {
    OnTerm(p, LongTerm, OnTerm(p, MediumTerm, OnTerm(p, ShortTerm, terms)))
  }

  function OnTerms(p: Pass, root: Json): Json {
    var terms := Field(root, RecommendationTermsKey);
    if terms.Obj? then
      Put(root, RecommendationTermsKey, PassedTerms(p, terms))
    else root
  }

  /** A term whose engines are neither null nor an object makes a type assertion panic. */
  predicate EnginesAsserted(root: Json) {
    forall t: TermName ::
      var engines := Field(Field(Field(root, RecommendationTermsKey), TermKey(t)), RecommendationEnginesKey);
      engines.Null? || engines.Obj?
  }

  function CurrentAmount(root: Json, s: Section, r: Resource): real {
    var a := Field(Field(Field(Field(root, CurrentKey), SectionKey(s)), ResourceKey(r)), AmountKey);
    if a.Num? then a.n else 0.0
  }

  function TransformComponentUnits(u: Units, root: Json): Json {
    OnTerms(ToUnits(u), OnConfig(ToUnits(u), CurrentKey, root))
  }

  function FilteredNotifications(root: Json): Json {
    OnTerms(FilterNotifications, DeleteNotificationObject(root))
  }

  function ConvertVariationToPercentage(skipRequests: bool, root: Json): Json {
    OnTerms(ToPercent(CurrentAmount(root, Limits, Cpu), CurrentAmount(root, Limits, Memory),
                      CurrentAmount(root, Requests, Cpu), CurrentAmount(root, Requests, Memory), skipRequests),
            root)
  }

  datatype Response = Nothing | Panic | Tree(json: Json)

  /** From units to percentages, on the tree of a recommendation. */
  function Present(u: Units, data: Json, stored: Option<Columns>): Json {
    var filtered := FilteredNotifications(TransformComponentUnits(u, data));
    if stored.Some? && HasValues(stored.value) then
      ConvertVariationToPercentage(true, OnTerms(InjectStored(stored.value), filtered))
    else ConvertVariationToPercentage(false, filtered)
  }

  /** `stored` is None when the caller passes no stored percentages. Text that is not a JSON object
      leaves nothing to return. */
  function UpdateRecommendationJSON(forList: bool, u: Units, blob: Json, stored: Option<Columns>): Response {
    if !blob.Obj? then Nothing
    else if !EnginesAsserted(blob) then Panic
    else Tree(Present(u, if forList then OnTerms(DropPlots, blob) else blob, stored))
  }

  /** There is no response without an object, and none when some term's engines are neither null nor an object. */
  lemma OutcomeIff(forList: bool, u: Units, blob: Json, stored: Option<Columns>)
    ensures UpdateRecommendationJSON(forList, u, blob, stored) == Nothing <==> !blob.Obj?
    ensures UpdateRecommendationJSON(forList, u, blob, stored) == Panic <==>
              blob.Obj? && exists t: TermName ::
                var engines := Field(Field(Field(blob, RecommendationTermsKey), TermKey(t)), RecommendationEnginesKey);
                engines != Null && !engines.Obj?
  {
  }

  // ----- The list form is the detail form without its plots

  lemma OnEnginesKeepsPlotsApart(p: Pass, t: TermName, term: Json)
    ensures Remove(OnEngines(p, t, term), PlotsKey) == OnEngines(p, t, Remove(term, PlotsKey))
    ensures term.Obj? ==> OnEngines(p, t, term).Obj?
  {
  }

  lemma StartTimeKeepsPlotsApart(term: Json)
    ensures Remove(DropNilStartTime(term), PlotsKey) == DropNilStartTime(Remove(term, PlotsKey))
  {
    RemoveTwo(term, MonitoringStartTimeKey, PlotsKey);
  }

  lemma DurationKeepsPlotsApart(term: Json)
    ensures Remove(TruncateDuration(term), PlotsKey) == TruncateDuration(Remove(term, PlotsKey))
  {
  }

  lemma NotificationsKeepPlotsApart(term: Json)
    ensures Remove(DeleteNotificationObject(term), PlotsKey) == DeleteNotificationObject(Remove(term, PlotsKey))
  {
    RemoveTwo(term, NotificationsKey, PlotsKey);
  }

  lemma ConvertPlotsVanishes(u: Units, term: Json)
    ensures Remove(ConvertPlots(u, term), PlotsKey) == Remove(term, PlotsKey)
    ensures ConvertPlots(u, Remove(term, PlotsKey)) == Remove(term, PlotsKey)
  {
  }

  lemma TermFieldsPassKeepsPlotsApart(p: Pass, term: Json)
    ensures Remove(TermFieldsPass(p, term), PlotsKey) == TermFieldsPass(p, Remove(term, PlotsKey))
    ensures term.Obj? ==> TermFieldsPass(p, term).Obj?
  {
    match p
    case ToUnits(u) =>
      StartTimeKeepsPlotsApart(term);
      DurationKeepsPlotsApart(DropNilStartTime(term));
      ConvertPlotsVanishes(u, TruncateDuration(DropNilStartTime(term)));
      ConvertPlotsVanishes(u, TruncateDuration(DropNilStartTime(Remove(term, PlotsKey))));
    case FilterNotifications =>
      NotificationsKeepPlotsApart(term);
    case _ =>
  }

  /** Every pass leaves a term without plots as it would have without them. */
  lemma TermPassKeepsPlotsApart(p: Pass, t: TermName, term: Json)
    ensures Remove(TermPass(p, t, term), PlotsKey) == TermPass(p, t, Remove(term, PlotsKey))
    ensures term.Obj? ==> TermPass(p, t, term).Obj?
  {
    TermFieldsPassKeepsPlotsApart(p, term);
    OnEnginesKeepsPlotsApart(p, t, TermFieldsPass(p, term));
  }

  lemma OneTermField(p: Pass, t: TermName, terms: Json, k: Key)
    requires terms.Obj?
    ensures OnTerm(p, t, terms).Obj? && OnTerm(p, t, terms).fields.Keys == terms.fields.Keys
    ensures Field(OnTerm(p, t, terms), k) ==
              if k == TermKey(t) && Field(terms, k).Obj? then TermPass(p, t, Field(terms, k)) else Field(terms, k)
  {
    FieldOfPut(terms, TermKey(t), TermPass(p, t, Field(terms, TermKey(t))), k);
  }

  /** What a pass over the terms does to each field of the terms object. */
  lemma PassedTermsField(p: Pass, terms: Json, k: Key)
    requires terms.Obj?
    ensures PassedTerms(p, terms).Obj? && PassedTerms(p, terms).fields.Keys == terms.fields.Keys
    ensures Field(PassedTerms(p, terms), k) ==
              if k.TermKey? && Field(terms, k).Obj? then TermPass(p, k.t, Field(terms, k)) else Field(terms, k)
  {
    var short := OnTerm(p, ShortTerm, terms);
    var medium := OnTerm(p, MediumTerm, short);
    OneTermField(p, ShortTerm, terms, k);
    OneTermField(p, MediumTerm, short, k);
    OneTermField(p, LongTerm, medium, k);
    if k.TermKey? {
      match k.t
      case ShortTerm => assert k == TermKey(ShortTerm);
      case MediumTerm => assert k == TermKey(MediumTerm);
      case LongTerm => assert k == TermKey(LongTerm);
    }
  }

  lemma SameFields(a: Json, b: Json)
    requires a.Obj? && b.Obj? && a.fields.Keys == b.fields.Keys
    requires forall k :: k in a.fields ==> Field(a, k) == Field(b, k)
    ensures a == b
  {
  }

  lemma PassedTermsCommute(p: Pass, terms: Json)
    requires terms.Obj?
    ensures PassedTerms(DropPlots, PassedTerms(p, terms)) == PassedTerms(p, PassedTerms(DropPlots, terms))
  {
    var a, b := PassedTerms(p, terms), PassedTerms(DropPlots, terms);
    PassedTermsField(p, terms, AmountKey);
    PassedTermsField(DropPlots, terms, AmountKey);
    PassedTermsField(DropPlots, a, AmountKey);
    PassedTermsField(p, b, AmountKey);
    forall k | k in terms.fields ensures Field(PassedTerms(DropPlots, a), k) == Field(PassedTerms(p, b), k) {
      PassedTermsField(p, terms, k);
      PassedTermsField(DropPlots, terms, k);
      PassedTermsField(DropPlots, a, k);
      PassedTermsField(p, b, k);
      if k.TermKey? {
        TermPassKeepsPlotsApart(p, k.t, Field(terms, k));
      }
    }
    SameFields(PassedTerms(DropPlots, a), PassedTerms(p, b));
  }

  lemma PutOver(j: Json, key: Key, v: Json, w: Json)
    ensures Put(Put(j, key, v), key, w) == Put(j, key, w)
  {
  }

  lemma OnTermsCommutes(p: Pass, root: Json)
    ensures OnTerms(DropPlots, OnTerms(p, root)) == OnTerms(p, OnTerms(DropPlots, root))
  {
    var terms := Field(root, RecommendationTermsKey);
    if terms.Obj? {
      PassedTermsCommute(p, terms);
      var a, b := PassedTerms(p, terms), PassedTerms(DropPlots, terms);
      PassedTermsField(p, terms, AmountKey);
      PassedTermsField(DropPlots, terms, AmountKey);
      PutOver(root, RecommendationTermsKey, a, PassedTerms(DropPlots, a));
      PutOver(root, RecommendationTermsKey, b, PassedTerms(p, b));
    }
  }

  lemma CurrentsUntouched(p: Pass, root: Json, s: Section, r: Resource)
    ensures CurrentAmount(OnTerms(p, root), s, r) == CurrentAmount(root, s, r)
  {
  }

  lemma PercentagesCommute(skipRequests: bool, root: Json)
    ensures OnTerms(DropPlots, ConvertVariationToPercentage(skipRequests, root)) ==
              ConvertVariationToPercentage(skipRequests, OnTerms(DropPlots, root))
  {
    forall s: Section, r: Resource ensures CurrentAmount(OnTerms(DropPlots, root), s, r) == CurrentAmount(root, s, r) {
      CurrentsUntouched(DropPlots, root, s, r);
    }
    OnTermsCommutes(ToPercent(CurrentAmount(root, Limits, Cpu), CurrentAmount(root, Limits, Memory),
                              CurrentAmount(root, Requests, Cpu), CurrentAmount(root, Requests, Memory),
                              skipRequests), root);
  }

  lemma RootNotificationsCommute(root: Json)
    ensures OnTerms(DropPlots, DeleteNotificationObject(root)) == DeleteNotificationObject(OnTerms(DropPlots, root))
  {
    var terms := Field(root, RecommendationTermsKey);
    if terms.Obj? {
      RemoveAfterPut(root, RecommendationTermsKey, PassedTerms(DropPlots, terms), NotificationsKey);
    }
  }

  lemma NotificationsCommute(root: Json)
    ensures OnTerms(DropPlots, FilteredNotifications(root)) == FilteredNotifications(OnTerms(DropPlots, root))
  {
    OnTermsCommutes(FilterNotifications, DeleteNotificationObject(root));
    RootNotificationsCommute(root);
  }

  lemma UnitsCommute(u: Units, root: Json)
    ensures OnTerms(DropPlots, TransformComponentUnits(u, root)) == TransformComponentUnits(u, OnTerms(DropPlots, root))
  {
    var terms := Field(root, RecommendationTermsKey);
    OnTermsCommutes(ToUnits(u), OnConfig(ToUnits(u), CurrentKey, root));
    if terms.Obj? && Field(root, CurrentKey).Obj? {
      var config := OnSection(ToUnits(u), Requests, OnSection(ToUnits(u), Limits, Field(root, CurrentKey)));
      PutTwo(root, RecommendationTermsKey, PassedTerms(DropPlots, terms), CurrentKey, config);
    }
  }

  lemma AssertedWithoutPlots(root: Json)
    requires root.Obj?
    ensures OnTerms(DropPlots, root).Obj? && (EnginesAsserted(OnTerms(DropPlots, root)) <==> EnginesAsserted(root))
  {
    var terms := Field(root, RecommendationTermsKey);
    if terms.Obj? {
      forall t: TermName
        ensures Field(Field(PassedTerms(DropPlots, terms), TermKey(t)), RecommendationEnginesKey) ==
                  Field(Field(terms, TermKey(t)), RecommendationEnginesKey)
      {
        PassedTermsField(DropPlots, terms, TermKey(t));
      }
      assert Field(OnTerms(DropPlots, root), RecommendationTermsKey) == PassedTerms(DropPlots, terms);
    }
  }

  /** For every tree, unit choice and stored percentages, the list form of a recommendation is its detail
      form with the plots of the three terms removed. */
  lemma ListFormIsDetailFormWithoutPlots(u: Units, blob: Json, stored: Option<Columns>)
    ensures var list := UpdateRecommendationJSON(true, u, blob, stored);
            match UpdateRecommendationJSON(false, u, blob, stored)
            case Nothing => list == Nothing
            case Panic => list == Panic
            case Tree(json) => list == Tree(OnTerms(DropPlots, json))
  {
    if blob.Obj? && EnginesAsserted(blob) {
      UnitsCommute(u, blob);
      var units := TransformComponentUnits(u, blob);
      NotificationsCommute(units);
      var filtered := FilteredNotifications(units);
      if stored.Some? && HasValues(stored.value) {
        OnTermsCommutes(InjectStored(stored.value), filtered);
        PercentagesCommute(true, OnTerms(InjectStored(stored.value), filtered));
      } else {
        PercentagesCommute(false, filtered);
      }
    }
  }
}
