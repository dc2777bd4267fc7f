/** The stored percentages as a cache of what the API computes from the stored recommendation: how a
    recommendation becomes JSON, and when reading from the columns gives the same response. */
module VariationCache {
  import opened Wrappers
  import opened Calendar
  import opened Conversion
  import opened Payload
  import opened JsonTree
  import opened RecommendationJson

  // ----- json.Marshal of a recommendation: empty fields are omitted where the struct tags say so

  type Fields = map<Key, Json>

  function NumberField(key: Key, x: real): Fields {
    if x == 0.0 then map[] else map[key := Num(x)]
  }

  function TextField(key: Key, s: string): Fields {
    if s == "" then map[] else map[key := Str(s)]
  }

  function MarshalAmount(a: Amount): Json {
    Obj(NumberField(AmountKey, a.amount) + TextField(FormatKey, a.format))
  }

  function MarshalResources(r: Resources): Json {
    Obj(map[ResourceKey(Cpu) := MarshalAmount(r.cpu), ResourceKey(Memory) := MarshalAmount(r.memory)])
  }

  function MarshalConfig(c: Config): Json {
    Obj(map[SectionKey(Limits) := MarshalResources(c.limits), SectionKey(Requests) := MarshalResources(c.requests)])
  }

  function MarshalNotifications(ns: map<string, Notification>): Json {
    Obj(map k | k in ns ::
          Text(k) := Obj(TextField(Text("type"), ns[k].kind) + TextField(Text("message"), ns[k].message)
                         + NumberField(Text("code"), ns[k].code as real)))
  }

  function NotificationsField(ns: map<string, Notification>): Fields {
    if ns == map[] then map[] else map[NotificationsKey := MarshalNotifications(ns)]
  }

  function EngineObject(config: Json, variation: Json, notifications: Json): Json {
    Obj(map[ConfigKey := config, VariationKey := variation, NotificationsKey := notifications])
  }

  function NotificationsOrNull(ns: Option<map<string, Notification>>): Json {
    if ns.None? then Null else MarshalNotifications(ns.value)
  }

  function MarshalEngine(e: Engine): Json {
    EngineObject(MarshalConfig(e.config), MarshalConfig(e.variation),
                 NotificationsOrNull(e.notifications))
  }

  function EnginesObject(cost: Json, performance: Json): Json {
    Obj(map[EngineKey(Cost) := cost, EngineKey(Performance) := performance])
  }

  function MarshalEngines(engines: Engines): Json {
    EnginesObject(MarshalEngine(engines.cost), MarshalEngine(engines.performance))
  }

  function UsageField(key: Key, usage: Option<BoxPlot>): Fields {
    match usage
    case None => map[]
    case Some(b) =>
      map[key := Obj(NumberField(MinKey, b.min) + NumberField(Q1Key, b.q1) + NumberField(MedianKey, b.median)
                     + NumberField(Q3Key, b.q3) + NumberField(MaxKey, b.max) + TextField(FormatKey, b.format))]
  }

  function PointsObject(points: map<string, PlotPoint>): Json {
    Obj(map k | k in points ::
          Text(k) := Obj(UsageField(CpuUsageKey, points[k].cpuUsage) + UsageField(MemoryUsageKey, points[k].memoryUsage)))
  }

  function PlotsField(plots: Option<Plot>): Fields {
    match plots
    case None => map[]
    case Some(p) =>
      map[PlotsKey :=
        Obj(NumberField(Text("datapoints"), p.dataPoints as real)
            + if p.plotsData == map[] then map[] else map[PlotsDataKey := PointsObject(p.plotsData)])]
  }

  function EnginesField(engines: Option<Engines>): Fields {
    if engines.None? then map[] else map[RecommendationEnginesKey := MarshalEngines(engines.value)]
  }

  /** `text` is how a time prints. */
  function MarshalTerm(text: Instant -> string, t: Term): Json {
    Obj(NumberField(DurationInHoursKey, t.durationInHours)
        + NotificationsField(t.notifications)
        + map[MonitoringStartTimeKey := Str(text(t.monitoringStartTime))]
        + EnginesField(t.engines)
        + PlotsField(t.plots))
  }

  function TermsObject(short: Json, medium: Json, long: Json): Json {
    Obj(map[TermKey(ShortTerm) := short, TermKey(MediumTerm) := medium, TermKey(LongTerm) := long])
  }

  function MarshalTerms(text: Instant -> string, data: RecommendationData): Json {
    TermsObject(MarshalTerm(text, data.shortTerm), MarshalTerm(text, data.mediumTerm), MarshalTerm(text, data.longTerm))
  }

  function RootObject(notifications: Fields, endTime: Json, current: Json, terms: Json): Json {
    Obj(notifications + map[Text("monitoring_end_time") := endTime, CurrentKey := current, RecommendationTermsKey := terms])
  }

  function Marshal(text: Instant -> string, data: RecommendationData): Json {
    RootObject(NotificationsField(data.notifications), Str(text(data.monitoringEndTime)), MarshalConfig(data.current),
               MarshalTerms(text, data))
  }

  // ----- What the passes do along a path

  function EngineAt(root: Json, t: TermName, e: EngineName): Json {
    Field(Field(Field(Field(root, RecommendationTermsKey), TermKey(t)), RecommendationEnginesKey), EngineKey(e))
  }

  lemma EnginePassKeepsObject(p: Pass, t: TermName, e: EngineName, engine: Json)
    requires engine.Obj?
    ensures EnginePass(p, t, e, engine).Obj?
  {
  }

  lemma OneEngineField(p: Pass, t: TermName, e: EngineName, engines: Json, k: Key)
    requires engines.Obj?
    ensures OnEngine(p, t, e, engines).Obj? && OnEngine(p, t, e, engines).fields.Keys == engines.fields.Keys
    ensures Field(OnEngine(p, t, e, engines), k) ==
              if k == EngineKey(e) && Field(engines, k).Obj? then EnginePass(p, t, e, Field(engines, k))
              else Field(engines, k)
  {
    FieldOfPut(engines, EngineKey(e), EnginePass(p, t, e, Field(engines, EngineKey(e))), k);
  }

  lemma PassedEnginesField(p: Pass, t: TermName, engines: Json, k: Key)
    requires engines.Obj?
    ensures PassedEngines(p, t, engines).Obj? && PassedEngines(p, t, engines).fields.Keys == engines.fields.Keys
    ensures Field(PassedEngines(p, t, engines), k) ==
              if k.EngineKey? && Field(engines, k).Obj? then EnginePass(p, t, k.e, Field(engines, k))
              else Field(engines, k)
  {
    OneEngineField(p, t, Cost, engines, k);
    OneEngineField(p, t, Performance, OnEngine(p, t, Cost, engines), k);
    if k.EngineKey? {
      match k.e
      case Cost => assert k == EngineKey(Cost);
      case Performance => assert k == EngineKey(Performance);
    }
  }

  lemma TermFieldsPassKeepsEngines(p: Pass, term: Json)
    ensures Field(TermFieldsPass(p, term), RecommendationEnginesKey) == Field(term, RecommendationEnginesKey)
  {
  }

  lemma TermPassEngines(p: Pass, t: TermName, term: Json)
    ensures Field(TermPass(p, t, term), RecommendationEnginesKey) ==
              if Field(term, RecommendationEnginesKey).Obj? && !p.DropPlots? then
                PassedEngines(p, t, Field(term, RecommendationEnginesKey))
              else Field(term, RecommendationEnginesKey)
  {
    TermFieldsPassKeepsEngines(p, term);
  }

  lemma EngineAtAfter(p: Pass, root: Json, t: TermName, e: EngineName)
    ensures EngineAt(OnTerms(p, root), t, e) ==
              if EngineAt(root, t, e).Obj? then EnginePass(p, t, e, EngineAt(root, t, e)) else EngineAt(root, t, e)
  {
    var terms := Field(root, RecommendationTermsKey);
    if terms.Obj? {
      PassedTermsField(p, terms, TermKey(t));
      assert Field(OnTerms(p, root), RecommendationTermsKey) == PassedTerms(p, terms);
      var term := Field(terms, TermKey(t));
      TermPassEngines(p, t, term);
      var engines := Field(term, RecommendationEnginesKey);
      if engines.Obj? {
        PassedEnginesField(p, t, engines, EngineKey(e));
      }
    }
  }

  // ----- Two ways to the same tree

  /** Whether injecting, then converting all but the requests, leaves an engine as converting all does. */
  predicate EngineAgrees(cols: Columns, slow: Pass, t: TermName, e: EngineName, engine: Json)
    requires slow.ToPercent?
  {
    EnginePass(slow.(skipRequests := true), t, e, EnginePass(InjectStored(cols), t, e, engine)) ==
      EnginePass(slow.(skipRequests := false), t, e, engine)
  }

  predicate AgreedAt(cols: Columns, slow: Pass, root: Json, t: TermName, e: EngineName)
    requires slow.ToPercent?
  {
    EngineAt(root, t, e).Obj? ==> EngineAgrees(cols, slow, t, e, EngineAt(root, t, e))
  }

  lemma EnginesAgree(cols: Columns, slow: Pass, t: TermName, engines: Json)
    requires slow.ToPercent? && engines.Obj?
    requires forall e: EngineName :: Field(engines, EngineKey(e)).Obj? ==>
               EngineAgrees(cols, slow, t, e, Field(engines, EngineKey(e)))
    ensures PassedEngines(slow.(skipRequests := true), t, PassedEngines(InjectStored(cols), t, engines)) ==
              PassedEngines(slow.(skipRequests := false), t, engines)
  {
    var inject, fast, full := InjectStored(cols), slow.(skipRequests := true), slow.(skipRequests := false);
    var injected := PassedEngines(inject, t, engines);
    PassedEnginesField(inject, t, engines, AmountKey);
    PassedEnginesField(fast, t, injected, AmountKey);
    PassedEnginesField(full, t, engines, AmountKey);
    forall k | k in engines.fields
      ensures Field(PassedEngines(fast, t, injected), k) == Field(PassedEngines(full, t, engines), k)
    {
      PassedEnginesField(inject, t, engines, k);
      PassedEnginesField(fast, t, injected, k);
      PassedEnginesField(full, t, engines, k);
      if k.EngineKey? && Field(engines, k).Obj? {
        EnginePassKeepsObject(inject, t, k.e, Field(engines, k));
        assert k == EngineKey(k.e);
      }
    }
    SameFields(PassedEngines(fast, t, injected), PassedEngines(full, t, engines));
  }

  lemma TermAgrees(cols: Columns, slow: Pass, t: TermName, term: Json)
    requires slow.ToPercent? && term.Obj?
    requires forall e: EngineName ::
               var engine := Field(Field(term, RecommendationEnginesKey), EngineKey(e));
               engine.Obj? ==> EngineAgrees(cols, slow, t, e, engine)
    ensures TermPass(InjectStored(cols), t, term).Obj?
    ensures TermPass(slow.(skipRequests := true), t, TermPass(InjectStored(cols), t, term)) ==
              TermPass(slow.(skipRequests := false), t, term)
  {
    var engines := Field(term, RecommendationEnginesKey);
    if engines.Obj? {
      EnginesAgree(cols, slow, t, engines);
      var injected := PassedEngines(InjectStored(cols), t, engines);
      PassedEnginesField(InjectStored(cols), t, engines, AmountKey);
      PutOver(term, RecommendationEnginesKey, injected, PassedEngines(slow.(skipRequests := true), t, injected));
    }
  }

  lemma TermsAgree(cols: Columns, slow: Pass, terms: Json)
    requires slow.ToPercent? && terms.Obj?
    requires forall t: TermName, e: EngineName ::
               var engine := Field(Field(Field(terms, TermKey(t)), RecommendationEnginesKey), EngineKey(e));
               engine.Obj? ==> EngineAgrees(cols, slow, t, e, engine)
    ensures PassedTerms(slow.(skipRequests := true), PassedTerms(InjectStored(cols), terms)) ==
              PassedTerms(slow.(skipRequests := false), terms)
  {
    var inject, fast, full := InjectStored(cols), slow.(skipRequests := true), slow.(skipRequests := false);
    var injected := PassedTerms(inject, terms);
    PassedTermsField(inject, terms, AmountKey);
    PassedTermsField(fast, injected, AmountKey);
    PassedTermsField(full, terms, AmountKey);
    forall k | k in terms.fields
      ensures Field(PassedTerms(fast, injected), k) == Field(PassedTerms(full, terms), k)
    {
      PassedTermsField(inject, terms, k);
      PassedTermsField(fast, injected, k);
      PassedTermsField(full, terms, k);
      if k.TermKey? && Field(terms, k).Obj? {
        assert k == TermKey(k.t);
        TermAgrees(cols, slow, k.t, Field(terms, k));
      }
    }
    SameFields(PassedTerms(fast, injected), PassedTerms(full, terms));
  }

  /** The two ways end in the same tree exactly when they agree on every engine in it. */
  lemma TreesAgreeIffEnginesDo(cols: Columns, slow: Pass, root: Json)
    requires slow.ToPercent?
    ensures OnTerms(slow.(skipRequests := true), OnTerms(InjectStored(cols), root)) ==
              OnTerms(slow.(skipRequests := false), root)
            <==> forall t: TermName, e: EngineName :: AgreedAt(cols, slow, root, t, e)
  {
    var inject, fast, full := InjectStored(cols), slow.(skipRequests := true), slow.(skipRequests := false);
    var injected := OnTerms(inject, root);
    if OnTerms(fast, injected) == OnTerms(full, root) {
      forall t: TermName, e: EngineName ensures AgreedAt(cols, slow, root, t, e) {
        EngineAtAfter(inject, root, t, e);
        EngineAtAfter(fast, injected, t, e);
        EngineAtAfter(full, root, t, e);
        if EngineAt(root, t, e).Obj? {
          EnginePassKeepsObject(inject, t, e, EngineAt(root, t, e));
        }
      }
    }
    var terms := Field(root, RecommendationTermsKey);
    if terms.Obj? && forall t: TermName, e: EngineName :: AgreedAt(cols, slow, root, t, e) {
      forall t: TermName, e: EngineName
        ensures var engine := Field(Field(Field(terms, TermKey(t)), RecommendationEnginesKey), EngineKey(e));
                engine.Obj? ==> EngineAgrees(cols, slow, t, e, engine)
      {
        assert AgreedAt(cols, slow, root, t, e);
      }
      TermsAgree(cols, slow, terms);
      PassedTermsField(inject, terms, AmountKey);
      PutOver(root, RecommendationTermsKey, PassedTerms(inject, terms), PassedTerms(fast, PassedTerms(inject, terms)));
    }
  }

  // ----- Down to the cells

  function InjectedCell(p: Option<real>, cell: Json): Json {
    if p.Some? then Cell(cell, p.value, "percent") else cell
  }

  function RequestCell(config: Json, r: Resource): Json {
    Field(Field(config, SectionKey(Requests)), ResourceKey(r))
  }

  predicate HasRequestCells(config: Json) {
    forall r: Resource :: RequestCell(config, r).Obj?
  }

  predicate CellAgrees(p: Option<real>, slow: Pass, r: Resource, cell: Json) {
    InjectedCell(p, cell) == CellPass(slow, Requests, r, cell)
  }

  lemma RequestsAgree(cols: Columns, slow: Pass, t: TermName, e: EngineName, requests: Json)
    requires slow.ToPercent? && forall r: Resource :: Field(requests, ResourceKey(r)).Obj?
    ensures InjectResource(cols, t, e, Memory, InjectResource(cols, t, e, Cpu, requests)) ==
              OnResource(slow, Requests, Cpu, OnResource(slow, Requests, Memory, requests))
            <==> forall r: Resource ::
                   CellAgrees(StoredPct(cols, r, t, e), slow, r, Field(requests, ResourceKey(r)))
  {
    var fast := InjectResource(cols, t, e, Memory, InjectResource(cols, t, e, Cpu, requests));
    var full := OnResource(slow, Requests, Cpu, OnResource(slow, Requests, Memory, requests));
    assert ResourceKey(Cpu) in requests.fields && ResourceKey(Memory) in requests.fields by {
      assert Field(requests, ResourceKey(Cpu)).Obj? && Field(requests, ResourceKey(Memory)).Obj?;
    }
    forall k
      ensures Field(fast, k) == if k.ResourceKey? then InjectedCell(StoredPct(cols, k.r, t, e), Field(requests, k))
                                else Field(requests, k)
      ensures Field(full, k) == if k.ResourceKey? then CellPass(slow, Requests, k.r, Field(requests, k))
                                else Field(requests, k)
    {
      RequestFields(cols, slow, t, e, requests, k);
    }
    RequestFields(cols, slow, t, e, requests, AmountKey);
    if forall r: Resource :: CellAgrees(StoredPct(cols, r, t, e), slow, r, Field(requests, ResourceKey(r))) {
      forall k | k in fast.fields ensures Field(fast, k) == Field(full, k) {
        if k.ResourceKey? {
          assert k == ResourceKey(k.r);
        }
      }
      SameFields(fast, full);
    }
  }

  lemma RequestFields(cols: Columns, slow: Pass, t: TermName, e: EngineName, requests: Json, k: Key)
    requires slow.ToPercent?
    requires forall r: Resource :: Field(requests, ResourceKey(r)).Obj?
    ensures var fast := InjectResource(cols, t, e, Memory, InjectResource(cols, t, e, Cpu, requests));
            var full := OnResource(slow, Requests, Cpu, OnResource(slow, Requests, Memory, requests));
            && fast.Obj? && full.Obj? && fast.fields.Keys == requests.fields.Keys == full.fields.Keys
            && Field(fast, k) == (if k.ResourceKey? then InjectedCell(StoredPct(cols, k.r, t, e), Field(requests, k))
                                  else Field(requests, k))
            && Field(full, k) == (if k.ResourceKey? then CellPass(slow, Requests, k.r, Field(requests, k))
                                  else Field(requests, k))
  {
    assert Field(requests, ResourceKey(Cpu)).Obj? && Field(requests, ResourceKey(Memory)).Obj?;
    InjectedField(cols, t, e, Cpu, requests, k);
    InjectedField(cols, t, e, Memory, InjectResource(cols, t, e, Cpu, requests), k);
    InjectedField(cols, t, e, Cpu, requests, ResourceKey(Memory));
    PercentField(slow, Memory, requests, k);
    PercentField(slow, Memory, requests, ResourceKey(Cpu));
    PercentField(slow, Cpu, OnResource(slow, Requests, Memory, requests), k);
    if k.ResourceKey? {
      match k.r
      case Cpu => assert k == ResourceKey(Cpu);
      case Memory => assert k == ResourceKey(Memory);
    }
  }

  lemma InjectedField(cols: Columns, t: TermName, e: EngineName, r: Resource, requests: Json, k: Key)
    requires requests.Obj? && Field(requests, ResourceKey(r)).Obj?
    ensures var out := InjectResource(cols, t, e, r, requests);
            && out.Obj? && out.fields.Keys == requests.fields.Keys
            && Field(out, k) == if k == ResourceKey(r) then InjectedCell(StoredPct(cols, r, t, e), Field(requests, k))
                                else Field(requests, k)
  {
    var p := StoredPct(cols, r, t, e);
    if p.Some? {
      FieldOfPut(requests, ResourceKey(r), Cell(Field(requests, ResourceKey(r)), p.value, "percent"), k);
    }
  }

  lemma PercentField(slow: Pass, r: Resource, requests: Json, k: Key)
    requires requests.Obj? && Field(requests, ResourceKey(r)).Obj?
    ensures var out := OnResource(slow, Requests, r, requests);
            && out.Obj? && out.fields.Keys == requests.fields.Keys
            && Field(out, k) == if k == ResourceKey(r) then CellPass(slow, Requests, r, Field(requests, k))
                                else Field(requests, k)
  {
  }

  /** On an engine with both request variations, the two ways agree exactly when they agree on these. */
  lemma EngineAgreesIffCellsDo(cols: Columns, slow: Pass, t: TermName, e: EngineName, engine: Json)
    requires slow.ToPercent? && HasRequestCells(Field(engine, VariationKey))
    ensures EngineAgrees(cols, slow, t, e, engine) <==>
              forall r: Resource ::
                CellAgrees(StoredPct(cols, r, t, e), slow, r, RequestCell(Field(engine, VariationKey), r))
  {
    var v := Field(engine, VariationKey);
    assert RequestCell(v, Cpu).Obj? && RequestCell(v, Memory).Obj?;
    VariationAgrees(cols, slow, t, e, v);
    var fast, full := slow.(skipRequests := true), slow.(skipRequests := false);
    var injected := InjectRequests(cols, t, e, v);
    PutOver(engine, VariationKey, injected, OnSection(fast, Limits, injected));
    PutEqual(engine, VariationKey, OnSection(fast, Limits, injected), OnSection(full, Requests, OnSection(full, Limits, v)));
  }

  lemma VariationAgrees(cols: Columns, slow: Pass, t: TermName, e: EngineName, v: Json)
    requires slow.ToPercent? && HasRequestCells(v)
    ensures var fast, full := slow.(skipRequests := true), slow.(skipRequests := false);
            OnSection(fast, Limits, InjectRequests(cols, t, e, v)) == OnSection(full, Requests, OnSection(full, Limits, v))
            <==> forall r: Resource :: CellAgrees(StoredPct(cols, r, t, e), slow, r, RequestCell(v, r))
  {
    var fast, full := slow.(skipRequests := true), slow.(skipRequests := false);
    assert RequestCell(v, Cpu).Obj? && RequestCell(v, Memory).Obj?;
    var requests, limits := Field(v, SectionKey(Requests)), Field(v, SectionKey(Limits));
    assert forall r: Resource :: Field(requests, ResourceKey(r)) == RequestCell(v, r);
    RequestsAgree(cols, full, t, e, requests);
    forall r: Resource
      ensures CellAgrees(StoredPct(cols, r, t, e), slow, r, RequestCell(v, r)) <==>
                CellAgrees(StoredPct(cols, r, t, e), full, r, Field(requests, ResourceKey(r)))
    {
    }
    var a := InjectResource(cols, t, e, Memory, InjectResource(cols, t, e, Cpu, requests));
    var b := OnResource(full, Requests, Cpu, OnResource(full, Requests, Memory, requests));
    var l := OnResource(full, Limits, Cpu, OnResource(full, Limits, Memory, limits));
    SkipOnlyMatters(slow, limits);
    FieldOfPut(v, SectionKey(Requests), a, SectionKey(Limits));
    FieldOfPut(v, SectionKey(Limits), l, SectionKey(Requests));
    if limits.Obj? {
      PutTwo(v, SectionKey(Requests), a, SectionKey(Limits), l);
      PutEqual(Put(v, SectionKey(Limits), l), SectionKey(Requests), a, b);
    } else {
      PutEqual(v, SectionKey(Requests), a, b);
    }
  }

  lemma SkipOnlyMatters(slow: Pass, section: Json)
    requires slow.ToPercent?
    ensures OnResource(slow.(skipRequests := true), Limits, Cpu, OnResource(slow.(skipRequests := true), Limits, Memory, section))
              == OnResource(slow.(skipRequests := false), Limits, Cpu,
                            OnResource(slow.(skipRequests := false), Limits, Memory, section))
  {
  }

  // ----- The tree of a marshalled recommendation

  function ConfigOf(p: Pass, config: Json): Json {
    OnSection(p, Requests, OnSection(p, Limits, config))
  }

  function ResourceOf(r: Resource, of: Resources): Amount {
    match r case Cpu => of.cpu case Memory => of.memory
  }

  /** The cell of a request after unit conversion. */
  function ConvertedCell(u: Units, r: Resource, a: Amount): Json {
    CellPass(ToUnits(u), Requests, r, MarshalAmount(a))
  }

  lemma RequestCellAfter(u: Units, config: Json, r: Resource)
    requires HasRequestCells(config)
    ensures HasRequestCells(ConfigOf(ToUnits(u), config))
    ensures RequestCell(ConfigOf(ToUnits(u), config), r) ==
              CellPass(ToUnits(u), Requests, r, RequestCell(config, r))
  {
    var p := ToUnits(u);
    assert RequestCell(config, Cpu).Obj? && RequestCell(config, Memory).Obj?;
    var requests := Field(config, SectionKey(Requests));
    var memory := OnResource(p, Requests, Memory, requests);
    var both := OnResource(p, Requests, Cpu, memory);
    assert Field(ConfigOf(p, config), SectionKey(Requests)) == both;
    forall q: Resource
      ensures Field(both, ResourceKey(q)) == CellPass(p, Requests, q, RequestCell(config, q))
    {
      BothCellsAfter(p, requests, q);
    }
  }

  lemma BothCellsAfter(p: Pass, requests: Json, q: Resource)
    requires Field(requests, ResourceKey(Cpu)).Obj? && Field(requests, ResourceKey(Memory)).Obj?
    ensures Field(OnResource(p, Requests, Cpu, OnResource(p, Requests, Memory, requests)), ResourceKey(q)) ==
              CellPass(p, Requests, q, Field(requests, ResourceKey(q)))
  {
  }

  lemma MarshalledRequestCells(u: Units, c: Config, r: Resource)
    ensures HasRequestCells(MarshalConfig(c)) && HasRequestCells(ConfigOf(ToUnits(u), MarshalConfig(c)))
    ensures RequestCell(ConfigOf(ToUnits(u), MarshalConfig(c)), r) == ConvertedCell(u, r, ResourceOf(r, c.requests))
  {
    assert Field(MarshalConfig(c), SectionKey(Requests)) == MarshalResources(c.requests);
    forall q: Resource ensures RequestCell(MarshalConfig(c), q) == MarshalAmount(ResourceOf(q, c.requests)) {
    }
    RequestCellAfter(u, MarshalConfig(c), r);
  }

  lemma MiddleField(before: Fields, middle: Fields, after: Fields, key: Key)
    requires key !in before && key !in after
    ensures Field(Obj(before + middle + after), key) == Field(Obj(middle), key)
  {
  }

  lemma NoEnginesField(text: Instant -> string, term: Term)
    ensures RecommendationEnginesKey !in NumberField(DurationInHoursKey, term.durationInHours)
    ensures RecommendationEnginesKey !in NotificationsField(term.notifications)
    ensures RecommendationEnginesKey !in PlotsField(term.plots)
  {
  }

  lemma MarshalledTermEngines(text: Instant -> string, term: Term)
    ensures Field(MarshalTerm(text, term), RecommendationEnginesKey) ==
              if term.engines.None? then Null else MarshalEngines(term.engines.value)
  {
    var before := NumberField(DurationInHoursKey, term.durationInHours)
                  + NotificationsField(term.notifications)
                  + map[MonitoringStartTimeKey := Str(text(term.monitoringStartTime))];
    NoEnginesField(text, term);
    MiddleField(before, EnginesField(term.engines), PlotsField(term.plots), RecommendationEnginesKey);
  }

  lemma MarshalledEngine(engines: Engines, e: EngineName)
    ensures Field(MarshalEngines(engines), EngineKey(e)) == MarshalEngine(EngineOf(engines, e))
  {
    EnginesObjectField(MarshalEngine(engines.cost), MarshalEngine(engines.performance), e);
  }

  lemma EnginesObjectField(cost: Json, performance: Json, e: EngineName)
    ensures Field(EnginesObject(cost, performance), EngineKey(e)) ==
              match e case Cost => cost case Performance => performance
  {
  }

  lemma TermsObjectField(short: Json, medium: Json, long: Json, t: TermName)
    ensures Field(TermsObject(short, medium, long), TermKey(t)) ==
              match t case ShortTerm => short case MediumTerm => medium case LongTerm => long
  {
  }

  lemma RootObjectFields(notifications: Fields, endTime: Json, current: Json, terms: Json)
    ensures Field(RootObject(notifications, endTime, current, terms), CurrentKey) == current
    ensures Field(RootObject(notifications, endTime, current, terms), RecommendationTermsKey) == terms
  {
  }

  lemma MarshalledRoot(text: Instant -> string, data: RecommendationData)
    ensures Field(Marshal(text, data), CurrentKey) == MarshalConfig(data.current)
    ensures Field(Marshal(text, data), RecommendationTermsKey) == MarshalTerms(text, data)
  {
    RootObjectFields(NotificationsField(data.notifications), Str(text(data.monitoringEndTime)),
                     MarshalConfig(data.current), MarshalTerms(text, data));
  }

  lemma MarshalledTerm(text: Instant -> string, data: RecommendationData, t: TermName)
    ensures Field(Field(Marshal(text, data), RecommendationTermsKey), TermKey(t)) == MarshalTerm(text, TermOf(data, t))
  {
    MarshalledRoot(text, data);
    TermsObjectField(MarshalTerm(text, data.shortTerm), MarshalTerm(text, data.mediumTerm),
                     MarshalTerm(text, data.longTerm), t);
  }

  lemma MarshalledEngines(text: Instant -> string, data: RecommendationData, t: TermName, e: EngineName)
    ensures EngineAt(Marshal(text, data), t, e) ==
              match TermOf(data, t).engines
              case None => Null
              case Some(engines) => MarshalEngine(EngineOf(engines, e))
  {
    MarshalledTerm(text, data, t);
    MarshalledTermEngines(text, TermOf(data, t));
    if TermOf(data, t).engines.Some? {
      MarshalledEngine(TermOf(data, t).engines.value, e);
    }
  }

  lemma MarshalledIsAsserted(text: Instant -> string, data: RecommendationData)
    ensures EnginesAsserted(Marshal(text, data))
  {
    forall t: TermName
      ensures var engines := Field(Field(Field(Marshal(text, data), RecommendationTermsKey), TermKey(t)),
                                   RecommendationEnginesKey);
              engines.Null? || engines.Obj?
    {
      MarshalledTerm(text, data, t);
      MarshalledTermEngines(text, TermOf(data, t));
    }
  }

  lemma VariationUntouchedByFilter(engine: Json)
    ensures Field(DeleteNotificationObject(engine), VariationKey) == Field(engine, VariationKey)
  {
  }

  /** An engine's variation once units are converted and notifications filtered. */
  lemma FilteredEngineVariation(u: Units, t: TermName, e: EngineName, config: Json, variation: Json, notifications: Json)
    requires config.Obj? && variation.Obj?
    ensures var converted := EnginePass(ToUnits(u), t, e, EngineObject(config, variation, notifications));
            && converted.Obj?
            && Field(EnginePass(FilterNotifications, t, e, converted), VariationKey) == ConfigOf(ToUnits(u), variation)
  {
    ConvertedVariation(u, config, variation, notifications);
    VariationUntouchedByFilter(EnginePass(ToUnits(u), t, e, EngineObject(config, variation, notifications)));
  }

  lemma ConvertedVariation(u: Units, config: Json, variation: Json, notifications: Json)
    requires config.Obj? && variation.Obj?
    ensures var p := ToUnits(u);
            var converted := OnConfig(p, VariationKey, OnConfig(p, ConfigKey, EngineObject(config, variation, notifications)));
            converted.Obj? && Field(converted, VariationKey) == ConfigOf(p, variation)
  {
  }

  function Filtered(u: Units, root: Json): Json {
    FilteredNotifications(TransformComponentUnits(u, root))
  }

  lemma OtherFieldsUntouched(p: Pass, root: Json, t: TermName, e: EngineName)
    ensures EngineAt(OnConfig(p, CurrentKey, root), t, e) == EngineAt(root, t, e)
    ensures EngineAt(DeleteNotificationObject(root), t, e) == EngineAt(root, t, e)
    ensures Field(DeleteNotificationObject(root), CurrentKey) == Field(root, CurrentKey)
    ensures Field(OnTerms(p, root), CurrentKey) == Field(root, CurrentKey)
  {
  }

  lemma FilteredEngineAt(u: Units, root: Json, t: TermName, e: EngineName)
    ensures EngineAt(Filtered(u, root), t, e) ==
              var engine := EngineAt(root, t, e);
              if engine.Obj? then EnginePass(FilterNotifications, t, e, EnginePass(ToUnits(u), t, e, engine)) else engine
  {
    var current := OnConfig(ToUnits(u), CurrentKey, root);
    var units := OnTerms(ToUnits(u), current);
    OtherFieldsUntouched(ToUnits(u), root, t, e);
    EngineAtAfter(ToUnits(u), current, t, e);
    OtherFieldsUntouched(ToUnits(u), units, t, e);
    EngineAtAfter(FilterNotifications, DeleteNotificationObject(units), t, e);
    if EngineAt(root, t, e).Obj? {
      EnginePassKeepsObject(ToUnits(u), t, e, EngineAt(root, t, e));
    }
  }

  /** Zero and absent amounts come to the same once converted. */
  lemma FilteredCurrents(u: Units, root: Json, data: RecommendationData, r: Resource)
    requires root.Obj? && Field(root, CurrentKey) == MarshalConfig(data.current)
    ensures CurrentAmount(Filtered(u, root), Requests, r) ==
              if AmountOf(r, data.current.requests) == 0.0 then 0.0 else Convert(u, r, AmountOf(r, data.current.requests))
  {
    var current := OnConfig(ToUnits(u), CurrentKey, root);
    var units := OnTerms(ToUnits(u), current);
    OtherFieldsUntouched(ToUnits(u), current, ShortTerm, Cost);
    OtherFieldsUntouched(FilterNotifications, units, ShortTerm, Cost);
    OtherFieldsUntouched(FilterNotifications, DeleteNotificationObject(units), ShortTerm, Cost);
    assert Field(Filtered(u, root), CurrentKey) == ConfigOf(ToUnits(u), MarshalConfig(data.current));
    MarshalledRequestCells(u, data.current, r);
    CellAmount(u, r, ResourceOf(r, data.current.requests));
  }

  lemma CellAmount(u: Units, r: Resource, a: Amount)
    ensures ConvertedCell(u, r, a).Obj?
    ensures Field(ConvertedCell(u, r, a), AmountKey) ==
              if a.amount == 0.0 then Null else Num(Convert(u, r, a.amount))
  {
  }

  // ----- When the cache is right

  /** The percentage the API computes from the tree, in the units of the request. */
  function ShownPct(u: Units, r: Resource, variation: real, current: real): real {
    TruncateToThreeDecimalPlaces(CalculatePercentage(Convert(u, r, variation), Convert(u, r, current)))
  }

  function RequestVariation(engines: Engines, r: Resource, e: EngineName): real {
    AmountOf(r, EngineOf(engines, e).variation.requests)
  }

  /** The stored percentage of a variation is present where the computed one is, and equal to it. */
  predicate Reproduced(u: Units, data: RecommendationData, t: TermName, e: EngineName, r: Resource) {
    TermOf(data, t).engines.Some? ==>
      var v := RequestVariation(TermOf(data, t).engines.value, r, e);
      var c := AmountOf(r, data.current.requests);
      v != 0.0 && ShownPct(u, r, v, c) == VariationPercentOfRequest(r, v, ClampRequest(r, c))
  }

  predicate AllReproduced(u: Units, data: RecommendationData) {
    forall t: TermName, e: EngineName, r: Resource :: Reproduced(u, data, t, e, r)
  }

  lemma ZeroConverts(u: Units, r: Resource)
    ensures Convert(u, r, 0.0) == 0.0
  {
  }

  lemma CellAgreesIff(u: Units, slow: Pass, r: Resource, a: Amount, p: real)
    requires slow.ToPercent?
    ensures CellAgrees(Some(p), slow, r, ConvertedCell(u, r, a)) <==>
              && a.amount != 0.0
              && p == TruncateToThreeDecimalPlaces(
                        CalculatePercentage(Convert(u, r, a.amount), CurrentFor(slow, Requests, r)))
  {
    CellAmount(u, r, a);
    var cell := ConvertedCell(u, r, a);
    var q := TruncateToThreeDecimalPlaces(
               CalculatePercentage(Convert(u, r, a.amount), CurrentFor(slow, Requests, r)));
    CellsEqual(cell, p, q);
  }

  lemma CellsEqual(cell: Json, p: real, q: real)
    requires cell.Obj?
    ensures Cell(cell, p, "percent") == Cell(cell, q, "percent") <==> p == q
    ensures !Field(cell, AmountKey).Num? ==> Cell(cell, p, "percent") != cell
  {
    assert Field(Cell(cell, p, "percent"), AmountKey) == Num(p);
    assert Field(Cell(cell, q, "percent"), AmountKey) == Num(q);
  }

  lemma StoredPctOf(data: RecommendationData, t: TermName, e: EngineName, r: Resource)
    ensures StoredPct(Stored(Extract(data)), r, t, e) ==
              match TermOf(data, t).engines
              case None => None
              case Some(engines) =>
                Some(VariationPercentOfRequest(r, RequestVariation(engines, r, e),
                                               ClampRequest(r, AmountOf(r, data.current.requests))))
  {
    StoredPercentagesAreExact(data, VariationPct(r, t, e));
  }

  /** The pass divides by the converted current requests, an absent amount counting as zero. */
  predicate CurrentsMatch(u: Units, data: RecommendationData, slow: Pass)
    requires slow.ToPercent?
  {
    forall r: Resource ::
      CurrentFor(slow, Requests, r) ==
        if AmountOf(r, data.current.requests) == 0.0 then 0.0 else Convert(u, r, AmountOf(r, data.current.requests))
  }

  /** On one engine of a filtered recommendation, the two ways agree exactly when both percentages are reproduced. */
  lemma EngineReproduced(u: Units, data: RecommendationData, slow: Pass, t: TermName, e: EngineName, engine: Json)
    requires slow.ToPercent? && TermOf(data, t).engines.Some?
    requires CurrentsMatch(u, data, slow)
    requires Field(engine, VariationKey) ==
               ConfigOf(ToUnits(u), MarshalConfig(EngineOf(TermOf(data, t).engines.value, e).variation))
    ensures EngineAgrees(Stored(Extract(data)), slow, t, e, engine) <==> forall r: Resource :: Reproduced(u, data, t, e, r)
  {
    var cols := Stored(Extract(data));
    var variation := EngineOf(TermOf(data, t).engines.value, e).variation;
    MarshalledRequestCells(u, variation, Cpu);
    EngineAgreesIffCellsDo(cols, slow, t, e, engine);
    forall r: Resource
      ensures CellAgrees(StoredPct(cols, r, t, e), slow, r, RequestCell(Field(engine, VariationKey), r)) <==>
                Reproduced(u, data, t, e, r)
    {
      MarshalledRequestCells(u, variation, r);
      StoredPctOf(data, t, e, r);
      var a := ResourceOf(r, variation.requests);
      CellAgreesIff(u, slow, r, a, StoredPct(cols, r, t, e).value);
      ZeroConverts(u, r);
      assert CurrentFor(slow, Requests, r) == Convert(u, r, AmountOf(r, data.current.requests));
    }
  }

  /** `root` is the tree of `data`, possibly without its plots. */
  ghost predicate TreeOf(text: Instant -> string, data: RecommendationData, root: Json) {
    && root.Obj? && EnginesAsserted(root)
    && Field(root, CurrentKey) == MarshalConfig(data.current)
    && forall t: TermName, e: EngineName :: EngineAt(root, t, e) == EngineAt(Marshal(text, data), t, e)
  }

  function SlowPass(u: Units, root: Json, skip: bool): Pass {
    var f := Filtered(u, root);
    ToPercent(CurrentAmount(f, Limits, Cpu), CurrentAmount(f, Limits, Memory),
              CurrentAmount(f, Requests, Cpu), CurrentAmount(f, Requests, Memory), skip)
  }

  lemma SlowCurrents(u: Units, data: RecommendationData, root: Json)
    requires root.Obj? && Field(root, CurrentKey) == MarshalConfig(data.current)
    ensures CurrentsMatch(u, data, SlowPass(u, root, false))
  {
    FilteredCurrents(u, root, data, Cpu);
    FilteredCurrents(u, root, data, Memory);
  }

  lemma FilteredVariationAt(text: Instant -> string, u: Units, data: RecommendationData, root: Json,
                            t: TermName, e: EngineName)
    requires EngineAt(root, t, e) == EngineAt(Marshal(text, data), t, e)
    ensures match TermOf(data, t).engines
            case None => EngineAt(Filtered(u, root), t, e) == Null
            case Some(engines) =>
              && EngineAt(Filtered(u, root), t, e).Obj?
              && Field(EngineAt(Filtered(u, root), t, e), VariationKey) ==
                   ConfigOf(ToUnits(u), MarshalConfig(EngineOf(engines, e).variation))
  {
    MarshalledEngines(text, data, t, e);
    FilteredEngineAt(u, root, t, e);
    if TermOf(data, t).engines.Some? {
      var engine := EngineOf(TermOf(data, t).engines.value, e);
      FilteredEngineVariation(u, t, e, MarshalConfig(engine.config), MarshalConfig(engine.variation),
                              NotificationsOrNull(engine.notifications));
      EnginePassKeepsObject(FilterNotifications, t, e, EnginePass(ToUnits(u), t, e, MarshalEngine(engine)));
    }
  }

  lemma EngineAtReproduced(text: Instant -> string, u: Units, data: RecommendationData, root: Json,
                           t: TermName, e: EngineName)
    requires TreeOf(text, data, root)
    ensures AgreedAt(Stored(Extract(data)), SlowPass(u, root, false), Filtered(u, root), t, e) <==>
              forall r: Resource :: Reproduced(u, data, t, e, r)
  {
    FilteredVariationAt(text, u, data, root, t, e);
    if TermOf(data, t).engines.Some? {
      SlowCurrents(u, data, root);
      EngineReproduced(u, data, SlowPass(u, root, false), t, e, EngineAt(Filtered(u, root), t, e));
    }
  }

  lemma EnginesAllAgree(text: Instant -> string, u: Units, data: RecommendationData, root: Json)
    requires TreeOf(text, data, root)
    ensures (forall t: TermName, e: EngineName ::
               AgreedAt(Stored(Extract(data)), SlowPass(u, root, false), Filtered(u, root), t, e))
            <==> AllReproduced(u, data)
  {
    var cols, slow, f := Stored(Extract(data)), SlowPass(u, root, false), Filtered(u, root);
    if forall t: TermName, e: EngineName :: AgreedAt(cols, slow, f, t, e) {
      forall t: TermName, e: EngineName, r: Resource ensures Reproduced(u, data, t, e, r) {
        EngineAtReproduced(text, u, data, root, t, e);
        assert AgreedAt(cols, slow, f, t, e);
      }
    }
    if AllReproduced(u, data) {
      forall t: TermName, e: EngineName ensures AgreedAt(cols, slow, f, t, e) {
        EngineAtReproduced(text, u, data, root, t, e);
      }
    }
  }

  lemma EnginesReproduced(text: Instant -> string, u: Units, data: RecommendationData, root: Json)
    requires TreeOf(text, data, root)
    ensures OnTerms(SlowPass(u, root, true), OnTerms(InjectStored(Stored(Extract(data))), Filtered(u, root))) ==
              OnTerms(SlowPass(u, root, false), Filtered(u, root))
            <==> AllReproduced(u, data)
  {
    EnginesAllAgree(text, u, data, root);
    TreesAgreeIffEnginesDo(Stored(Extract(data)), SlowPass(u, root, false), Filtered(u, root));
  }

  /** A recommendation without engines has no stored percentages. */
  lemma ValuesIffEngines(data: RecommendationData)
    ensures HasValues(Stored(Extract(data))) <==> exists t: TermName :: TermOf(data, t).engines.Some?
  {
    forall t: TermName, e: EngineName, r: Resource
      ensures StoredPct(Stored(Extract(data)), r, t, e).Some? <==> TermOf(data, t).engines.Some?
    {
      StoredPctOf(data, t, e, r);
    }
    if t: TermName :| TermOf(data, t).engines.Some? {
      assert StoredPct(Stored(Extract(data)), Cpu, t, Cost).Some?;
    }
  }

  lemma PresentReproduced(text: Instant -> string, u: Units, data: RecommendationData, root: Json)
    requires TreeOf(text, data, root)
    ensures Present(u, root, Some(Stored(Extract(data)))) == Present(u, root, None)
            <==> AllReproduced(u, data)
  {
    var cols, f := Stored(Extract(data)), Filtered(u, root);
    ValuesIffEngines(data);
    if HasValues(cols) {
      forall s: Section, r: Resource
        ensures CurrentAmount(OnTerms(InjectStored(cols), f), s, r) == CurrentAmount(f, s, r)
      {
        CurrentsUntouched(InjectStored(cols), f, s, r);
      }
      EnginesReproduced(text, u, data, root);
    }
  }

  lemma EngineWithoutPlots(root: Json, t: TermName, e: EngineName)
    ensures EngineAt(OnTerms(DropPlots, root), t, e) == EngineAt(root, t, e)
  {
    EngineAtAfter(DropPlots, root, t, e);
  }

  lemma TreeWithoutPlots(text: Instant -> string, data: RecommendationData, root: Json)
    requires TreeOf(text, data, root)
    ensures TreeOf(text, data, OnTerms(DropPlots, root))
  {
    AssertedWithoutPlots(root);
    var after := OnTerms(DropPlots, root);
    forall t: TermName, e: EngineName ensures EngineAt(after, t, e) == EngineAt(Marshal(text, data), t, e) {
      EngineWithoutPlots(root, t, e);
    }
    OtherFieldsUntouched(DropPlots, root, ShortTerm, Cost);
    assert Field(after, CurrentKey) == MarshalConfig(data.current);
  }

  lemma MarshalledTrees(text: Instant -> string, data: RecommendationData)
    ensures TreeOf(text, data, Marshal(text, data))
    ensures TreeOf(text, data, OnTerms(DropPlots, Marshal(text, data)))
  {
    MarshalledIsAsserted(text, data);
    MarshalledRoot(text, data);
    TreeWithoutPlots(text, data, Marshal(text, data));
  }

  /** For every recommendation, in either form and in all units under either naming, the response read from
      the stored percentages is the recomputed one exactly when every percentage is reproduced. */
  lemma StoredResponseIsRecomputedIff(forList: bool, text: Instant -> string, u: Units, data: RecommendationData)
    ensures var blob := Marshal(text, data);
            UpdateRecommendationJSON(forList, u, blob, Some(Stored(Extract(data)))) ==
              UpdateRecommendationJSON(forList, u, blob, None)
            <==> AllReproduced(u, data)
  {
    var blob := Marshal(text, data);
    MarshalledTrees(text, data);
    PresentReproduced(text, u, data, if forList then OnTerms(DropPlots, blob) else blob);
  }
}
