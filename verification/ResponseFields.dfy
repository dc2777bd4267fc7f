/** What a client reads in a response, cell by cell and notification by notification, from the stored tree
    alone: the passes one after the other come to this. */
module ResponseFields {
  import opened Wrappers
  import opened Conversion
  import opened Payload
  import opened JsonTree
  import opened RecommendationJson
  import opened VariationCache

  // ----- What is shown

  function CellIn(owner: Json, block: Key, s: Section, r: Resource): Json {
    Field(Field(Field(owner, block), SectionKey(s)), ResourceKey(r))
  }

  function TermAt(root: Json, t: TermName): Json {
    Field(Field(root, RecommendationTermsKey), TermKey(t))
  }

  /** A configuration is shown in the units of the request; a cell without an amount as it is. */
  function InUnits(u: Units, r: Resource, cell: Json): Json {
    if Field(cell, AmountKey).Num? then Cell(cell, Convert(u, r, Field(cell, AmountKey).n), FormatName(u, r)) else cell
  }

  /** The cells of one section and resource: current, recommended by an engine, and how far they are apart. */
  datatype Cells = Cells(current: Json, config: Json, variation: Json)

  function CellsAt(root: Json, t: TermName, e: EngineName, s: Section, r: Resource): Cells {
    Cells(CellIn(root, CurrentKey, s, r), CellIn(EngineAt(root, t, e), ConfigKey, s, r),
          CellIn(EngineAt(root, t, e), VariationKey, s, r))
  }

  function AmountOrZero(cell: Json): real {
    if Field(cell, AmountKey).Num? then Field(cell, AmountKey).n else 0.0
  }

  predicate ReadsStored(stored: Option<Columns>) {
    stored.Some? && HasValues(stored.value)
  }

  /** A variation is shown in percent of the current amount. With stored percentages a request's variation is
      shown as its own stored percentage, or in units when there is none for it. */
  function VariationShown(u: Units, c: Cells, stored: Option<Columns>, t: TermName, e: EngineName,
                          s: Section, r: Resource): Json {
    if s == Requests && ReadsStored(stored) then
      var p := StoredPct(stored.value, r, t, e);
      if c.variation.Obj? && p.Some? then Cell(c.variation, p.value, "percent") else InUnits(u, r, c.variation)
    else if Field(c.variation, AmountKey).Num? then
      var x, current := Convert(u, r, Field(c.variation, AmountKey).n), AmountOrZero(InUnits(u, r, c.current));
      Cell(c.variation, TruncateToThreeDecimalPlaces(CalculatePercentage(x, current)), "percent")
    else c.variation
  }

  function Shown(u: Units, c: Cells, stored: Option<Columns>, t: TermName, e: EngineName,
                 s: Section, r: Resource): Cells {
    Cells(InUnits(u, r, c.current), InUnits(u, r, c.config), VariationShown(u, c, stored, t, e, s, r))
  }

  /** Notifications are shown when all of them have one of four codes, otherwise none is. */
  function NotificationsShown(n: Json): Json {
    if n.Obj? && exists k :: k in n.fields && k !in {Text("323004"), Text("323005"), Text("324003"), Text("324004")}
    then Null else n
  }

  // ----- One pass over one cell

  lemma CellOverCell(cell: Json, x: real, f: string, y: real, g: string)
    ensures Cell(Cell(cell, x, f), y, g) == Cell(cell, y, g)
    ensures cell.Obj? ==> Cell(cell, x, f).Obj? && Field(Cell(cell, x, f), AmountKey) == Num(x)
  {
  }

  lemma ResourceField(p: Pass, s: Section, r: Resource, section: Json, q: Resource)
    ensures Field(OnResource(p, s, r, section), ResourceKey(q)) ==
              var cell := Field(section, ResourceKey(q));
              if q == r then CellPass(p, s, q, cell) else cell
  {
  }

  lemma SectionCell(p: Pass, s: Section, config: Json, s2: Section, r: Resource)
    ensures Field(Field(OnSection(p, s, config), SectionKey(s2)), ResourceKey(r)) ==
              var cell := Field(Field(config, SectionKey(s2)), ResourceKey(r));
              if s2 == s then CellPass(p, s, r, cell) else cell
  {
    var section := Field(config, SectionKey(s));
    ResourceField(p, s, Memory, section, r);
    ResourceField(p, s, Cpu, OnResource(p, s, Memory, section), r);
  }

  /** Whether a pass is to leave the requests. */
  predicate Skips(p: Pass, s: Section) {
    p.ToPercent? && p.skipRequests && s == Requests
  }

  lemma ConfigCell(p: Pass, key: Key, owner: Json, block: Key, s: Section, r: Resource)
    ensures CellIn(OnConfig(p, key, owner), block, s, r) ==
              var cell := CellIn(owner, block, s, r);
              if block == key && !Skips(p, s) then CellPass(p, s, r, cell) else cell
  {
    var config := Field(owner, key);
    if config.Obj? && block == key {
      var limits := OnSection(p, Limits, config);
      SectionCell(p, Limits, config, s, r);
      SectionCell(p, Requests, limits, s, r);
    }
  }

  lemma InjectedPercent(cols: Columns, t: TermName, e: EngineName, r: Resource, requests: Json, q: Resource)
    ensures Field(InjectResource(cols, t, e, r, requests), ResourceKey(q)) ==
              var cell := Field(requests, ResourceKey(q));
              var p := StoredPct(cols, q, t, e);
              if q == r && cell.Obj? && p.Some? then Cell(cell, p.value, "percent") else cell
  {
  }

  lemma InjectedEngineCell(cols: Columns, t: TermName, e: EngineName, engine: Json, block: Key, s: Section, r: Resource)
    ensures CellIn(InjectVariation(cols, t, e, engine), block, s, r) ==
              var cell := CellIn(engine, block, s, r);
              var p := StoredPct(cols, r, t, e);
              if block == VariationKey && s == Requests && cell.Obj? && p.Some? then Cell(cell, p.value, "percent")
              else cell
  {
    var variation := Field(engine, VariationKey);
    var requests := Field(variation, SectionKey(Requests));
    if requests.Obj? {
      var cpu := InjectResource(cols, t, e, Cpu, requests);
      InjectedPercent(cols, t, e, Cpu, requests, r);
      InjectedPercent(cols, t, e, Memory, cpu, r);
    }
  }

  // ----- A pass over the whole tree

  /** The cell of an engine after a pass. */
  function CellAfter(p: Pass, t: TermName, e: EngineName, block: Key, s: Section, r: Resource, cell: Json): Json {
    match p
    case ToUnits(u) => InUnits(u, r, cell)
    case InjectStored(cols) =>
      var pct := StoredPct(cols, r, t, e);
      if block == VariationKey && s == Requests && cell.Obj? && pct.Some? then Cell(cell, pct.value, "percent") else cell
    case ToPercent(_, _, _, _, _) => if block == VariationKey && !Skips(p, s) then CellPass(p, s, r, cell) else cell
    case _ => cell
  }

  lemma UnitsCell(u: Units, engine: Json, block: Key, s: Section, r: Resource)
    requires block == ConfigKey || block == VariationKey
    ensures CellIn(OnConfig(ToUnits(u), VariationKey, OnConfig(ToUnits(u), ConfigKey, engine)), block, s, r) ==
              InUnits(u, r, CellIn(engine, block, s, r))
  {
    ConfigCell(ToUnits(u), ConfigKey, engine, block, s, r);
    ConfigCell(ToUnits(u), VariationKey, OnConfig(ToUnits(u), ConfigKey, engine), block, s, r);
  }

  lemma EnginePassCell(p: Pass, t: TermName, e: EngineName, engine: Json, block: Key, s: Section, r: Resource)
    requires block == ConfigKey || block == VariationKey
    ensures CellIn(EnginePass(p, t, e, engine), block, s, r) ==
              CellAfter(p, t, e, block, s, r, CellIn(engine, block, s, r))
  {
    match p
    case ToUnits(u) => UnitsCell(u, engine, block, s, r);
    case InjectStored(cols) => InjectedEngineCell(cols, t, e, engine, block, s, r);
    case ToPercent(_, _, _, _, _) => ConfigCell(p, VariationKey, engine, block, s, r);
    case _ =>
  }

  lemma NoCell(p: Pass, t: TermName, e: EngineName, block: Key, s: Section, r: Resource)
    ensures CellAfter(p, t, e, block, s, r, Null) == Null
  {
  }

  lemma EngineCell(p: Pass, root: Json, t: TermName, e: EngineName, block: Key, s: Section, r: Resource)
    requires block == ConfigKey || block == VariationKey
    ensures CellIn(EngineAt(OnTerms(p, root), t, e), block, s, r) ==
              CellAfter(p, t, e, block, s, r, CellIn(EngineAt(root, t, e), block, s, r))
  {
    EngineAtAfter(p, root, t, e);
    if EngineAt(root, t, e).Obj? {
      EnginePassCell(p, t, e, EngineAt(root, t, e), block, s, r);
    } else {
      assert CellIn(EngineAt(root, t, e), block, s, r) == Null;
      NoCell(p, t, e, block, s, r);
    }
  }

  function CellsAfter(p: Pass, t: TermName, e: EngineName, s: Section, r: Resource, c: Cells): Cells {
    Cells(c.current, CellAfter(p, t, e, ConfigKey, s, r, c.config), CellAfter(p, t, e, VariationKey, s, r, c.variation))
  }

  lemma PassCells(p: Pass, root: Json, t: TermName, e: EngineName, s: Section, r: Resource)
    ensures CellsAt(OnTerms(p, root), t, e, s, r) == CellsAfter(p, t, e, s, r, CellsAt(root, t, e, s, r))
  {
    OtherFieldsUntouched(p, root, t, e);
    EngineCell(p, root, t, e, ConfigKey, s, r);
    EngineCell(p, root, t, e, VariationKey, s, r);
  }

  // ----- The whole response

  lemma UnitsCells(u: Units, root: Json, t: TermName, e: EngineName, s: Section, r: Resource)
    ensures var c := CellsAt(root, t, e, s, r);
            CellsAt(TransformComponentUnits(u, root), t, e, s, r) ==
              Cells(InUnits(u, r, c.current), InUnits(u, r, c.config), InUnits(u, r, c.variation))
  {
    var current := OnConfig(ToUnits(u), CurrentKey, root);
    ConfigCell(ToUnits(u), CurrentKey, root, CurrentKey, s, r);
    OtherFieldsUntouched(ToUnits(u), root, t, e);
    PassCells(ToUnits(u), current, t, e, s, r);
  }

  lemma NotificationsLeaveCells(root: Json, t: TermName, e: EngineName, s: Section, r: Resource)
    ensures CellsAt(FilteredNotifications(root), t, e, s, r) == CellsAt(root, t, e, s, r)
  {
    OtherFieldsUntouched(FilterNotifications, root, t, e);
    PassCells(FilterNotifications, DeleteNotificationObject(root), t, e, s, r);
  }

  lemma PercentCells(root: Json, skipRequests: bool, t: TermName, e: EngineName, s: Section, r: Resource)
    returns (percent: Pass)
    ensures percent.ToPercent? && percent.skipRequests == skipRequests
    ensures CurrentFor(percent, s, r) == AmountOrZero(CellsAt(root, t, e, s, r).current)
    ensures CellsAt(ConvertVariationToPercentage(skipRequests, root), t, e, s, r) ==
              CellsAfter(percent, t, e, s, r, CellsAt(root, t, e, s, r))
  {
    percent := ToPercent(CurrentAmount(root, Limits, Cpu), CurrentAmount(root, Limits, Memory),
                         CurrentAmount(root, Requests, Cpu), CurrentAmount(root, Requests, Memory), skipRequests);
    PassCells(percent, root, t, e, s, r);
  }

  /** Units, injection and percentages applied to the cells in turn. */
  lemma StepByStep(u: Units, c: Cells, stored: Option<Columns>, percent: Pass,
                   t: TermName, e: EngineName, s: Section, r: Resource)
    requires percent.ToPercent? && percent.skipRequests == ReadsStored(stored)
    requires CurrentFor(percent, s, r) == AmountOrZero(InUnits(u, r, c.current))
    ensures var converted := Cells(InUnits(u, r, c.current), InUnits(u, r, c.config), InUnits(u, r, c.variation));
            var injected := if ReadsStored(stored) then CellsAfter(InjectStored(stored.value), t, e, s, r, converted)
                            else converted;
            CellsAfter(percent, t, e, s, r, injected) == Shown(u, c, stored, t, e, s, r)
  {
    var cell := c.variation;
    if Field(cell, AmountKey).Num? {
      var x := Convert(u, r, Field(cell, AmountKey).n);
      var y := if s == Requests && ReadsStored(stored) && StoredPct(stored.value, r, t, e).Some?
               then StoredPct(stored.value, r, t, e).value
               else TruncateToThreeDecimalPlaces(CalculatePercentage(x, AmountOrZero(InUnits(u, r, c.current))));
      CellOverCell(cell, x, FormatName(u, r), y, "percent");
    }
  }

  lemma PresentCells(u: Units, root: Json, stored: Option<Columns>, t: TermName, e: EngineName, s: Section, r: Resource)
    ensures CellsAt(Present(u, root, stored), t, e, s, r) ==
              Shown(u, CellsAt(root, t, e, s, r), stored, t, e, s, r)
  {
    var c := CellsAt(root, t, e, s, r);
    var units := TransformComponentUnits(u, root);
    var filtered := FilteredNotifications(units);
    UnitsCells(u, root, t, e, s, r);
    NotificationsLeaveCells(units, t, e, s, r);
    if ReadsStored(stored) {
      var injected := OnTerms(InjectStored(stored.value), filtered);
      PassCells(InjectStored(stored.value), filtered, t, e, s, r);
      var percent := PercentCells(injected, true, t, e, s, r);
      StepByStep(u, c, stored, percent, t, e, s, r);
    } else {
      var percent := PercentCells(filtered, false, t, e, s, r);
      StepByStep(u, c, stored, percent, t, e, s, r);
    }
  }

  lemma PlotsApartFromCells(root: Json, t: TermName, e: EngineName, s: Section, r: Resource)
    ensures CellsAt(OnTerms(DropPlots, root), t, e, s, r) == CellsAt(root, t, e, s, r)
  {
    PassCells(DropPlots, root, t, e, s, r);
  }

  /** For every stored tree, in either form, and for each cell of it: the current and recommended
      configurations are shown in the units of the request, the variations in percent of the current amount
      of the same section and resource or as the percentage stored for that very term, engine and resource. */
  lemma ResponseCells(forList: bool, u: Units, blob: Json, stored: Option<Columns>,
                      t: TermName, e: EngineName, s: Section, r: Resource)
    ensures match UpdateRecommendationJSON(forList, u, blob, stored)
            case Tree(out) => CellsAt(out, t, e, s, r) == Shown(u, CellsAt(blob, t, e, s, r), stored, t, e, s, r)
            case _ => true
  {
    PlotsApartFromCells(blob, t, e, s, r);
    PresentCells(u, if forList then OnTerms(DropPlots, blob) else blob, stored, t, e, s, r);
  }

  // ----- Notifications

  /** A term, or an engine of it, after a pass. */
  lemma TermAtAfter(p: Pass, root: Json, t: TermName)
    ensures TermAt(OnTerms(p, root), t) == if TermAt(root, t).Obj? then TermPass(p, t, TermAt(root, t)) else TermAt(root, t)
  {
    var terms := Field(root, RecommendationTermsKey);
    if terms.Obj? {
      PassedTermsField(p, terms, TermKey(t));
      assert Field(OnTerms(p, root), RecommendationTermsKey) == PassedTerms(p, terms);
    }
  }

  datatype Notes = Notes(root: Json, term: Json, engine: Json)

  function NotesAt(root: Json, t: TermName, e: EngineName): Notes {
    Notes(Field(root, NotificationsKey), Field(TermAt(root, t), NotificationsKey), Field(EngineAt(root, t, e), NotificationsKey))
  }

  function NotesAfter(p: Pass, n: Notes): Notes {
    if p.FilterNotifications? then n.(term := NotificationsShown(n.term), engine := NotificationsShown(n.engine)) else n
  }

  lemma FilteredSection(section: Json)
    ensures Field(DeleteNotificationObject(section), NotificationsKey) == NotificationsShown(Field(section, NotificationsKey))
  {
  }

  lemma PlotsLeaveNotes(u: Units, term: Json)
    ensures Field(ConvertPlots(u, TruncateDuration(DropNilStartTime(term))), NotificationsKey) == Field(term, NotificationsKey)
  {
  }

  lemma TermNotes(p: Pass, t: TermName, term: Json)
    ensures Field(TermPass(p, t, term), NotificationsKey) ==
              if p.FilterNotifications? then NotificationsShown(Field(term, NotificationsKey)) else Field(term, NotificationsKey)
  {
    FilteredSection(term);
    if p.ToUnits? {
      PlotsLeaveNotes(p.u, term);
    }
    assert p.DropPlots? || Field(TermPass(p, t, term), NotificationsKey) == Field(TermFieldsPass(p, term), NotificationsKey);
  }

  lemma EngineNotes(p: Pass, t: TermName, e: EngineName, engine: Json)
    ensures Field(EnginePass(p, t, e, engine), NotificationsKey) ==
              if p.FilterNotifications? then NotificationsShown(Field(engine, NotificationsKey)) else Field(engine, NotificationsKey)
  {
  }

  lemma PassNotes(p: Pass, root: Json, t: TermName, e: EngineName)
    ensures NotesAt(OnTerms(p, root), t, e) == NotesAfter(p, NotesAt(root, t, e))
  {
    TermAtAfter(p, root, t);
    EngineAtAfter(p, root, t, e);
    TermNotes(p, t, TermAt(root, t));
    EngineNotes(p, t, e, EngineAt(root, t, e));
  }

  lemma CurrentLeavesTerms(p: Pass, root: Json)
    ensures Field(OnConfig(p, CurrentKey, root), NotificationsKey) == Field(root, NotificationsKey)
    ensures Field(OnConfig(p, CurrentKey, root), RecommendationTermsKey) == Field(root, RecommendationTermsKey)
  {
  }

  lemma UnitsLeaveNotes(u: Units, root: Json, t: TermName, e: EngineName)
    ensures NotesAt(TransformComponentUnits(u, root), t, e) == NotesAt(root, t, e)
  {
    CurrentLeavesTerms(ToUnits(u), root);
    assert NotesAt(OnConfig(ToUnits(u), CurrentKey, root), t, e) == NotesAt(root, t, e);
    PassNotes(ToUnits(u), OnConfig(ToUnits(u), CurrentKey, root), t, e);
  }

  lemma FilteredNotes(root: Json, t: TermName, e: EngineName)
    ensures var n := NotesAt(root, t, e);
            NotesAt(FilteredNotifications(root), t, e) ==
              Notes(NotificationsShown(n.root), NotificationsShown(n.term), NotificationsShown(n.engine))
  {
    FilteredSection(root);
    OtherFieldsUntouched(FilterNotifications, root, t, e);
    PassNotes(FilterNotifications, DeleteNotificationObject(root), t, e);
  }

  lemma PercentLeavesNotes(skipRequests: bool, root: Json, t: TermName, e: EngineName)
    ensures NotesAt(ConvertVariationToPercentage(skipRequests, root), t, e) == NotesAt(root, t, e)
  {
    PassNotes(ToPercent(CurrentAmount(root, Limits, Cpu), CurrentAmount(root, Limits, Memory),
                        CurrentAmount(root, Requests, Cpu), CurrentAmount(root, Requests, Memory), skipRequests),
              root, t, e);
  }

  /** For every stored tree, in either form: the notifications of the recommendation, of each term and of
      each engine are shown whole when all are on the list, and not at all otherwise. */
  lemma ResponseNotifications(forList: bool, u: Units, blob: Json, stored: Option<Columns>, t: TermName, e: EngineName)
    ensures match UpdateRecommendationJSON(forList, u, blob, stored)
            case Tree(out) =>
              var n := NotesAt(blob, t, e);
              NotesAt(out, t, e) == Notes(NotificationsShown(n.root), NotificationsShown(n.term), NotificationsShown(n.engine))
            case _ => true
  {
    var root := if forList then OnTerms(DropPlots, blob) else blob;
    var filtered := FilteredNotifications(TransformComponentUnits(u, root));
    PassNotes(DropPlots, blob, t, e);
    UnitsLeaveNotes(u, root, t, e);
    FilteredNotes(TransformComponentUnits(u, root), t, e);
    PercentLeavesNotes(false, filtered, t, e);
    if ReadsStored(stored) {
      PassNotes(InjectStored(stored.value), filtered, t, e);
      PercentLeavesNotes(true, OnTerms(InjectStored(stored.value), filtered), t, e);
    }
  }

  // ----- Fields of a term: start, duration, plots

  /** The other passes leave these fields of a term. */
  lemma OtherTermFields(p: Pass, t: TermName, term: Json, key: Key)
    requires !p.ToUnits? && !p.DropPlots? && key in {MonitoringStartTimeKey, DurationInHoursKey, PlotsKey}
    ensures Field(TermPass(p, t, term), key) == Field(term, key)
  {
    assert Field(TermFieldsPass(p, term), key) == Field(term, key);
  }

  lemma PassLeavesTermField(p: Pass, root: Json, t: TermName, key: Key)
    requires !p.ToUnits? && !p.DropPlots? && key in {MonitoringStartTimeKey, DurationInHoursKey, PlotsKey}
    ensures Field(TermAt(OnTerms(p, root), t), key) == Field(TermAt(root, t), key)
  {
    TermAtAfter(p, root, t);
    OtherTermFields(p, t, TermAt(root, t), key);
  }

  lemma NotificationsLeaveTermField(root: Json, t: TermName, key: Key)
    requires key in {MonitoringStartTimeKey, DurationInHoursKey, PlotsKey}
    ensures Field(TermAt(FilteredNotifications(root), t), key) == Field(TermAt(root, t), key)
  {
    assert TermAt(DeleteNotificationObject(root), t) == TermAt(root, t);
    PassLeavesTermField(FilterNotifications, DeleteNotificationObject(root), t, key);
  }

  /** Only the unit pass changes these fields. */
  lemma PresentTermField(u: Units, root: Json, stored: Option<Columns>, t: TermName, key: Key)
    requires key in {MonitoringStartTimeKey, DurationInHoursKey, PlotsKey}
    ensures Field(TermAt(Present(u, root, stored), t), key) == Field(TermAt(TransformComponentUnits(u, root), t), key)
  {
    var units := TransformComponentUnits(u, root);
    var filtered := FilteredNotifications(units);
    NotificationsLeaveTermField(units, t, key);
    if ReadsStored(stored) {
      var injected := OnTerms(InjectStored(stored.value), filtered);
      PassLeavesTermField(InjectStored(stored.value), filtered, t, key);
      PercentLeavesTermField(injected, true, t, key);
    } else {
      PercentLeavesTermField(filtered, false, t, key);
    }
  }

  lemma PercentLeavesTermField(root: Json, skipRequests: bool, t: TermName, key: Key)
    requires key in {MonitoringStartTimeKey, DurationInHoursKey, PlotsKey}
    ensures Field(TermAt(ConvertVariationToPercentage(skipRequests, root), t), key) == Field(TermAt(root, t), key)
  {
    PassLeavesTermField(ToPercent(CurrentAmount(root, Limits, Cpu), CurrentAmount(root, Limits, Memory),
                                  CurrentAmount(root, Requests, Cpu), CurrentAmount(root, Requests, Memory), skipRequests),
                        root, t, key);
  }

  lemma UnitsTerm(u: Units, root: Json, t: TermName)
    ensures TermAt(TransformComponentUnits(u, root), t) ==
              if TermAt(root, t).Obj? then TermPass(ToUnits(u), t, TermAt(root, t)) else TermAt(root, t)
  {
    CurrentLeavesTerms(ToUnits(u), root);
    TermAtAfter(ToUnits(u), OnConfig(ToUnits(u), CurrentKey, root), t);
  }

  /** A start time that stands for none is left out, and a duration is cut to tenths of an hour. */
  ghost predicate TermFieldsShown(before: Json, after: Json) {
    && Field(after, MonitoringStartTimeKey) ==
         (if Field(before, MonitoringStartTimeKey) == Str("0001-01-01T00:00:00Z") then Null
          else Field(before, MonitoringStartTimeKey))
    && var d, shown := Field(before, DurationInHoursKey), Field(after, DurationInHoursKey);
       if d.Num? then shown.Num? && CutToSteps(d.n, shown.n, 10.0) else shown == d
  }

  lemma TenthsCut(x: real)
    ensures CutToSteps(x, Trunc(x * 10.0) as real / 10.0, 10.0)
  {
    WholeSteps(Trunc(x * 10.0), 10.0);
  }

  lemma UnitsTermFields(u: Units, t: TermName, term: Json)
    ensures TermFieldsShown(term, TermPass(ToUnits(u), t, term))
  {
    var started := DropNilStartTime(term);
    var cut := TruncateDuration(started);
    var d := Field(term, DurationInHoursKey);
    if d.Num? {
      TenthsCut(d.n);
    }
    assert Field(started, DurationInHoursKey) == d;
    assert Field(cut, MonitoringStartTimeKey) == Field(started, MonitoringStartTimeKey);
    assert Field(ConvertPlots(u, cut), MonitoringStartTimeKey) == Field(cut, MonitoringStartTimeKey);
    assert Field(ConvertPlots(u, cut), DurationInHoursKey) == Field(cut, DurationInHoursKey);
  }

  lemma PlotsApartFromFields(root: Json, t: TermName, key: Key)
    requires key != PlotsKey
    ensures Field(TermAt(OnTerms(DropPlots, root), t), key) == Field(TermAt(root, t), key)
  {
    TermAtAfter(DropPlots, root, t);
  }

  /** For every stored tree, in either form: the start time and the duration of each term. */
  lemma ResponseTermFields(forList: bool, u: Units, blob: Json, stored: Option<Columns>, t: TermName)
    ensures match UpdateRecommendationJSON(forList, u, blob, stored)
            case Tree(out) => TermFieldsShown(TermAt(blob, t), TermAt(out, t))
            case _ => true
  {
    var root := if forList then OnTerms(DropPlots, blob) else blob;
    PlotsApartFromFields(blob, t, MonitoringStartTimeKey);
    PlotsApartFromFields(blob, t, DurationInHoursKey);
    PresentTermField(u, root, stored, t, MonitoringStartTimeKey);
    PresentTermField(u, root, stored, t, DurationInHoursKey);
    UnitsTerm(u, root, t);
    UnitsTermFields(u, t, TermAt(root, t));
  }

  function UsageKey(r: Resource): Key {
    match r case Cpu => CpuUsageKey case Memory => MemoryUsageKey
  }

  /** The usage of a resource in a data point of a term's plots. */
  function UsageIn(term: Json, point: Key, r: Resource): Json {
    Field(Field(Field(Field(term, PlotsKey), PlotsDataKey), point), UsageKey(r))
  }

  predicate IsQuantile(key: Key) {
    key in {Q1Key, Q3Key, MinKey, MaxKey, MedianKey}
  }

  /** Each of the five quantiles is shown in the units of the resource, zero when it is no number; the format is
      shown in the units' name if there is one; all else is left. */
  ghost predicate UsageShown(u: Units, r: Resource, before: Json, after: Json) {
    if before.Obj? then
      && after.Obj?
      && forall key :: Field(after, key) ==
           if IsQuantile(key) then Num(Convert(u, r, NumOrZero(Field(before, key))))
           else if key == FormatKey && Field(before, key).Str? then Str(FormatName(u, r))
           else Field(before, key)
    else after == before
  }

  lemma QuantileField(u: Units, r: Resource, usage: Json, q: Key, key: Key)
    requires usage.Obj?
    ensures Quantile(u, r, usage, q).Obj?
    ensures Field(Quantile(u, r, usage, q), key) ==
              if key == q then Num(Convert(u, r, NumOrZero(Field(usage, q))))
              else Field(usage, key)
  {
  }

  function NumOrZero(j: Json): real {
    if j.Num? then j.n else 0.0
  }

  lemma FiveQuantiles(u: Units, r: Resource, usage: Json, key: Key)
    requires usage.Obj?
    ensures var quartiles := Quantile(u, r, Quantile(u, r, usage, Q1Key), Q3Key);
            var after := Quantile(u, r, Quantile(u, r, Quantile(u, r, quartiles, MinKey), MaxKey), MedianKey);
            after.Obj? && Field(after, key) ==
              if IsQuantile(key) then Num(Convert(u, r, NumOrZero(Field(usage, key)))) else Field(usage, key)
  {
    var a := Quantile(u, r, usage, Q1Key);
    var b := Quantile(u, r, a, Q3Key);
    var c := Quantile(u, r, b, MinKey);
    var d := Quantile(u, r, c, MaxKey);
    QuantileField(u, r, usage, Q1Key, key);
    QuantileField(u, r, a, Q3Key, key);
    QuantileField(u, r, b, MinKey, key);
    QuantileField(u, r, c, MaxKey, key);
    QuantileField(u, r, d, MedianKey, key);
  }

  function Renamed(u: Units, r: Resource, usage: Json): Json {
    if Field(usage, FormatKey).Str? then Put(usage, FormatKey, Str(FormatName(u, r))) else usage
  }

  lemma RenamedField(u: Units, r: Resource, usage: Json, key: Key)
    requires usage.Obj?
    ensures Renamed(u, r, usage).Obj?
    ensures Field(Renamed(u, r, usage), key) ==
              if key == FormatKey && Field(usage, key).Str? then Str(FormatName(u, r)) else Field(usage, key)
  {
  }

  lemma ConvertedUsage(u: Units, r: Resource, point: Json)
    ensures UsageShown(u, r, Field(point, UsageKey(r)), Field(ConvertUsage(u, r, UsageKey(r), point), UsageKey(r)))
  {
    var usage := Field(point, UsageKey(r));
    if usage.Obj? {
      var named := Renamed(u, r, usage);
      var quartiles := Quantile(u, r, Quantile(u, r, named, Q1Key), Q3Key);
      var after := Quantile(u, r, Quantile(u, r, Quantile(u, r, quartiles, MinKey), MaxKey), MedianKey);
      assert Field(ConvertUsage(u, r, UsageKey(r), point), UsageKey(r)) == after;
      UsageFields(u, r, usage, named, after);
    }
  }

  lemma UsageFields(u: Units, r: Resource, usage: Json, named: Json, after: Json)
    requires usage.Obj? && named == Renamed(u, r, usage)
    requires var quartiles := Quantile(u, r, Quantile(u, r, named, Q1Key), Q3Key);
             after == Quantile(u, r, Quantile(u, r, Quantile(u, r, quartiles, MinKey), MaxKey), MedianKey)
    ensures UsageShown(u, r, usage, after)
  {
    RenamedField(u, r, usage, Q1Key);
    FiveQuantiles(u, r, named, Q1Key);
    forall key
      ensures Field(after, key) ==
                if IsQuantile(key) then Num(Convert(u, r, NumOrZero(Field(usage, key))))
                else if key == FormatKey && Field(usage, key).Str? then Str(FormatName(u, r))
                else Field(usage, key)
    {
      RenamedField(u, r, usage, key);
      FiveQuantiles(u, r, named, key);
    }
  }

  lemma OtherUsage(u: Units, r: Resource, q: Resource, point: Json)
    requires r != q
    ensures Field(ConvertUsage(u, q, UsageKey(q), point), UsageKey(r)) == Field(point, UsageKey(r))
  {
  }

  lemma ConvertedPoint(u: Units, r: Resource, data: Json, point: Key)
    ensures UsageShown(u, r, Field(Field(data, point), UsageKey(r)), Field(Field(ConvertPoints(u, data), point), UsageKey(r)))
  {
    if data.Obj? && point in data.fields {
      var before := data.fields[point];
      var cpu := ConvertUsage(u, Cpu, CpuUsageKey, before);
      assert Field(ConvertPoints(u, data), point) == ConvertUsage(u, Memory, MemoryUsageKey, cpu);
      if r == Cpu {
        ConvertedUsage(u, Cpu, before);
        OtherUsage(u, Cpu, Memory, cpu);
      } else {
        OtherUsage(u, Memory, Cpu, before);
        ConvertedUsage(u, Memory, cpu);
      }
    }
  }

  lemma UnitsUsage(u: Units, t: TermName, term: Json, point: Key, r: Resource)
    ensures UsageShown(u, r, UsageIn(term, point, r), UsageIn(TermPass(ToUnits(u), t, term), point, r))
  {
    var cut := TruncateDuration(DropNilStartTime(term));
    assert Field(cut, PlotsKey) == Field(term, PlotsKey);
    assert Field(TermPass(ToUnits(u), t, term), PlotsKey) == Field(ConvertPlots(u, cut), PlotsKey);
    var plots := Field(term, PlotsKey);
    ConvertedPoint(u, r, Field(plots, PlotsDataKey), point);
    if plots.Obj? && Field(plots, PlotsDataKey).Obj? {
      assert Field(Field(ConvertPlots(u, cut), PlotsKey), PlotsDataKey) == ConvertPoints(u, Field(plots, PlotsDataKey));
    }
  }

  /** For every stored tree: in detail form the plots of each term are shown in the units of their resource, for
      every data point; in list form there are none. */
  lemma ResponsePlots(u: Units, blob: Json, stored: Option<Columns>, t: TermName, point: Key, r: Resource)
    ensures match UpdateRecommendationJSON(false, u, blob, stored)
            case Tree(out) => UsageShown(u, r, UsageIn(TermAt(blob, t), point, r), UsageIn(TermAt(out, t), point, r))
            case _ => true
    ensures match UpdateRecommendationJSON(true, u, blob, stored)
            case Tree(out) => Field(TermAt(out, t), PlotsKey) == Null
            case _ => true
  {
    PresentTermField(u, blob, stored, t, PlotsKey);
    UnitsTerm(u, blob, t);
    UnitsUsage(u, t, TermAt(blob, t), point, r);
    NoPlotsInList(u, blob, stored, t);
  }

  lemma NoPlotsInList(u: Units, blob: Json, stored: Option<Columns>, t: TermName)
    ensures Field(TermAt(Present(u, OnTerms(DropPlots, blob), stored), t), PlotsKey) == Null
  {
    var root := OnTerms(DropPlots, blob);
    TermAtAfter(DropPlots, blob, t);
    PresentTermField(u, root, stored, t, PlotsKey);
    UnitsTerm(u, root, t);
    var term := TermAt(root, t);
    assert Field(term, PlotsKey) == Null;
    var cut := TruncateDuration(DropNilStartTime(term));
    assert Field(cut, PlotsKey) == Null;
    assert Field(TermPass(ToUnits(u), t, term), PlotsKey) == Field(ConvertPlots(u, cut), PlotsKey);
  }
}
