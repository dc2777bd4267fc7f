/** The recommendation poller: what it does with one delivery of a message. The database, Kruize and the
    transaction answer as the environment of the delivery says. */
module Poller {
  import opened Wrappers
  import opened Calendar
  import opened Payload
  import opened Tables
  import opened Gate

  datatype ExperimentType = ContainerType | NamespaceType | OtherType(text: string)

  datatype Message = Message(orgId: string, workload: nat, maxEndTime: Instant, experimentType: ExperimentType)

  /** Malformed: not JSON, not decodable, or with a required field missing. */
  datatype Delivery = Malformed | Decoded(msg: Message)

  datatype PollConfig = PollConfig(interval: int, namespaceDisabled: bool)

  // ----- Replies

  /** One entry of a recommendation's Data map; `marshals` is false when json.Marshal rejects it. */
  datatype Entry = Entry(key: int, marshals: bool, data: RecommendationData)

  /** Data in the order its map is ranged over. */
  datatype Recommendation = Recommendation(notifications: set<string>, data: seq<Entry>)

  datatype Named = Named(name: string, recommendation: Recommendation)

  datatype Reply<+T> =
    | FetchFailed
    | NotTheType
    | NoObjects
    | Answer(experimentType: ExperimentType, content: T)

  datatype Fate = Commits | BeginFails | StatementFails(at: nat) | CommitFails | Panics(at: nat)

  /** What the surroundings do during one delivery. `pick` is the container of the workload's first row in
      primary key order; `existsQueryOk` is false when looking up the workload fails. */
  datatype Env = Env(
    lookupOk: bool,
    pick: string,
    existsQueryOk: bool,
    containers: Reply<seq<Named>>,
    namespace: Reply<Named>,
    fate: Fate,
    now: Instant)

  const VALID_RECOMMENDATION_CODE := "111000"

  /** The key a time has in the Data map: its UTC text, in milliseconds. */
  function TimeKey(t: Instant): int {
    t / 1_000_000
  }

  predicate IsValidRecommendation(r: Recommendation, maxEndTime: Instant) {
    && VALID_RECOMMENDATION_CODE in r.notifications
    && exists i :: 0 <= i < |r.data| && r.data[i].key == TimeKey(maxEndTime)
  }

  // ----- Rows to write

  /** One recommendation to save under a container or namespace name. */
  datatype Write = Write(name: string, data: RecommendationData)

  datatype CurrentInsert = CurrentInsert(key: ContainerKey, row: SetRow)

  datatype HistoryInsert = HistoryInsert(key: HistoryKey, row: HistoryRow)

  datatype NamespaceInsert = NamespaceInsert(workload: nat, row: NamespaceRow)

  datatype NamespaceHistoryInsert = NamespaceHistoryInsert(key: NamespaceHistoryKey, row: NamespaceHistoryRow)

  function RowOf(w: Write, now: Instant): SetRow {
    SetRow(w.data.shortTerm.monitoringStartTime, w.data.monitoringEndTime, w.data, now, Stored(Extract(w.data)))
  }

  function CurrentInsertOf(msg: Message, w: Write, now: Instant): CurrentInsert {
    CurrentInsert(ContainerKey(msg.workload, w.name), RowOf(w, now))
  }

  function HistoryInsertOf(msg: Message, w: Write): HistoryInsert {
    HistoryInsert(HistoryKey(msg.orgId, msg.workload, w.name, w.data.monitoringEndTime),
                  HistoryRow(w.data.shortTerm.monitoringStartTime, w.data))
  }

  function NamespaceInsertOf(msg: Message, w: Write, now: Instant): NamespaceInsert {
    NamespaceInsert(msg.workload, NamespaceRow(msg.orgId, w.name, RowOf(w, now)))
  }

  function NamespaceHistoryInsertOf(msg: Message, w: Write): NamespaceHistoryInsert {
    NamespaceHistoryInsert(NamespaceHistoryKey(msg.orgId, msg.workload, w.data.monitoringEndTime),
                           NamespaceHistoryRow(w.name, w.data.shortTerm.monitoringStartTime, w.data))
  }

  function EntryWrites(name: string, data: seq<Entry>): seq<Write> {
    if data == [] then []
    else
      var last := data[|data| - 1];
      EntryWrites(name, data[..|data| - 1]) + (if last.marshals then [Write(name, last.data)] else [])
  }

  /** Every marshalling entry of every valid recommendation. */
  function WritesOf(objects: seq<Named>, maxEndTime: Instant): seq<Write> {
    if objects == [] then []
    else
      var last := objects[|objects| - 1];
      WritesOf(objects[..|objects| - 1], maxEndTime)
      + (if IsValidRecommendation(last.recommendation, maxEndTime)
         then EntryWrites(last.name, last.recommendation.data) else [])
  }

  predicate SomeInvalid(objects: seq<Named>, maxEndTime: Instant) {
    exists i :: 0 <= i < |objects| && !IsValidRecommendation(objects[i].recommendation, maxEndTime)
  }

  /** The recommendations of a usable reply; a reply that is missing, empty or of the wrong type has none. */
  function ObjectsOf(msg: Message, env: Env): seq<Named> {
    match msg.experimentType
    case ContainerType =>
      if env.containers.Answer? && env.containers.experimentType == ContainerType then env.containers.content else []
    case NamespaceType =>
      if env.namespace.Answer? && env.namespace.experimentType == NamespaceType then [env.namespace.content] else []
    case OtherType(_) => []
  }

  function Writes(msg: Message, env: Env): seq<Write> {
    WritesOf(ObjectsOf(msg, env), msg.maxEndTime)
  }

  // ----- Transactions

  function SavedCurrent(table: map<ContainerKey, SetRow>, inserts: seq<CurrentInsert>): map<ContainerKey, SetRow> {
    if inserts == [] then table
    else
      var last := inserts[|inserts| - 1];
      Upsert(SavedCurrent(table, inserts[..|inserts| - 1]), last.key, last.row)
  }

  function SavedHistory(table: map<HistoryKey, HistoryRow>, inserts: seq<HistoryInsert>): map<HistoryKey, HistoryRow> {
    if inserts == [] then table
    else
      var last := inserts[|inserts| - 1];
      UpsertHistory(SavedHistory(table, inserts[..|inserts| - 1]), last.key, last.row)
  }

  function SavedNamespaces(table: map<nat, NamespaceRow>, inserts: seq<NamespaceInsert>): map<nat, NamespaceRow> {
    if inserts == [] then table
    else
      var last := inserts[|inserts| - 1];
      UpsertNamespace(SavedNamespaces(table, inserts[..|inserts| - 1]), last.workload, last.row)
  }

  function SavedNamespaceHistory(table: map<NamespaceHistoryKey, NamespaceHistoryRow>, inserts: seq<NamespaceHistoryInsert>)
    : map<NamespaceHistoryKey, NamespaceHistoryRow>
  {
    if inserts == [] then table
    else
      var last := inserts[|inserts| - 1];
      InsertNamespaceHistory(SavedNamespaceHistory(table, inserts[..|inserts| - 1]), last.key, last.row)
  }

  function CurrentInserts(msg: Message, ws: seq<Write>, now: Instant): seq<CurrentInsert> {
    seq(|ws|, i requires 0 <= i < |ws| => CurrentInsertOf(msg, ws[i], now))
  }

  function HistoryInserts(msg: Message, ws: seq<Write>): seq<HistoryInsert> {
    seq(|ws|, i requires 0 <= i < |ws| => HistoryInsertOf(msg, ws[i]))
  }

  function NamespaceInserts(msg: Message, ws: seq<Write>, now: Instant): seq<NamespaceInsert> {
    seq(|ws|, i requires 0 <= i < |ws| => NamespaceInsertOf(msg, ws[i], now))
  }

  function NamespaceHistoryInserts(msg: Message, ws: seq<Write>): seq<NamespaceHistoryInsert> {
    seq(|ws|, i requires 0 <= i < |ws| => NamespaceHistoryInsertOf(msg, ws[i]))
  }

  /** All rows of a message written, current and history. */
  function Saved(db: Database, msg: Message, ws: seq<Write>, now: Instant): Database {
    if msg.experimentType.NamespaceType? then
      db.(namespaceCurrent := SavedNamespaces(db.namespaceCurrent, NamespaceInserts(msg, ws, now)),
          namespaceHistory := SavedNamespaceHistory(db.namespaceHistory, NamespaceHistoryInserts(msg, ws)))
    else
      db.(current := SavedCurrent(db.current, CurrentInserts(msg, ws, now)),
          history := SavedHistory(db.history, HistoryInserts(msg, ws)))
  }

  /** Whether a transaction of `n` statements is applied. */
  predicate Applied(fate: Fate, n: nat) {
    fate.Commits? || ((fate.StatementFails? || fate.Panics?) && fate.at >= n)
  }

  /** Whether the transaction function returns an error: a recovered panic returns none. */
  predicate ReturnsError(fate: Fate, n: nat) {
    fate.BeginFails? || fate.CommitFails? || (fate.StatementFails? && fate.at < n)
  }

  // ----- One delivery

  predicate Supported(cfg: PollConfig, t: ExperimentType) {
    t.ContainerType? || (t.NamespaceType? && !cfg.namespaceDisabled)
  }

  /** The stored end time the gate looks at, None when the workload has no row. */
  function FoundEnd(db: Database, msg: Message, pick: string): Option<Instant> {
    if msg.experimentType.NamespaceType? then
      if msg.workload in db.namespaceCurrent then Some(db.namespaceCurrent[msg.workload].values.end) else None
    else
      if ContainerKey(msg.workload, pick) in db.current then Some(db.current[ContainerKey(msg.workload, pick)].end)
      else None
  }

  /** The picked row is one of the workload's, if it has any. */
  ghost predicate ValidPick(db: Database, msg: Message, pick: string) {
    (exists c :: ContainerKey(msg.workload, c) in db.current) ==> ContainerKey(msg.workload, pick) in db.current
  }

  predicate GateOpen(cfg: PollConfig, found: Option<Instant>, t: Instant) {
    found.None? || (found.value != ZERO_TIME && Due(cfg.interval, found.value, t))
  }

  predicate WorkloadSeen(db: Database, msg: Message, env: Env) {
    env.existsQueryOk && msg.workload in db.workloads
  }

  /** A recommendation is requested for the message. */
  predicate Requests(cfg: PollConfig, db: Database, d: Delivery, env: Env) {
    && d.Decoded? && Supported(cfg, d.msg.experimentType) && env.lookupOk && WorkloadSeen(db, d.msg, env)
    && GateOpen(cfg, FoundEnd(db, d.msg, env.pick), d.msg.maxEndTime)
  }

  /** The delivery writes its rows. */
  predicate Saves(cfg: PollConfig, db: Database, d: Delivery, env: Env) {
    && Requests(cfg, db, d, env)
    && Writes(d.msg, env) != []
    && Applied(env.fate, 2 * |Writes(d.msg, env)|)
  }

  function After(cfg: PollConfig, db: Database, d: Delivery, env: Env): Database {
    if Saves(cfg, db, d, env) then Saved(db, d.msg, Writes(d.msg, env), env.now) else db
  }

  /** The poll cycle of a request is complete: its rows were written without an error, or there was
      nothing to write and some recommendation was invalid. */
  predicate Completes(msg: Message, env: Env) {
    if Writes(msg, env) != [] then !ReturnsError(env.fate, 2 * |Writes(msg, env)|)
    else SomeInvalid(ObjectsOf(msg, env), msg.maxEndTime)
  }

  /** The offset of the message is committed. */
  predicate Committed(cfg: PollConfig, db: Database, d: Delivery, env: Env) {
    || d.Malformed?
    || !Supported(cfg, d.msg.experimentType)
    || (env.lookupOk && if Requests(cfg, db, d, env) then Completes(d.msg, env) else true)
  }

  // ----- The poller itself

  /** The derived columns of a row, filled in field by field. */
  function CopiedColumns(v: ColumnValues): Columns {
    map[
      RequestCurrent(Cpu) := v.cpuRequestCurrent,
      RequestCurrent(Memory) := v.memoryRequestCurrent,
      VariationPct(Cpu, ShortTerm, Cost) := v.cpuVariationShortCostPct,
      VariationPct(Cpu, ShortTerm, Performance) := v.cpuVariationShortPerformancePct,
      VariationPct(Cpu, MediumTerm, Cost) := v.cpuVariationMediumCostPct,
      VariationPct(Cpu, MediumTerm, Performance) := v.cpuVariationMediumPerformancePct,
      VariationPct(Cpu, LongTerm, Cost) := v.cpuVariationLongCostPct,
      VariationPct(Cpu, LongTerm, Performance) := v.cpuVariationLongPerformancePct,
      VariationPct(Memory, ShortTerm, Cost) := v.memoryVariationShortCostPct,
      VariationPct(Memory, ShortTerm, Performance) := v.memoryVariationShortPerformancePct,
      VariationPct(Memory, MediumTerm, Cost) := v.memoryVariationMediumCostPct,
      VariationPct(Memory, MediumTerm, Performance) := v.memoryVariationMediumPerformancePct,
      VariationPct(Memory, LongTerm, Cost) := v.memoryVariationLongCostPct,
      VariationPct(Memory, LongTerm, Performance) := v.memoryVariationLongPerformancePct]
  }

  /** Each value is copied to its own column. */
  lemma CopiedAll(v: ColumnValues)
    ensures CopiedColumns(v) == v.Contents()
  {
    forall c: Column ensures c in CopiedColumns(v) && CopiedColumns(v)[c] == v.Value(c) {
      match c
      case RequestCurrent(r) => assert r == Cpu || r == Memory;
      case VariationPct(r, t, e) =>
        assert (r == Cpu || r == Memory) && (t == ShortTerm || t == MediumTerm || t == LongTerm);
        assert e == Cost || e == Performance;
    }
  }

  method FillRow(w: Write, now: Instant) returns (row: SetRow)
    ensures row == RowOf(w, now)
  {
    var extracted := new RecommendationColumnValues(w.data);
    CopiedAll(extracted.values);
    row := SetRow(w.data.shortTerm.monitoringStartTime, w.data.monitoringEndTime, w.data, now,
                  Stored(CopiedColumns(extracted.values)));
  }

  class RecommendationPoller {
    const cfg: PollConfig
    var workloads: set<nat>
    var current: map<ContainerKey, SetRow>
    var history: map<HistoryKey, HistoryRow>
    var namespaceCurrent: map<nat, NamespaceRow>
    var namespaceHistory: map<NamespaceHistoryKey, NamespaceHistoryRow>

    constructor (cfg: PollConfig, db: Database)
      ensures this.cfg == cfg && State() == db
    {
      this.cfg := cfg;
      workloads, current, history := db.workloads, db.current, db.history;
      namespaceCurrent, namespaceHistory := db.namespaceCurrent, db.namespaceHistory;
    }

    function State(): Database
      reads this
    {
      Database(workloads, current, history, namespaceCurrent, namespaceHistory)
    }

    method CreateRecommendationSet(r: CurrentInsert)
      modifies this`current
      ensures current == Upsert(old(current), r.key, r.row)
    {
      if r.key in current {
        current := current[r.key := AssignColumns(current[r.key], r.row, CONFLICT_COLUMNS)];
      } else {
        current := current[r.key := r.row];
      }
    }

    method CreateHistoricalRecommendationSet(r: HistoryInsert)
      modifies this`history
      ensures history == UpsertHistory(old(history), r.key, r.row)
    {
      history := history[r.key := r.row];
    }

    method CreateNamespaceRecommendationSet(r: NamespaceInsert)
      modifies this`namespaceCurrent
      ensures namespaceCurrent == UpsertNamespace(old(namespaceCurrent), r.workload, r.row)
    {
      if r.workload in namespaceCurrent {
        var existing := namespaceCurrent[r.workload];
        namespaceCurrent := namespaceCurrent[r.workload :=
          existing.(values := AssignColumns(existing.values, r.row.values, CONFLICT_COLUMNS))];
      } else {
        namespaceCurrent := namespaceCurrent[r.workload := r.row];
      }
    }

    method CreateHistoricalNamespaceRecommendationSet(r: NamespaceHistoryInsert)
      modifies this`namespaceHistory
      ensures namespaceHistory == InsertNamespaceHistory(old(namespaceHistory), r.key, r.row)
    {
      if r.key !in namespaceHistory {
        namespaceHistory := namespaceHistory[r.key := r.row];
      }
    }

    /** All the rows are written, or none: an error or a panic rolls back. Only an error is returned. */
    method TransactionForContainer(sets: seq<CurrentInsert>, hists: seq<HistoryInsert>, fate: Fate) returns (err: bool)
      modifies this`current, this`history
      ensures err <==> ReturnsError(fate, |sets| + |hists|)
      ensures if Applied(fate, |sets| + |hists|)
              then current == SavedCurrent(old(current), sets) && history == SavedHistory(old(history), hists)
              else current == old(current) && history == old(history)
    {
      if fate.BeginFails? {
        return true;
      }
      var current0, history0 := current, history;
      for i := 0 to |sets|
        invariant current == SavedCurrent(current0, sets[..i]) && history == history0
        invariant fate.StatementFails? || fate.Panics? ==> fate.at >= i
      {
        if (fate.StatementFails? || fate.Panics?) && fate.at == i {
          current := current0;
          return fate.StatementFails?;
        }
        CreateRecommendationSet(sets[i]);
        assert sets[..i + 1][..i] == sets[..i];
      }
      assert sets[..|sets|] == sets;
      for i := 0 to |hists|
        invariant current == SavedCurrent(current0, sets) && history == SavedHistory(history0, hists[..i])
        invariant fate.StatementFails? || fate.Panics? ==> fate.at >= |sets| + i
      {
        if (fate.StatementFails? || fate.Panics?) && fate.at == |sets| + i {
          current, history := current0, history0;
          return fate.StatementFails?;
        }
        CreateHistoricalRecommendationSet(hists[i]);
        assert hists[..i + 1][..i] == hists[..i];
      }
      assert hists[..|hists|] == hists;
      if fate.CommitFails? {
        current, history := current0, history0;
        return true;
      }
      return false;
    }

    method TransactionForNamespace(sets: seq<NamespaceInsert>, hists: seq<NamespaceHistoryInsert>, fate: Fate)
      returns (err: bool)
      modifies this`namespaceCurrent, this`namespaceHistory
      ensures err <==> ReturnsError(fate, |sets| + |hists|)
      ensures if Applied(fate, |sets| + |hists|)
              then && namespaceCurrent == SavedNamespaces(old(namespaceCurrent), sets)
                   && namespaceHistory == SavedNamespaceHistory(old(namespaceHistory), hists)
              else namespaceCurrent == old(namespaceCurrent) && namespaceHistory == old(namespaceHistory)
    {
      if fate.BeginFails? {
        return true;
      }
      var current0, history0 := namespaceCurrent, namespaceHistory;
      for i := 0 to |sets|
        invariant namespaceCurrent == SavedNamespaces(current0, sets[..i]) && namespaceHistory == history0
        invariant fate.StatementFails? || fate.Panics? ==> fate.at >= i
      {
        if (fate.StatementFails? || fate.Panics?) && fate.at == i {
          namespaceCurrent := current0;
          return fate.StatementFails?;
        }
        CreateNamespaceRecommendationSet(sets[i]);
        assert sets[..i + 1][..i] == sets[..i];
      }
      assert sets[..|sets|] == sets;
      for i := 0 to |hists|
        invariant namespaceCurrent == SavedNamespaces(current0, sets)
        invariant namespaceHistory == SavedNamespaceHistory(history0, hists[..i])
        invariant fate.StatementFails? || fate.Panics? ==> fate.at >= |sets| + i
      {
        if (fate.StatementFails? || fate.Panics?) && fate.at == |sets| + i {
          namespaceCurrent, namespaceHistory := current0, history0;
          return fate.StatementFails?;
        }
        CreateHistoricalNamespaceRecommendationSet(hists[i]);
        assert hists[..i + 1][..i] == hists[..i];
      }
      assert hists[..|hists|] == hists;
      if fate.CommitFails? {
        namespaceCurrent, namespaceHistory := current0, history0;
        return true;
      }
      return false;
    }

    /** Appends the rows of one valid container to the two lists. */
    method ListEntries(msg: Message, c: Named, now: Instant, sets0: seq<CurrentInsert>, hists0: seq<HistoryInsert>,
                       ghost ws0: seq<Write>)
      returns (sets: seq<CurrentInsert>, hists: seq<HistoryInsert>, ghost ws: seq<Write>)
      requires sets0 == CurrentInserts(msg, ws0, now) && hists0 == HistoryInserts(msg, ws0)
      ensures ws == ws0 + EntryWrites(c.name, c.recommendation.data)
      ensures sets == CurrentInserts(msg, ws, now) && hists == HistoryInserts(msg, ws)
    {
      sets, hists, ws := sets0, hists0, ws0;
      var data := c.recommendation.data;
      for j := 0 to |data|
        invariant ws == ws0 + EntryWrites(c.name, data[..j])
        invariant sets == CurrentInserts(msg, ws, now) && hists == HistoryInserts(msg, ws)
      {
        assert data[..j + 1][..j] == data[..j];
        if data[j].marshals {
          var w := Write(c.name, data[j].data);
          var row := FillRow(w, now);
          sets := sets + [CurrentInsert(ContainerKey(msg.workload, c.name), row)];
          hists := hists + [HistoryInsertOf(msg, w)];
          ws := ws + [w];
        }
      }
      assert data[..|data|] == data;
    }

    /** The rows of a container reply, in the two parallel lists, and whether a container was invalid. */
    method ListContainers(msg: Message, containers: seq<Named>, now: Instant)
      returns (sets: seq<CurrentInsert>, hists: seq<HistoryInsert>, invalid: bool)
      ensures var ws := WritesOf(containers, msg.maxEndTime);
              sets == CurrentInserts(msg, ws, now) && hists == HistoryInserts(msg, ws)
      ensures invalid <==> SomeInvalid(containers, msg.maxEndTime)
    {
      sets, hists, invalid := [], [], false;
      ghost var ws: seq<Write> := [];
      for i := 0 to |containers|
        invariant ws == WritesOf(containers[..i], msg.maxEndTime)
        invariant sets == CurrentInserts(msg, ws, now) && hists == HistoryInserts(msg, ws)
        invariant invalid <==> SomeInvalid(containers[..i], msg.maxEndTime)
      {
        var c := containers[i];
        assert containers[..i + 1][..i] == containers[..i];
        if IsValidRecommendation(c.recommendation, msg.maxEndTime) {
          sets, hists, ws := ListEntries(msg, c, now, sets, hists, ws);
        } else {
          invalid := true;
        }
      }
      assert containers[..|containers|] == containers;
    }

    method ListNamespace(msg: Message, reply: Named, now: Instant)
      returns (sets: seq<NamespaceInsert>, hists: seq<NamespaceHistoryInsert>, invalid: bool)
      ensures var ws := WritesOf([reply], msg.maxEndTime);
              sets == NamespaceInserts(msg, ws, now) && hists == NamespaceHistoryInserts(msg, ws)
      ensures invalid <==> SomeInvalid([reply], msg.maxEndTime)
    {
      sets, hists, invalid := [], [], false;
      assert WritesOf([reply], msg.maxEndTime) ==
             if IsValidRecommendation(reply.recommendation, msg.maxEndTime)
             then EntryWrites(reply.name, reply.recommendation.data) else [];
      if IsValidRecommendation(reply.recommendation, msg.maxEndTime) {
        ghost var ws: seq<Write> := [];
        var data := reply.recommendation.data;
        for j := 0 to |data|
          invariant ws == EntryWrites(reply.name, data[..j])
          invariant sets == NamespaceInserts(msg, ws, now) && hists == NamespaceHistoryInserts(msg, ws)
        {
          assert data[..j + 1][..j] == data[..j];
          if data[j].marshals {
            var w := Write(reply.name, data[j].data);
            var row := FillRow(w, now);
            sets := sets + [NamespaceInsert(msg.workload, NamespaceRow(msg.orgId, reply.name, row))];
            hists := hists + [NamespaceHistoryInsertOf(msg, w)];
            ws := ws + [w];
          }
        }
        assert data[..|data|] == data;
      } else {
        assert [reply][0] == reply;
        invalid := true;
      }
    }

    /** Fetches, checks and saves; the result says whether the poll cycle is complete. */
    method RequestAndSaveRecommendation(msg: Message, env: Env) returns (complete: bool)
      requires Supported(cfg, msg.experimentType)
      modifies this`current, this`history, this`namespaceCurrent, this`namespaceHistory
      ensures complete <==> Completes(msg, env)
      ensures var ws := Writes(msg, env);
              State() == if ws != [] && Applied(env.fate, 2 * |ws|) then Saved(old(State()), msg, ws, env.now)
                         else old(State())
    {
      complete := false;
      if msg.experimentType.ContainerType? {
        if env.containers.FetchFailed? || env.containers.NoObjects? || env.containers.NotTheType? {
          return;
        }
        if env.containers.experimentType != ContainerType {
          return;
        }
        var sets, hists, invalid := ListContainers(msg, env.containers.content, env.now);
        complete := invalid;
        if |sets| > 0 {
          var err := TransactionForContainer(sets, hists, env.fate);
          complete := !err;
        }
      } else {
        if env.namespace.FetchFailed? || env.namespace.NoObjects? || env.namespace.NotTheType? {
          return;
        }
        if env.namespace.experimentType != NamespaceType {
          return;
        }
        var sets, hists, invalid := ListNamespace(msg, env.namespace.content, env.now);
        complete := invalid;
        if |sets| > 0 {
          var err := TransactionForNamespace(sets, hists, env.fate);
          complete := !err;
        }
      }
    }

    method PollForRecommendations(d: Delivery, env: Env) returns (committed: bool)
      requires d.Decoded? ==> ValidPick(State(), d.msg, env.pick)
      modifies this`current, this`history, this`namespaceCurrent, this`namespaceHistory
      ensures committed <==> Committed(cfg, old(State()), d, env)
      ensures State() == After(cfg, old(State()), d, env)
    {
      if d.Malformed? {
        return true;
      }
      var msg := d.msg;
      var found: Option<Instant>;
      if msg.experimentType.ContainerType? {
        if !env.lookupOk {
          return false;
        }
        var key := ContainerKey(msg.workload, env.pick);
        found := if key in current then Some(current[key].end) else None;
      } else if msg.experimentType.NamespaceType? && !cfg.namespaceDisabled {
        if !env.lookupOk {
          return false;
        }
        found := if msg.workload in namespaceCurrent then Some(namespaceCurrent[msg.workload].values.end) else None;
      } else {
        return true;
      }
      var workloadExists := env.existsQueryOk && msg.workload in workloads;
      if !workloadExists {
        return true;
      }
      match found {
        case None =>
          committed := RequestAndSaveRecommendation(msg, env);
        case Some(last) =>
          if last == ZERO_TIME {
            return true;
          }
          if WholeHours(Sub(msg.maxEndTime, last)) >= cfg.interval || NeedRecommOnFirstOfMonth(last, msg.maxEndTime) {
            committed := RequestAndSaveRecommendation(msg, env);
          } else {
            committed := true;
          }
      }
    }
  }
}
