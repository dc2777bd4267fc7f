/** Properties of one delivery, and of every run in which messages are delivered any number of times while
    workloads come and go and history partitions are dropped. */
module PollerRuns {
  import opened Wrappers
  import opened Calendar
  import opened Payload
  import opened Tables
  import opened Gate
  import opened Poller

  // ----- One delivery

  /** A delivery that leaves its offset uncommitted leaves every table as it was. */
  lemma UncommittedChangesNothing(cfg: PollConfig, db: Database, d: Delivery, env: Env)
    requires !Committed(cfg, db, d, env)
    ensures After(cfg, db, d, env) == db
  {
  }

  /** Why an offset is committed: nothing could or should be requested, or the request was answered with
      an invalid recommendation and nothing to save, or all its rows were written, or the transaction panicked. */
  lemma CommittedIff(cfg: PollConfig, db: Database, d: Delivery, env: Env)
    ensures Committed(cfg, db, d, env) <==>
              || d.Malformed?
              || !Supported(cfg, d.msg.experimentType)
              || (env.lookupOk && !env.existsQueryOk)
              || (env.lookupOk && d.msg.workload !in db.workloads)
              || (env.lookupOk && FoundEnd(db, d.msg, env.pick) == Some(ZERO_TIME))
              || (env.lookupOk && FoundEnd(db, d.msg, env.pick).Some?
                  && !Due(cfg.interval, FoundEnd(db, d.msg, env.pick).value, d.msg.maxEndTime))
              || Saves(cfg, db, d, env)
              || (Requests(cfg, db, d, env) && Writes(d.msg, env) == []
                  && SomeInvalid(ObjectsOf(d.msg, env), d.msg.maxEndTime))
              || (Requests(cfg, db, d, env) && Writes(d.msg, env) != []
                  && env.fate.Panics? && env.fate.at < 2 * |Writes(d.msg, env)|)
  {
  }

  /** Rows that were to be written are lost with the message exactly when the transaction panics. */
  lemma LostIffPanic(cfg: PollConfig, db: Database, d: Delivery, env: Env)
    requires Requests(cfg, db, d, env) && Writes(d.msg, env) != []
    ensures Committed(cfg, db, d, env) && !Saves(cfg, db, d, env) <==>
              env.fate.Panics? && env.fate.at < 2 * |Writes(d.msg, env)|
  {
  }

  /** The end time of the row that is looked at: the namespace's, or that of the container found first. */
  function StoredFor(db: Database, msg: Message, first: string): Option<Instant> {
    match msg.experimentType
    case NamespaceType =>
      if msg.workload in db.namespaceCurrent then Some(db.namespaceCurrent[msg.workload].values.end) else None
    case _ =>
      var key := ContainerKey(msg.workload, first);
      if key in db.current then Some(db.current[key].end) else None
  }

  /** Exactly when a recommendation is requested: the message can be read and its type is handled, row and
      workload can be looked up and the workload is there, and either there is no row yet, or its end time is
      set and the interval has passed since, or the message is of the first of a month and the row of an
      earlier day. */
  lemma RequestsIff(cfg: PollConfig, db: Database, d: Delivery, env: Env)
    requires cfg.interval >= 1
    ensures Requests(cfg, db, d, env) <==>
              && d.Decoded?
              && (d.msg.experimentType == ContainerType || (d.msg.experimentType == NamespaceType && !cfg.namespaceDisabled))
              && env.lookupOk && env.existsQueryOk && d.msg.workload in db.workloads
              && match StoredFor(db, d.msg, env.pick)
                 case None => true
                 case Some(end) =>
                   var t := d.msg.maxEndTime;
                   && end != Midnight(CivilDate(1, 1, 1))
                   && (|| (t - end >= cfg.interval * 3_600_000_000_000
                           && cfg.interval * 3_600_000_000_000 < 0x8000_0000_0000_0000)
                       || (DateOf(t).day == 1 && DayOf(end) < DayOf(t)))
  {
    ZeroTimeIs();
    if d.Decoded? {
      var found := FoundEnd(db, d.msg, env.pick);
      if found.Some? {
        DueIff(cfg.interval, found.value, d.msg.maxEndTime);
      }
    }
  }

  // ----- What is read out of a reply

  /** A recommendation is valid when it has code 111000 and an entry under the time that was asked for, to the
      millisecond. */
  lemma ValidIff(r: Recommendation, t: Instant)
    ensures IsValidRecommendation(r, t) <==>
              && "111000" in r.notifications
              && exists i :: 0 <= i < |r.data| && r.data[i].key * 1_000_000 <= t < (r.data[i].key + 1) * 1_000_000
  {
    forall k: int ensures k == TimeKey(t) <==> k * 1_000_000 <= t < (k + 1) * 1_000_000 {
      MillisecondOf(t, k);
    }
  }

  lemma MillisecondOf(t: Instant, k: int)
    ensures k == TimeKey(t) <==> k * 1_000_000 <= t < (k + 1) * 1_000_000
  {
    assert t == (t / 1_000_000) * 1_000_000 + t % 1_000_000;
    if k * 1_000_000 <= t < (k + 1) * 1_000_000 {
      DivisionUnique(t, 1_000_000, k, t - k * 1_000_000);
    }
  }

  /** Some recommendation is invalid when one has not the code or no entry under the time. */
  lemma SomeInvalidIff(objects: seq<Named>, t: Instant)
    ensures SomeInvalid(objects, t) <==> exists o :: o in objects && !IsValidRecommendation(o.recommendation, t)
  {
    if i :| 0 <= i < |objects| && !IsValidRecommendation(objects[i].recommendation, t) {
      assert objects[i] in objects;
    }
  }

  /** What a reply is read as: the containers, or the one namespace, of an answer of the message's own type. */
  lemma ObjectsAre(msg: Message, env: Env, o: Named)
    ensures o in ObjectsOf(msg, env) <==>
              || (msg.experimentType == ContainerType && env.containers.Answer?
                  && env.containers.experimentType == ContainerType && o in env.containers.content)
              || (msg.experimentType == NamespaceType && env.namespace.Answer?
                  && env.namespace.experimentType == NamespaceType && o == env.namespace.content)
    ensures msg.experimentType == ContainerType && env.containers.Answer? && env.containers.experimentType == ContainerType ==>
              ObjectsOf(msg, env) == env.containers.content
  {
  }

  /** Recommendations are saved in the order of the reply, object by object. */
  lemma {:induction false} WritesConcat(a: seq<Named>, b: seq<Named>, t: Instant)
    ensures WritesOf(a + b, t) == WritesOf(a, t) + WritesOf(b, t)
    decreases |b|
  {
    if b == [] {
      assert a + b == a;
    } else {
      var n := |b| - 1;
      assert (a + b)[..|a + b| - 1] == a + b[..n];
      WritesConcat(a, b[..n], t);
    }
  }

  /** And entry by entry. */
  lemma {:induction false} EntriesConcat(name: string, a: seq<Entry>, b: seq<Entry>)
    ensures EntryWrites(name, a + b) == EntryWrites(name, a) + EntryWrites(name, b)
    decreases |b|
  {
    if b == [] {
      assert a + b == a;
    } else {
      var n := |b| - 1;
      assert (a + b)[..|a + b| - 1] == a + b[..n];
      EntriesConcat(name, a, b[..n]);
    }
  }

  /** A recommendation is to be saved exactly when it is a marshalling entry of a valid object of the reply. */
  lemma {:induction false} WritesExactly(objects: seq<Named>, maxEndTime: Instant, w: Write)
    ensures w in WritesOf(objects, maxEndTime) <==>
              exists i, j :: && 0 <= i < |objects| && 0 <= j < |objects[i].recommendation.data|
                             && IsValidRecommendation(objects[i].recommendation, maxEndTime)
                             && FromEntry(w, objects[i], objects[i].recommendation.data[j])
  {
    if objects != [] {
      var n := |objects| - 1;
      WritesExactly(objects[..n], maxEndTime, w);
      EntriesExactly(objects[n], objects[n].recommendation.data, w);
      if i, j :| && 0 <= i < n && 0 <= j < |objects[i].recommendation.data|
                 && IsValidRecommendation(objects[i].recommendation, maxEndTime)
                 && FromEntry(w, objects[i], objects[i].recommendation.data[j]) {
        assert objects[..n][i] == objects[i];
      }
    }
  }

  predicate FromEntry(w: Write, o: Named, e: Entry) {
    e.marshals && w == Write(o.name, e.data)
  }

  lemma {:induction false} EntriesExactly(o: Named, data: seq<Entry>, w: Write)
    ensures w in EntryWrites(o.name, data) <==> exists j :: 0 <= j < |data| && FromEntry(w, o, data[j])
  {
    if data != [] {
      var n := |data| - 1;
      EntriesExactly(o, data[..n], w);
      if j :| 0 <= j < n && FromEntry(w, o, data[j]) {
        assert data[..n][j] == data[j];
      }
    }
  }

  // ----- Saving, one recommendation at a time

  function SaveOne(db: Database, msg: Message, w: Write, now: Instant): Database {
    if msg.experimentType.NamespaceType? then
      var h := NamespaceHistoryInsertOf(msg, w);
      db.(namespaceCurrent := UpsertNamespace(db.namespaceCurrent, msg.workload, NamespaceInsertOf(msg, w, now).row),
          namespaceHistory := InsertNamespaceHistory(db.namespaceHistory, h.key, h.row))
    else
      var c, h := CurrentInsertOf(msg, w, now), HistoryInsertOf(msg, w);
      db.(current := Upsert(db.current, c.key, c.row), history := UpsertHistory(db.history, h.key, h.row))
  }

  /** Writing all current rows and then all history rows comes to writing them pair by pair. */
  lemma SavedPairByPair(db: Database, msg: Message, ws: seq<Write>, now: Instant)
    ensures Saved(db, msg, [], now) == db
    ensures ws != [] ==>
              Saved(db, msg, ws, now) == SaveOne(Saved(db, msg, ws[..|ws| - 1], now), msg, ws[|ws| - 1], now)
  {
    if ws != [] {
      var n := |ws| - 1;
      if msg.experimentType.NamespaceType? {
        assert NamespaceInserts(msg, ws, now)[..n] == NamespaceInserts(msg, ws[..n], now);
        assert NamespaceHistoryInserts(msg, ws)[..n] == NamespaceHistoryInserts(msg, ws[..n]);
      } else {
        assert CurrentInserts(msg, ws, now)[..n] == CurrentInserts(msg, ws[..n], now);
        assert HistoryInserts(msg, ws)[..n] == HistoryInserts(msg, ws[..n]);
      }
    }
  }

  /** After a pair is written, the current row is the new one, whole. */
  lemma SaveOneReplacesRow(db: Database, msg: Message, w: Write, now: Instant)
    ensures var after := SaveOne(db, msg, w, now);
            if msg.experimentType.NamespaceType? then
              && after.current == db.current && after.history == db.history
              && msg.workload in after.namespaceCurrent
              && after.namespaceCurrent[msg.workload].values == RowOf(w, now)
              && forall v :: v in after.namespaceCurrent && v != msg.workload ==>
                   v in db.namespaceCurrent && after.namespaceCurrent[v] == db.namespaceCurrent[v]
            else
              && after.namespaceCurrent == db.namespaceCurrent && after.namespaceHistory == db.namespaceHistory
              && after.current == db.current[ContainerKey(msg.workload, w.name) := RowOf(w, now)]
  {
    if msg.experimentType.NamespaceType? {
      UpsertNamespaceReplaces(db.namespaceCurrent, msg.workload, NamespaceInsertOf(msg, w, now).row);
    } else {
      UpsertReplaces(db.current, ContainerKey(msg.workload, w.name), RowOf(w, now));
    }
  }

  /** What is stored of a container's recommendation: under its workload and name a row with its own times, text
      and values, updated now, and under the message's organisation, workload, name and the recommendation's end
      time a history row. */
  lemma ContainerRowsAre(db: Database, msg: Message, w: Write, now: Instant)
    requires !msg.experimentType.NamespaceType?
    ensures var after := SaveOne(db, msg, w, now);
            && after.current == db.current[ContainerKey(msg.workload, w.name) :=
                 SetRow(w.data.shortTerm.monitoringStartTime, w.data.monitoringEndTime, w.data, now, Stored(Extract(w.data)))]
            && after.history == db.history[HistoryKey(msg.orgId, msg.workload, w.name, w.data.monitoringEndTime) :=
                 HistoryRow(w.data.shortTerm.monitoringStartTime, w.data)]
            && after.namespaceCurrent == db.namespaceCurrent && after.namespaceHistory == db.namespaceHistory
            && after.workloads == db.workloads
  {
    SaveOneReplacesRow(db, msg, w, now);
  }

  /** And of a namespace's: the row keeps the organisation and name of its first insert, and a history row that
      is there already stays as it is. */
  lemma NamespaceRowsAre(db: Database, msg: Message, w: Write, now: Instant)
    requires msg.experimentType.NamespaceType?
    ensures var after := SaveOne(db, msg, w, now);
            var row := SetRow(w.data.shortTerm.monitoringStartTime, w.data.monitoringEndTime, w.data, now,
                              Stored(Extract(w.data)));
            var h := NamespaceHistoryKey(msg.orgId, msg.workload, w.data.monitoringEndTime);
            && after.namespaceCurrent == db.namespaceCurrent[msg.workload :=
                 if msg.workload in db.namespaceCurrent then db.namespaceCurrent[msg.workload].(values := row)
                 else NamespaceRow(msg.orgId, w.name, row)]
            && after.namespaceHistory == (
                 if h in db.namespaceHistory then db.namespaceHistory
                 else db.namespaceHistory[h := NamespaceHistoryRow(w.name, w.data.shortTerm.monitoringStartTime, w.data)])
            && after.current == db.current && after.history == db.history && after.workloads == db.workloads
  {
    UpsertNamespaceReplaces(db.namespaceCurrent, msg.workload, NamespaceInsertOf(msg, w, now).row);
  }

  predicate SameAt<K, V(==)>(a: map<K, V>, b: map<K, V>, k: K) {
    if k in a then k in b && a[k] == b[k] else k !in b
  }

  /** The rows of a workload agree in two databases. */
  ghost predicate SameRows(a: Database, b: Database, w: nat) {
    && (forall k: ContainerKey :: k.workload == w ==> SameAt(a.current, b.current, k))
    && (forall k: HistoryKey :: k.workload == w ==> SameAt(a.history, b.history, k))
    && SameAt(a.namespaceCurrent, b.namespaceCurrent, w)
    && (forall k: NamespaceHistoryKey :: k.workload == w ==> SameAt(a.namespaceHistory, b.namespaceHistory, k))
  }

  lemma {:induction false} SavingIsLocal(db: Database, msg: Message, ws: seq<Write>, now: Instant, w: nat)
    requires w != msg.workload
    ensures SameRows(Saved(db, msg, ws, now), db, w)
    decreases |ws|
  {
    SavedPairByPair(db, msg, ws, now);
    if ws != [] {
      SavingIsLocal(db, msg, ws[..|ws| - 1], now, w);
      SaveOneReplacesRow(Saved(db, msg, ws[..|ws| - 1], now), msg, ws[|ws| - 1], now);
    }
  }

  /** A delivery touches no row of another workload in any table. */
  lemma DeliveryIsLocal(cfg: PollConfig, db: Database, d: Delivery, env: Env, w: nat)
    requires d.Decoded? ==> w != d.msg.workload
    ensures SameRows(After(cfg, db, d, env), db, w)
  {
    if Saves(cfg, db, d, env) {
      SavingIsLocal(db, d.msg, Writes(d.msg, env), env.now, w);
    }
  }

  // ----- The system

  /** The database, the workload ids ever handed out, and the latest cut-off of a history partition drop. */
  datatype System = System(db: Database, issued: set<nat>, floor: Option<Instant>)

  datatype Step =
    | AddWorkload(workload: nat)
    | DeleteWorkload(workload: nat)
    | DropHistory(cutOff: Instant)
    | Deliver(d: Delivery, env: Env)

  /** Ids come from a sequence and are never handed out twice. */
  ghost predicate Enabled(s: System, step: Step) {
    match step
    case AddWorkload(w) => w !in s.issued
    case Deliver(d, env) => d.Decoded? ==> ValidPick(s.db, d.msg, env.pick)
    case _ => true
  }

  /** Deleting a workload cascades to its rows in all four tables. */
  function WithoutWorkload(db: Database, w: nat): Database {
    Database(
      db.workloads - {w},
      map k | k in db.current && k.workload != w :: db.current[k],
      map k | k in db.history && k.workload != w :: db.history[k],
      map k | k in db.namespaceCurrent && k != w :: db.namespaceCurrent[k],
      map k | k in db.namespaceHistory && k.workload != w :: db.namespaceHistory[k])
  }

  function WithoutHistory(db: Database, cutOff: Instant): Database {
    db.(history := map k | k in db.history && k.end >= cutOff :: db.history[k])
  }

  function Apply(cfg: PollConfig, s: System, step: Step): System {
    match step
    case AddWorkload(w) => s.(db := s.db.(workloads := s.db.workloads + {w}), issued := s.issued + {w})
    case DeleteWorkload(w) => s.(db := WithoutWorkload(s.db, w))
    case DropHistory(c) =>
      s.(db := WithoutHistory(s.db, c), floor := if s.floor.None? || s.floor.value < c then Some(c) else s.floor)
    case Deliver(d, env) => s.(db := After(cfg, s.db, d, env))
  }

  ghost predicate IsRun(cfg: PollConfig, states: seq<System>, steps: seq<Step>) {
    && |states| == |steps| + 1
    && forall i {:trigger steps[i]} :: 0 <= i < |steps| ==>
         Enabled(states[i], steps[i]) && states[i + 1] == Apply(cfg, states[i], steps[i])
  }

  lemma RunStep(cfg: PollConfig, states: seq<System>, steps: seq<Step>, i: nat)
    requires IsRun(cfg, states, steps) && i < |steps|
    ensures Enabled(states[i], steps[i]) && states[i + 1] == Apply(cfg, states[i], steps[i])
  {
  }

  // ----- Derived columns are the extraction of the row's own recommendation

  /** A legacy row has no derived values; any other row comes from its recommendation, whole. */
  predicate CoherentRow(row: SetRow) {
    || row.derived == NoValues()
    || (&& row.derived == Stored(Extract(row.blob))
        && row.start == row.blob.shortTerm.monitoringStartTime
        && row.end == row.blob.monitoringEndTime)
  }

  predicate Coherent(db: Database) {
    && (forall k :: k in db.current ==> CoherentRow(db.current[k]))
    && (forall w :: w in db.namespaceCurrent ==> CoherentRow(db.namespaceCurrent[w].values))
  }

  lemma {:induction false} SavingKeepsCoherent(db: Database, msg: Message, ws: seq<Write>, now: Instant)
    requires Coherent(db)
    ensures Coherent(Saved(db, msg, ws, now))
    decreases |ws|
  {
    SavedPairByPair(db, msg, ws, now);
    if ws != [] {
      var before := Saved(db, msg, ws[..|ws| - 1], now);
      SavingKeepsCoherent(db, msg, ws[..|ws| - 1], now);
      SaveOneReplacesRow(before, msg, ws[|ws| - 1], now);
    }
  }

  /** In every run from rows that are legacy or coherent, each current row's 14 derived columns are all
      NULL, or they and its times are exactly those of the recommendation in that same row. */
  lemma {:induction false} DerivedColumnsCoherent(cfg: PollConfig, states: seq<System>, steps: seq<Step>, i: nat)
    requires IsRun(cfg, states, steps) && i < |states| && Coherent(states[0].db)
    ensures Coherent(states[i].db)
  {
    if i > 0 {
      DerivedColumnsCoherent(cfg, states, steps, i - 1);
      var s, step := states[i - 1], steps[i - 1];
      assert states[i - 1 + 1] == Apply(cfg, s, step);
      if step.Deliver? && Saves(cfg, s.db, step.d, step.env) {
        SavingKeepsCoherent(s.db, step.d.msg, Writes(step.d.msg, step.env), step.env.now);
      }
    }
  }

  // ----- Every current container row has its history row

  ghost predicate HasHistory(db: Database, k: ContainerKey) {
    && k in db.current
    && exists org: string ::
         var h := HistoryKey(org, k.workload, k.container, db.current[k].end);
         h in db.history && db.history[h] == HistoryRow(db.current[k].start, db.current[k].blob)
  }

  /** Current rows that end before the last partition cut-off may have lost their history; no other has. */
  ghost predicate HistoryComplete(db: Database, floor: Option<Instant>) {
    forall k :: k in db.current && (floor.None? || db.current[k].end >= floor.value) ==> HasHistory(db, k)
  }

  lemma SaveOneKeepsHistory(db: Database, msg: Message, w: Write, now: Instant, floor: Option<Instant>)
    requires HistoryComplete(db, floor)
    ensures HistoryComplete(SaveOne(db, msg, w, now), floor)
  {
    SaveOneReplacesRow(db, msg, w, now);
    var after := SaveOne(db, msg, w, now);
    forall k | k in after.current && (floor.None? || after.current[k].end >= floor.value)
      ensures HasHistory(after, k)
    {
      if !msg.experimentType.NamespaceType? && k == ContainerKey(msg.workload, w.name) {
        var h := HistoryKey(msg.orgId, k.workload, k.container, after.current[k].end);
        assert h in after.history && after.history[h] == HistoryRow(after.current[k].start, after.current[k].blob);
      } else {
        assert HasHistory(db, k);
        var org: string :| var h := HistoryKey(org, k.workload, k.container, db.current[k].end);
                   h in db.history && db.history[h] == HistoryRow(db.current[k].start, db.current[k].blob);
        var h := HistoryKey(org, k.workload, k.container, after.current[k].end);
        assert h in after.history && after.history[h] == HistoryRow(after.current[k].start, after.current[k].blob);
      }
    }
  }

  lemma {:induction false} SavingKeepsHistory(db: Database, msg: Message, ws: seq<Write>, now: Instant,
                                              floor: Option<Instant>)
    requires HistoryComplete(db, floor)
    ensures HistoryComplete(Saved(db, msg, ws, now), floor)
    decreases |ws|
  {
    SavedPairByPair(db, msg, ws, now);
    if ws != [] {
      SavingKeepsHistory(db, msg, ws[..|ws| - 1], now, floor);
      SaveOneKeepsHistory(Saved(db, msg, ws[..|ws| - 1], now), msg, ws[|ws| - 1], now, floor);
    }
  }

  lemma StepKeepsHistory(cfg: PollConfig, s: System, step: Step)
    requires HistoryComplete(s.db, s.floor)
    ensures var after := Apply(cfg, s, step); HistoryComplete(after.db, after.floor)
  {
    var after := Apply(cfg, s, step);
    if step.Deliver? {
      if Saves(cfg, s.db, step.d, step.env) {
        SavingKeepsHistory(s.db, step.d.msg, Writes(step.d.msg, step.env), step.env.now, s.floor);
      }
    } else {
      forall k | k in after.db.current && (after.floor.None? || after.db.current[k].end >= after.floor.value)
        ensures HasHistory(after.db, k)
      {
        assert HasHistory(s.db, k);
        var org: string :| var h := HistoryKey(org, k.workload, k.container, s.db.current[k].end);
                   h in s.db.history && s.db.history[h] == HistoryRow(s.db.current[k].start, s.db.current[k].blob);
        var h := HistoryKey(org, k.workload, k.container, after.db.current[k].end);
        assert h in after.db.history && after.db.history[h] == HistoryRow(after.db.current[k].start, after.db.current[k].blob);
      }
    }
  }

  /** In every run, with any number of entries per reply in any order, each current container row that ends
      no earlier than the last partition cut-off has a history row for the same workload, container and end
      time with the same start time and recommendation. */
  lemma {:induction false} ContainerHistoryComplete(cfg: PollConfig, states: seq<System>, steps: seq<Step>, i: nat)
    requires IsRun(cfg, states, steps) && i < |states| && HistoryComplete(states[0].db, states[0].floor)
    ensures HistoryComplete(states[i].db, states[i].floor)
  {
    if i > 0 {
      ContainerHistoryComplete(cfg, states, steps, i - 1);
      RunStep(cfg, states, steps, i - 1);
      StepKeepsHistory(cfg, states[i - 1], steps[i - 1]);
    }
  }

  // ----- Namespace history under single-entry replies

  /** The reply has at most one recommendation, with one entry, for the time that was asked for. */
  predicate SingleAnswer(msg: Message, env: Env) {
    && |ObjectsOf(msg, env)| <= 1
    && forall i :: 0 <= i < |ObjectsOf(msg, env)| ==>
         var data := ObjectsOf(msg, env)[i].recommendation.data;
         |data| == 1 && data[0].data.monitoringEndTime == msg.maxEndTime
  }

  predicate SingleEntryStep(step: Step) {
    step.Deliver? && step.d.Decoded? && step.d.msg.experimentType.NamespaceType? ==> SingleAnswer(step.d.msg, step.env)
  }

  lemma SingleWrite(msg: Message, env: Env)
    requires SingleAnswer(msg, env) && Writes(msg, env) != []
    ensures |ObjectsOf(msg, env)| == 1
    ensures |Writes(msg, env)| == 1 && Writes(msg, env)[0].data.monitoringEndTime == msg.maxEndTime
    ensures Writes(msg, env)[0].name == ObjectsOf(msg, env)[0].name
  {
    var objects := ObjectsOf(msg, env);
    assert |objects| == 1 && objects[..0] == [];
    var answer := objects[0];
    var data := answer.recommendation.data;
    assert WritesOf(objects[..0], msg.maxEndTime) == [];
    assert data[..0] == [] && EntryWrites(answer.name, data[..0]) == [];
    assert Writes(msg, env) == EntryWrites(answer.name, data);
  }

  predicate SameRecommendation(h: NamespaceHistoryRow, row: SetRow) {
    h.start == row.start && h.blob == row.blob
  }

  ghost predicate NamespaceHasHistory(db: Database, w: nat) {
    && w in db.namespaceCurrent
    && exists org: string ::
         var h := NamespaceHistoryKey(org, w, db.namespaceCurrent[w].values.end);
         h in db.namespaceHistory && SameRecommendation(db.namespaceHistory[h], db.namespaceCurrent[w].values)
  }

  /** Each current namespace row has its history row, and no history of a workload is later than its row. */
  ghost predicate NamespaceHistoryComplete(db: Database) {
    && (forall w :: w in db.namespaceCurrent ==> NamespaceHasHistory(db, w))
    && (forall h :: h in db.namespaceHistory ==>
          h.workload in db.namespaceCurrent && h.end <= db.namespaceCurrent[h.workload].values.end)
  }

  lemma KeptNamespaceHistory(before: Database, after: Database, w: nat)
    requires NamespaceHasHistory(before, w)
    requires w in after.namespaceCurrent && after.namespaceCurrent[w] == before.namespaceCurrent[w]
    requires forall h :: h in before.namespaceHistory && h.workload == w ==>
               h in after.namespaceHistory && after.namespaceHistory[h] == before.namespaceHistory[h]
    ensures NamespaceHasHistory(after, w)
  {
  }

  /** A namespace save under a single-entry reply: the stored end time strictly increases, and the history
      insert meets no conflict. */
  lemma NamespaceSaveAdvances(cfg: PollConfig, db: Database, d: Delivery, env: Env)
    requires cfg.interval >= 1 && NamespaceHistoryComplete(db)
    requires Saves(cfg, db, d, env) && d.msg.experimentType.NamespaceType? && SingleAnswer(d.msg, env)
    ensures NamespaceHistoryKey(d.msg.orgId, d.msg.workload, d.msg.maxEndTime) !in db.namespaceHistory
    ensures var after := After(cfg, db, d, env);
            && d.msg.workload in after.namespaceCurrent
            && after.namespaceCurrent[d.msg.workload].values.end == d.msg.maxEndTime
            && (d.msg.workload in db.namespaceCurrent ==>
                  db.namespaceCurrent[d.msg.workload].values.end < d.msg.maxEndTime)
            && after == SaveOne(db, d.msg, Writes(d.msg, env)[0], env.now)
  {
    var msg, ws := d.msg, Writes(d.msg, env);
    SingleWrite(msg, env);
    SavedPairByPair(db, msg, ws, env.now);
    SavedPairByPair(db, msg, [], env.now);
    assert ws[..0] == [];
    SaveOneReplacesRow(db, msg, ws[0], env.now);
    if msg.workload in db.namespaceCurrent {
      DueIsLater(cfg.interval, db.namespaceCurrent[msg.workload].values.end, msg.maxEndTime);
    }
  }

  lemma NamespaceStepKeepsHistory(cfg: PollConfig, s: System, step: Step)
    requires cfg.interval >= 1 && SingleEntryStep(step) && NamespaceHistoryComplete(s.db)
    ensures NamespaceHistoryComplete(Apply(cfg, s, step).db)
  {
    var before, after := s.db, Apply(cfg, s, step).db;
    if step.Deliver? && Saves(cfg, before, step.d, step.env) {
      if step.d.msg.experimentType.NamespaceType? {
        NamespaceSaveAdvances(cfg, before, step.d, step.env);
        SaveKeepsNamespaceHistory(before, step.d.msg, Writes(step.d.msg, step.env)[0], step.env.now);
      }
    } else if step.DeleteWorkload? {
      forall w | w in after.namespaceCurrent ensures NamespaceHasHistory(after, w) {
        KeptNamespaceHistory(before, after, w);
      }
    }
  }

  lemma SaveKeepsNamespaceHistory(before: Database, msg: Message, w: Write, now: Instant)
    requires NamespaceHistoryComplete(before) && msg.experimentType.NamespaceType?
    requires NamespaceHistoryKey(msg.orgId, msg.workload, w.data.monitoringEndTime) !in before.namespaceHistory
    requires msg.workload in before.namespaceCurrent ==>
               before.namespaceCurrent[msg.workload].values.end < w.data.monitoringEndTime
    ensures NamespaceHistoryComplete(SaveOne(before, msg, w, now))
  {
    SaveOneReplacesRow(before, msg, w, now);
    var after := SaveOne(before, msg, w, now);
    forall v | v in after.namespaceCurrent ensures NamespaceHasHistory(after, v) {
      if v == msg.workload {
        var h := NamespaceHistoryKey(msg.orgId, v, after.namespaceCurrent[v].values.end);
        assert h in after.namespaceHistory && SameRecommendation(after.namespaceHistory[h], after.namespaceCurrent[v].values);
      } else {
        KeptNamespaceHistory(before, after, v);
      }
    }
  }

  /** In every run with single-entry namespace replies, each current namespace row has a history row with
      the same times and recommendation, although a conflicting history insert would do nothing. */
  lemma {:induction false} NamespaceHistoryAlwaysComplete(cfg: PollConfig, states: seq<System>, steps: seq<Step>, i: nat)
    requires cfg.interval >= 1 && IsRun(cfg, states, steps) && i < |states|
    requires NamespaceHistoryComplete(states[0].db)
    requires forall j :: 0 <= j < |steps| ==> SingleEntryStep(steps[j])
    ensures NamespaceHistoryComplete(states[i].db)
  {
    if i > 0 {
      NamespaceHistoryAlwaysComplete(cfg, states, steps, i - 1);
      RunStep(cfg, states, steps, i - 1);
      NamespaceStepKeepsHistory(cfg, states[i - 1], steps[i - 1]);
    }
  }

  // ----- Without single-entry replies

  /** The first recommendation to save that ends at `t`, None if there is none. */
  function FirstEndingAt(ws: seq<Write>, t: Instant): Option<RecommendationData> {
    if ws == [] then None
    else
      var earlier := FirstEndingAt(ws[..|ws| - 1], t);
      var last := ws[|ws| - 1];
      if earlier.Some? then earlier
      else if last.data.monitoringEndTime == t then Some(last.data) else None
  }

  /** A history row once there stays; otherwise the first of several with the same end time wins. */
  lemma {:induction false} FirstHistoryWins(db: Database, msg: Message, ws: seq<Write>, now: Instant, t: Instant)
    requires msg.experimentType.NamespaceType?
    ensures var h := NamespaceHistoryKey(msg.orgId, msg.workload, t);
            var after := Saved(db, msg, ws, now).namespaceHistory;
            if h in db.namespaceHistory then h in after && after[h] == db.namespaceHistory[h]
            else
              && (h in after <==> FirstEndingAt(ws, t).Some?)
              && (h in after ==> after[h].blob == FirstEndingAt(ws, t).value)
    decreases |ws|
  {
    SavedPairByPair(db, msg, ws, now);
    if ws != [] {
      FirstHistoryWins(db, msg, ws[..|ws| - 1], now, t);
    }
  }

  lemma LastCurrentWins(db: Database, msg: Message, ws: seq<Write>, now: Instant)
    requires msg.experimentType.NamespaceType? && ws != []
    ensures var after := Saved(db, msg, ws, now);
            msg.workload in after.namespaceCurrent
            && after.namespaceCurrent[msg.workload].values == RowOf(ws[|ws| - 1], now)
  {
    SavedPairByPair(db, msg, ws, now);
    SaveOneReplacesRow(Saved(db, msg, ws[..|ws| - 1], now), msg, ws[|ws| - 1], now);
  }

  /** With any reply, a namespace save leaves the message's organisation a history row that matches the
      current one exactly when the row already there, or else the first entry with the last entry's end
      time, holds the last entry's recommendation. */
  lemma NamespaceHistoryMatchesIff(db: Database, msg: Message, ws: seq<Write>, now: Instant)
    requires msg.experimentType.NamespaceType? && ws != []
    ensures var after := Saved(db, msg, ws, now);
            var row := after.namespaceCurrent[msg.workload].values;
            var h := NamespaceHistoryKey(msg.orgId, msg.workload, row.end);
            var last := ws[|ws| - 1].data;
            && msg.workload in after.namespaceCurrent && row.end == last.monitoringEndTime
            && (h in after.namespaceHistory && after.namespaceHistory[h].blob == row.blob
                <==> if h in db.namespaceHistory then db.namespaceHistory[h].blob == last
                     else FirstEndingAt(ws, last.monitoringEndTime) == Some(last))
  {
    var last := ws[|ws| - 1].data;
    LastCurrentWins(db, msg, ws, now);
    FirstHistoryWins(db, msg, ws, now, last.monitoringEndTime);
    LastIsFound(ws);
  }

  lemma LastIsFound(ws: seq<Write>)
    requires ws != []
    ensures FirstEndingAt(ws, ws[|ws| - 1].data.monitoringEndTime).Some?
  {
  }

  /** Two entries with one end time and different recommendations leave a current row without its history. */
  lemma TwoEntriesLoseHistory(db: Database, msg: Message, a: Write, b: Write, now: Instant)
    requires msg.experimentType.NamespaceType?
    requires a.data != b.data && a.data.monitoringEndTime == b.data.monitoringEndTime
    requires forall h :: h in db.namespaceHistory ==> h.workload != msg.workload
    ensures !NamespaceHasHistory(Saved(db, msg, [a, b], now), msg.workload)
  {
    var ws, t := [a, b], b.data.monitoringEndTime;
    LastCurrentWins(db, msg, ws, now);
    FirstHistoryWins(db, msg, ws, now, t);
    assert ws[..1] == [a] && [a][..0] == [];
    assert FirstEndingAt([a], t) == Some(a.data);
    SavedPairByPair(db, msg, ws, now);
    SavedPairByPair(db, msg, [a], now);
    SavedPairByPair(db, msg, [], now);
    assert forall h :: h in Saved(db, msg, ws, now).namespaceHistory && h.workload == msg.workload ==> h.orgId == msg.orgId;
  }

  /** A reply for the time that was asked for, with a second entry of the same end time under another key. */
  function TwoEntryReply(t: Instant, a: RecommendationData, b: RecommendationData): Env {
    var entries := [Entry(TimeKey(t), true, a.(monitoringEndTime := t)), Entry(TimeKey(t) + 1, true, b.(monitoringEndTime := t))];
    Env(true, "", true, FetchFailed, Answer(NamespaceType, Named("ns", Recommendation({VALID_RECOMMENDATION_CODE}, entries))),
        Commits, t)
  }

  lemma TwoEntriesWritten(t: Instant, a: RecommendationData, b: RecommendationData)
    ensures Writes(Message("org", 1, t, NamespaceType), TwoEntryReply(t, a, b)) ==
              [Write("ns", a.(monitoringEndTime := t)), Write("ns", b.(monitoringEndTime := t))]
  {
    var objects := ObjectsOf(Message("org", 1, t, NamespaceType), TwoEntryReply(t, a, b));
    var data := objects[0].recommendation.data;
    assert data[0].key == TimeKey(t);
    assert objects[..0] == [] && WritesOf(objects[..0], t) == [];
    assert data[..1] == [data[0]] && data[..1][..0] == [] && EntryWrites("ns", []) == [];
    assert EntryWrites("ns", data[..1]) == [Write("ns", data[0].data)];
  }

  /** It happens in one delivery: the reply is valid, both entries are saved, and the row has no history. */
  lemma TwoEntriesDelivered(t: Instant, a: RecommendationData, b: RecommendationData)
    requires a.(monitoringEndTime := t) != b.(monitoringEndTime := t)
    ensures var cfg, db := PollConfig(24, false), Database({1}, map[], map[], map[], map[]);
            var d, env := Decoded(Message("org", 1, t, NamespaceType)), TwoEntryReply(t, a, b);
            && Saves(cfg, db, d, env) && Committed(cfg, db, d, env)
            && !NamespaceHasHistory(After(cfg, db, d, env), 1)
  {
    var db, msg := Database({1}, map[], map[], map[], map[]), Message("org", 1, t, NamespaceType);
    TwoEntriesWritten(t, a, b);
    TwoEntriesLoseHistory(db, msg, Write("ns", a.(monitoringEndTime := t)), Write("ns", b.(monitoringEndTime := t)), t);
  }
}
