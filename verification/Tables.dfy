/** The recommendation tables and the conflict clauses of the statements that write them. */
module Tables {
  import opened Wrappers
  import opened Calendar
  import opened Payload

  /** The columns a current row may have overwritten. */
  datatype RowColumn = MonitoringStartTime | MonitoringEndTime | Recommendations | UpdatedAt | Derived(column: Column)

  /** A row of recommendation_sets apart from its key; `blob` stands for the JSON of that recommendation. */
  datatype SetRow = SetRow(start: Instant, end: Instant, blob: RecommendationData, updatedAt: Instant, derived: Columns)

  datatype NamespaceRow = NamespaceRow(orgId: string, namespaceName: string, values: SetRow)

  datatype ContainerKey = ContainerKey(workload: nat, container: string)

  datatype HistoryKey = HistoryKey(orgId: string, workload: nat, container: string, end: Instant)

  datatype NamespaceHistoryKey = NamespaceHistoryKey(orgId: string, workload: nat, end: Instant)

  datatype HistoryRow = HistoryRow(start: Instant, blob: RecommendationData)

  datatype NamespaceHistoryRow = NamespaceHistoryRow(namespaceName: string, start: Instant, blob: RecommendationData)

  datatype Database = Database(
    workloads: set<nat>,
    current: map<ContainerKey, SetRow>,
    history: map<HistoryKey, HistoryRow>,
    namespaceCurrent: map<nat, NamespaceRow>,
    namespaceHistory: map<NamespaceHistoryKey, NamespaceHistoryRow>)

  /** The DO UPDATE list of both current tables. */
  const CONFLICT_COLUMNS: seq<RowColumn> := [
    MonitoringStartTime,
    MonitoringEndTime,
    Recommendations,
    UpdatedAt,
    Derived(RequestCurrent(Cpu)),
    Derived(RequestCurrent(Memory)),
    Derived(VariationPct(Cpu, ShortTerm, Cost)),
    Derived(VariationPct(Cpu, ShortTerm, Performance)),
    Derived(VariationPct(Cpu, MediumTerm, Cost)),
    Derived(VariationPct(Cpu, MediumTerm, Performance)),
    Derived(VariationPct(Cpu, LongTerm, Cost)),
    Derived(VariationPct(Cpu, LongTerm, Performance)),
    Derived(VariationPct(Memory, ShortTerm, Cost)),
    Derived(VariationPct(Memory, ShortTerm, Performance)),
    Derived(VariationPct(Memory, MediumTerm, Cost)),
    Derived(VariationPct(Memory, MediumTerm, Performance)),
    Derived(VariationPct(Memory, LongTerm, Cost)),
    Derived(VariationPct(Memory, LongTerm, Performance))]

  function ValueOf(cols: Columns, c: Column): Option<real> {
    if c in cols then cols[c] else None
  }

  /** `SET col = EXCLUDED.col` for the listed columns; the others keep what they hold. */
  function AssignColumns(existing: SetRow, excluded: SetRow, cols: seq<RowColumn>): SetRow {
    SetRow(
      if MonitoringStartTime in cols then excluded.start else existing.start,
      if MonitoringEndTime in cols then excluded.end else existing.end,
      if Recommendations in cols then excluded.blob else existing.blob,
      if UpdatedAt in cols then excluded.updatedAt else existing.updatedAt,
      map c | c in AllColumns() ::
        if Derived(c) in cols then ValueOf(excluded.derived, c) else ValueOf(existing.derived, c))
  }

  lemma EveryColumnListed(c: RowColumn)
    ensures c in CONFLICT_COLUMNS
  {
    var i :=
      match c
      case MonitoringStartTime => 0
      case MonitoringEndTime => 1
      case Recommendations => 2
      case UpdatedAt => 3
      case Derived(RequestCurrent(r)) => if r == Cpu then 4 else 5
      case Derived(VariationPct(r, t, e)) =>
        (if r == Cpu then 6 else 12) + (match t case ShortTerm => 0 case MediumTerm => 2 case LongTerm => 4)
        + (if e == Cost then 0 else 1);
    assert CONFLICT_COLUMNS[i] == c;
  }

  lemma AssigningAll(existing: SetRow, excluded: SetRow, cols: seq<RowColumn>)
    requires excluded.derived.Keys == AllColumns()
    requires forall c: RowColumn :: c in cols
    ensures AssignColumns(existing, excluded, cols) == excluded
  {
  }

  /** The list names every column that comes with a recommendation: no column of the old row is left. */
  lemma ConflictLeavesNothingStale(existing: SetRow, excluded: SetRow)
    requires excluded.derived.Keys == AllColumns()
    ensures AssignColumns(existing, excluded, CONFLICT_COLUMNS) == excluded
  {
    forall c: RowColumn ensures c in CONFLICT_COLUMNS {
      EveryColumnListed(c);
    }
    AssigningAll(existing, excluded, CONFLICT_COLUMNS);
  }

  /** Insert, or on a conflict on (workload_id, container_name) assign the listed columns. */
  function Upsert(table: map<ContainerKey, SetRow>, key: ContainerKey, row: SetRow): map<ContainerKey, SetRow> {
    table[key := if key in table then AssignColumns(table[key], row, CONFLICT_COLUMNS) else row]
  }

  /** Insert, or on a conflict on (workload_id) assign the listed columns; the organisation and the
      namespace name stay those of the first insert. */
  function UpsertNamespace(table: map<nat, NamespaceRow>, workload: nat, row: NamespaceRow): map<nat, NamespaceRow> {
    table[workload :=
      if workload in table then table[workload].(values := AssignColumns(table[workload].values, row.values, CONFLICT_COLUMNS))
      else row]
  }

  lemma UpsertReplaces(table: map<ContainerKey, SetRow>, key: ContainerKey, row: SetRow)
    requires row.derived.Keys == AllColumns()
    ensures Upsert(table, key, row) == table[key := row]
  {
    if key in table {
      ConflictLeavesNothingStale(table[key], row);
    }
  }

  lemma UpsertNamespaceReplaces(table: map<nat, NamespaceRow>, workload: nat, row: NamespaceRow)
    requires row.values.derived.Keys == AllColumns()
    ensures UpsertNamespace(table, workload, row) ==
              table[workload := if workload in table then table[workload].(values := row.values) else row]
  {
    if workload in table {
      ConflictLeavesNothingStale(table[workload].values, row.values);
    }
  }

  /** On a conflict the history row is overwritten. */
  function UpsertHistory(table: map<HistoryKey, HistoryRow>, key: HistoryKey, row: HistoryRow): map<HistoryKey, HistoryRow> {
    table[key := row]
  }

  /** On a conflict nothing is done. */
  function InsertNamespaceHistory(table: map<NamespaceHistoryKey, NamespaceHistoryRow>, key: NamespaceHistoryKey,
                                  row: NamespaceHistoryRow): map<NamespaceHistoryKey, NamespaceHistoryRow> {
    if key in table then table else table[key := row]
  }
}
