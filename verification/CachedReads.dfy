/** The stored percentages read back: in every state the poller can reach, what the API serves from the
    columns against what it would compute from the stored recommendation. */
module CachedReads {
  import opened Wrappers
  import opened Calendar
  import opened Conversion
  import opened Payload
  import opened RecommendationJson
  import opened JsonTree
  import opened VariationCache
  import opened UnitAgreement
  import opened Tables
  import opened Poller
  import opened PollerRuns

  /** The response for a current row. */
  function Serve(forList: bool, u: Units, text: Instant -> string, row: SetRow): Response {
    UpdateRecommendationJSON(forList, u, Marshal(text, row.blob), Some(row.derived))
  }

  /** The response recomputed from the recommendation alone. */
  function Recompute(forList: bool, u: Units, text: Instant -> string, row: SetRow): Response {
    UpdateRecommendationJSON(forList, u, Marshal(text, row.blob), None)
  }

  lemma CoherentRowServes(forList: bool, u: Units, text: Instant -> string, row: SetRow)
    requires CoherentRow(row)
    ensures Serve(forList, u, text, row) == Recompute(forList, u, text, row) <==>
              row.derived == NoValues() || AllReproduced(u, row.blob)
  {
    StoredResponseIsRecomputedIff(forList, text, u, row.blob);
    if row.derived == NoValues() {
      assert !HasValues(row.derived);
    }
  }

  ghost predicate IsCurrentRow(db: Database, row: SetRow) {
    || (exists k :: k in db.current && db.current[k] == row)
    || (exists w :: w in db.namespaceCurrent && db.namespaceCurrent[w].values == row)
  }

  /** In every state of every run that starts from legacy or coherent rows, and for every current row of
      either table: the response, in whatever units, is the recomputed one exactly when the row is a legacy
      one or every percentage of its recommendation is reproduced in those units. */
  lemma ServedFromCacheIff(cfg: PollConfig, states: seq<System>, steps: seq<Step>, i: nat,
                           forList: bool, u: Units, text: Instant -> string, row: SetRow)
    requires IsRun(cfg, states, steps) && i < |states| && Coherent(states[0].db) && IsCurrentRow(states[i].db, row)
    ensures Serve(forList, u, text, row) == Recompute(forList, u, text, row) <==>
              row.derived == NoValues() || AllReproduced(u, row.blob)
  {
    DerivedColumnsCoherent(cfg, states, steps, i);
    CoherentRowServes(forList, u, text, row);
  }

  /** In every such state, and in all units: if the current request and the percentage are inside their columns,
      a variation that is not zero is served at most the shares of the two units away from the recomputed one,
      and as zero where the request is too small to be shown. */
  lemma ServedWithin(cfg: PollConfig, states: seq<System>, steps: seq<Step>, i: nat, forList: bool, u: Units,
                     text: Instant -> string, row: SetRow, t: TermName, e: EngineName, r: Resource)
    requires IsRun(cfg, states, steps) && i < |states| && Coherent(states[0].db) && IsCurrentRow(states[i].db, row)
    requires row.derived != NoValues() && Comparable(u, row.blob, t, e, r)
    ensures ServedClose(RequestShown(Serve(forList, u, text, row), t, e, r),
                        RequestShown(Recompute(forList, u, text, row), t, e, r), u, row.blob, t, e, r)
  {
    DerivedColumnsCoherent(cfg, states, steps, i);
    ResponsesClose(forList, u, text, row.blob, t, e, r);
  }
}
