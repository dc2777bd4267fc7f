/** Query filters of the list endpoints: parameter values become SQL clauses in a map, all of which a row
    must satisfy. */
module Filters {
  import opened Wrappers

  datatype Mode = Include | Exact | Exclude

  datatype Operator = ILike | Equal | NotEqual

  datatype Join = Or | And

  datatype Column = ClusterUuid | ClusterAlias | Named(name: string)

  /** The cluster parameter filters on two columns, any other on its own. */
  datatype Param = Cluster | Other(column: string)

  datatype Atom = Atom(column: Column, op: Operator)

  /** `column op ? JOIN column op ? ...`. The operators settle the join, so equal texts are equal clauses. */
  datatype Clause = Clause(atoms: seq<Atom>, join: Join)

  /** Clause to arguments, as the map of query parameters holds them. */
  type ClauseMap = map<Clause, seq<string>>

  /** The text of every column of a joined row. */
  type Row = Column -> string

  /** What the model takes from its libraries: ILIKE matching and UUID parsing. */
  datatype Library = Library(ilike: (string, string) -> bool, isUuid: string -> bool)

  // ----- Meaning of clauses

  predicate Holds(lib: Library, row: Row, a: Atom, arg: string) {
    match a.op
    case ILike => lib.ilike(row(a.column), arg)
    case Equal => row(a.column) == arg
    case NotEqual => row(a.column) != arg
  }

  predicate Admits(lib: Library, row: Row, c: Clause, args: seq<string>) {
    && |c.atoms| == |args|
    && match c.join
       case Or => exists i :: 0 <= i < |args| && Holds(lib, row, c.atoms[i], args[i])
       case And => forall i :: 0 <= i < |args| ==> Holds(lib, row, c.atoms[i], args[i])
  }

  /** The conjunction of all clauses; it does not depend on an order. */
  predicate Satisfies(lib: Library, row: Row, m: ClauseMap) {
    forall c :: c in m ==> Admits(lib, row, c, m[c])
  }

  // ----- Clauses of one mode

  function OperatorOf(mode: Mode): Operator {
    match mode case Include => ILike case Exact => Equal case Exclude => NotEqual
  }

  function JoinOf(mode: Mode): Join {
    match mode case Include => Or case Exact => Or case Exclude => And
  }

  /** A cluster value that is a UUID is compared with the UUID column, exactly even when included. */
  function AtomOf(lib: Library, param: Param, mode: Mode, v: string): Atom {
    match param
    case Other(column) => Atom(Named(column), OperatorOf(mode))
    case Cluster =>
      if lib.isUuid(v) then Atom(ClusterUuid, if mode == Include then Equal else OperatorOf(mode))
      else Atom(ClusterAlias, OperatorOf(mode))
  }

  function ArgOf(lib: Library, param: Param, mode: Mode, v: string): string {
    if mode == Include && !(param == Cluster && lib.isUuid(v)) then "%" + v + "%" else v
  }

  function NonEmpty(vals: seq<string>): seq<string> {
    if vals == [] then []
    else
      var last := vals[|vals| - 1];
      NonEmpty(vals[..|vals| - 1]) + (if last == "" then [] else [last])
  }

  function AtomsOf(lib: Library, param: Param, mode: Mode, vals: seq<string>): seq<Atom> {
    seq(|vals|, i requires 0 <= i < |vals| => AtomOf(lib, param, mode, vals[i]))
  }

  function ArgsOf(lib: Library, param: Param, mode: Mode, vals: seq<string>): seq<string> {
    seq(|vals|, i requires 0 <= i < |vals| => ArgOf(lib, param, mode, vals[i]))
  }

  /** The clause map of one mode: empty, or one clause with a placeholder for each argument. */
  function ModeMap(lib: Library, param: Param, mode: Mode, vals: seq<string>): ClauseMap {
    var vs := NonEmpty(vals);
    if vs == [] then map[]
    else map[Clause(AtomsOf(lib, param, mode, vs), JoinOf(mode)) := ArgsOf(lib, param, mode, vs)]
  }

  method BuildModeClause(lib: Library, param: Param, mode: Mode, vals: seq<string>) returns (m: ClauseMap)
    ensures m == ModeMap(lib, param, mode, vals)
    ensures forall c :: c in m ==> |c.atoms| == |m[c]| > 0
  {
    var atoms: seq<Atom>, args: seq<string> := [], [];
    for i := 0 to |vals|
      invariant atoms == AtomsOf(lib, param, mode, NonEmpty(vals[..i]))
      invariant args == ArgsOf(lib, param, mode, NonEmpty(vals[..i]))
    {
      assert vals[..i + 1][..i] == vals[..i];
      if vals[i] != "" {
        atoms := atoms + [AtomOf(lib, param, mode, vals[i])];
        args := args + [ArgOf(lib, param, mode, vals[i])];
      }
    }
    assert vals[..|vals|] == vals;
    m := if atoms == [] then map[] else map[Clause(atoms, JoinOf(mode)) := args];
  }

  // ----- What the parameters ask for

  /** The row has the value: in the parameter's column, for a cluster in its UUID if the value is one and in
      its alias otherwise. */
  predicate Equals(lib: Library, param: Param, row: Row, v: string) {
    match param
    case Other(column) => row(Named(column)) == v
    case Cluster => if lib.isUuid(v) then row(ClusterUuid) == v else row(ClusterAlias) == v
  }

  /** The row has the included value as a substring pattern, but a cluster UUID as it is. */
  predicate Matches(lib: Library, param: Param, row: Row, v: string) {
    match param
    case Other(column) => lib.ilike(row(Named(column)), "%" + v + "%")
    case Cluster => if lib.isUuid(v) then row(ClusterUuid) == v else lib.ilike(row(ClusterAlias), "%" + v + "%")
  }

  /** An exact value takes priority over the same value included. */
  function Remaining(includes: seq<string>, exacts: seq<string>): seq<string> {
    if includes == [] then []
    else
      var last := includes[|includes| - 1];
      Remaining(includes[..|includes| - 1], exacts) + (if last in exacts then [] else [last])
  }

  predicate IsRemaining(includes: seq<string>, exacts: seq<string>, v: string) {
    v in includes && v != "" && v !in exacts
  }

  /** The row differs from all excluded values, equals some exact value if there are any, and matches some
      included value that is not also exact if any remain. Empty values do not count. */
  ghost predicate Wanted(lib: Library, param: Param, includes: seq<string>, exacts: seq<string>, excludes: seq<string>, row: Row) {
    && (forall v :: v in excludes && v != "" ==> !Equals(lib, param, row, v))
    && ((exists v :: v in exacts && v != "") ==> exists v :: v in exacts && v != "" && Equals(lib, param, row, v))
    && ((exists v :: IsRemaining(includes, exacts, v)) ==>
          exists v :: IsRemaining(includes, exacts, v) && Matches(lib, param, row, v))
  }

  /** An excluded value is also exact or included. */
  predicate Conflicting(includes: seq<string>, exacts: seq<string>, excludes: seq<string>) {
    exists i :: 0 <= i < |excludes| && (excludes[i] in exacts || excludes[i] in includes)
  }

  /** The remaining included values and the exact ones are all cluster UUIDs, as many of each: their clauses
      have the same text. */
  predicate Collide(lib: Library, param: Param, includes: seq<string>, exacts: seq<string>) {
    var es, ins := NonEmpty(exacts), NonEmpty(Remaining(includes, exacts));
    && param == Cluster && |es| == |ins| > 0
    && forall i :: 0 <= i < |es| ==> lib.isUuid(es[i]) && lib.isUuid(ins[i])
  }

  function FilterMap(lib: Library, param: Param, includes: seq<string>, exacts: seq<string>, excludes: seq<string>)
    : ClauseMap
  {
    ModeMap(lib, param, Exclude, excludes) + ModeMap(lib, param, Exact, exacts)
    + ModeMap(lib, param, Include, Remaining(includes, exacts))
  }

  method BuildSQLClauseWithFilterType(lib: Library, param: Param, includes: seq<string>, exacts: seq<string>,
                                      excludes: seq<string>)
    returns (m: Option<ClauseMap>)
    ensures m.None? <==> exists v :: v in excludes && (v in exacts || v in includes)
    ensures m.Some? ==> m.value == FilterMap(lib, param, includes, exacts, excludes)
  {
    if excludes == [] && exacts == [] {
      NothingExactRemainsAll(includes);
      var only := BuildModeClause(lib, param, Include, includes);
      return Some(only);
    }
    var conflict := FindConflict(includes, exacts, excludes);
    ConflictingValues(includes, exacts, excludes);
    if conflict {
      return None;
    }
    var clauseMap := MergeClauses(lib, param, includes, exacts, excludes);
    m := Some(clauseMap);
  }

  lemma ConflictingValues(includes: seq<string>, exacts: seq<string>, excludes: seq<string>)
    ensures Conflicting(includes, exacts, excludes) <==> exists v :: v in excludes && (v in exacts || v in includes)
  {
    if i :| 0 <= i < |excludes| && (excludes[i] in exacts || excludes[i] in includes) {
      assert excludes[i] in excludes;
    }
  }

  method FindConflict(includes: seq<string>, exacts: seq<string>, excludes: seq<string>) returns (conflict: bool)
    ensures conflict <==> Conflicting(includes, exacts, excludes)
  {
    for i := 0 to |excludes|
      invariant forall j :: 0 <= j < i ==> excludes[j] !in exacts && excludes[j] !in includes
    {
      if excludes[i] in exacts || excludes[i] in includes {
        return true;
      }
    }
    conflict := false;
  }

  method MergeClauses(lib: Library, param: Param, includes: seq<string>, exacts: seq<string>, excludes: seq<string>)
    returns (clauseMap: ClauseMap)
    ensures clauseMap == FilterMap(lib, param, includes, exacts, excludes)
  {
    var excluding := ClauseIfAny(lib, param, Exclude, excludes);
    var matching := ClauseIfAny(lib, param, Exact, exacts);
    var filtered := RemainingIncludes(includes, exacts);
    var including := ClauseIfAny(lib, param, Include, filtered);
    clauseMap := excluding + matching;
    clauseMap := clauseMap + including;
  }

  method ClauseIfAny(lib: Library, param: Param, mode: Mode, vals: seq<string>) returns (m: ClauseMap)
    ensures m == ModeMap(lib, param, mode, vals)
  {
    m := map[];
    if |vals| > 0 {
      m := BuildModeClause(lib, param, mode, vals);
    }
  }

  method RemainingIncludes(includes: seq<string>, exacts: seq<string>) returns (filtered: seq<string>)
    ensures filtered == Remaining(includes, exacts)
  {
    filtered := includes;
    if exacts != [] && includes != [] {
      filtered := WithoutExact(includes, exacts);
    } else if exacts == [] {
      NothingExactRemainsAll(includes);
    }
  }

  method WithoutExact(includes: seq<string>, exacts: seq<string>) returns (filtered: seq<string>)
    ensures filtered == Remaining(includes, exacts)
  {
    filtered := [];
    for i := 0 to |includes|
      invariant filtered == Remaining(includes[..i], exacts)
    {
      assert includes[..i + 1][..i] == includes[..i];
      if includes[i] !in exacts {
        filtered := filtered + [includes[i]];
      }
    }
    assert includes[..|includes|] == includes;
  }

  lemma {:induction false} NothingExactRemainsAll(includes: seq<string>)
    ensures Remaining(includes, []) == includes
  {
    if includes != [] {
      NothingExactRemainsAll(includes[..|includes| - 1]);
    }
  }

  // ----- The clause map means what the parameters ask for

  lemma SatisfiesOne(lib: Library, row: Row, c: Clause, args: seq<string>)
    ensures Satisfies(lib, row, map[c := args]) <==> Admits(lib, row, c, args)
  {
    var m := map[c := args];
    assert c in m && m[c] == args;
  }

  /** What one value of a mode asks of a row. */
  predicate Meets(lib: Library, param: Param, mode: Mode, row: Row, v: string) {
    match mode
    case Exclude => !Equals(lib, param, row, v)
    case Exact => Equals(lib, param, row, v)
    case Include => Matches(lib, param, row, v)
  }

  lemma AdmitsMeans(lib: Library, param: Param, mode: Mode, vs: seq<string>, row: Row)
    ensures Admits(lib, row, Clause(AtomsOf(lib, param, mode, vs), JoinOf(mode)), ArgsOf(lib, param, mode, vs)) <==>
              if mode == Exclude then forall v :: v in vs ==> Meets(lib, param, mode, row, v)
              else exists v :: v in vs && Meets(lib, param, mode, row, v)
  {
    var atoms, args := AtomsOf(lib, param, mode, vs), ArgsOf(lib, param, mode, vs);
    forall i | 0 <= i < |vs|
      ensures Holds(lib, row, atoms[i], args[i]) <==> Meets(lib, param, mode, row, vs[i])
    {
    }
    if mode == Exclude {
      if forall v :: v in vs ==> Meets(lib, param, mode, row, v) {
        forall i | 0 <= i < |args| ensures Holds(lib, row, atoms[i], args[i]) {
          assert vs[i] in vs;
        }
      }
    } else if v :| v in vs && Meets(lib, param, mode, row, v) {
      var i :| 0 <= i < |vs| && vs[i] == v;
      assert Holds(lib, row, atoms[i], args[i]);
    }
  }

  /** The clause of a mode, on the values that are not empty: an excluding one admits the rows that differ from
      all of them, the others those that meet some, or all rows when there is no value. */
  lemma ModeMeans(lib: Library, param: Param, mode: Mode, vals: seq<string>, row: Row)
    ensures Satisfies(lib, row, ModeMap(lib, param, mode, vals)) <==>
              if mode == Exclude then forall v :: v in vals && v != "" ==> Meets(lib, param, mode, row, v)
              else (exists v :: v in vals && v != "") ==> exists v :: v in vals && v != "" && Meets(lib, param, mode, row, v)
  {
    var vs := NonEmpty(vals);
    forall v ensures v in vs <==> v in vals && v != "" {
      NonEmptyMembers(vals, v);
    }
    if vs != [] {
      AdmitsMeans(lib, param, mode, vs, row);
      SatisfiesOne(lib, row, Clause(AtomsOf(lib, param, mode, vs), JoinOf(mode)), ArgsOf(lib, param, mode, vs));
      assert vs[0] in vs;
    }
  }

  lemma SatisfiesUnion(lib: Library, row: Row, a: ClauseMap, b: ClauseMap)
    requires a.Keys !! b.Keys
    ensures Satisfies(lib, row, a + b) <==> Satisfies(lib, row, a) && Satisfies(lib, row, b)
  {
    assert forall c :: c in a ==> c in a + b && (a + b)[c] == a[c];
    assert forall c :: c in b ==> c in a + b && (a + b)[c] == b[c];
  }

  lemma ClausesApart(lib: Library, param: Param, mode: Mode, vals: seq<string>, other: Mode, others: seq<string>)
    requires mode != other
    ensures var vs, ws := NonEmpty(vals), NonEmpty(others);
            ModeMap(lib, param, mode, vals).Keys !! ModeMap(lib, param, other, others).Keys
            <==> !(&& |vs| == |ws| > 0 && mode != Exclude && other != Exclude && param == Cluster
                   && forall i :: 0 <= i < |vs| ==> lib.isUuid(vs[i]) && lib.isUuid(ws[i]))
  {
    var vs, ws := NonEmpty(vals), NonEmpty(others);
    if vs != [] && ws != [] {
      var a := Clause(AtomsOf(lib, param, mode, vs), JoinOf(mode));
      var b := Clause(AtomsOf(lib, param, other, ws), JoinOf(other));
      assert ModeMap(lib, param, mode, vals).Keys == {a} && ModeMap(lib, param, other, others).Keys == {b};
      if a == b {
        forall i | 0 <= i < |vs| ensures AtomOf(lib, param, mode, vs[i]) == AtomOf(lib, param, other, ws[i]) {
          assert a.atoms[i] == b.atoms[i];
        }
        assert AtomOf(lib, param, mode, vs[0]) == AtomOf(lib, param, other, ws[0]);
      } else if |vs| == |ws| && mode != Exclude && other != Exclude {
        assert a.atoms != b.atoms;
      }
    }
  }

  lemma WithoutCollision(lib: Library, param: Param, includes: seq<string>, exacts: seq<string>, excludes: seq<string>,
                         row: Row)
    requires !Collide(lib, param, includes, exacts)
    ensures Satisfies(lib, row, FilterMap(lib, param, includes, exacts, excludes)) <==>
              Wanted(lib, param, includes, exacts, excludes, row)
  {
    var remaining := Remaining(includes, exacts);
    var x, e, i := ModeMap(lib, param, Exclude, excludes), ModeMap(lib, param, Exact, exacts),
                   ModeMap(lib, param, Include, remaining);
    ClausesApart(lib, param, Exclude, excludes, Exact, exacts);
    ClausesApart(lib, param, Exclude, excludes, Include, remaining);
    ClausesApart(lib, param, Exact, exacts, Include, remaining);
    SatisfiesUnion(lib, row, x, e);
    SatisfiesUnion(lib, row, x + e, i);
    ModeMeans(lib, param, Exclude, excludes, row);
    ModeMeans(lib, param, Exact, exacts, row);
    ModeMeans(lib, param, Include, remaining, row);
    RemainingValues(includes, exacts);
  }

  lemma RemainingValues(includes: seq<string>, exacts: seq<string>)
    ensures forall v :: v in Remaining(includes, exacts) && v != "" <==> IsRemaining(includes, exacts, v)
  {
    forall v ensures v in Remaining(includes, exacts) <==> v in includes && v !in exacts {
      RemainingMembers(includes, exacts, v);
    }
  }

  lemma {:induction false} FreshText(vals: seq<string>) returns (s: string)
    ensures forall i :: 0 <= i < |vals| ==> |s| > |vals[i]|
    ensures s !in vals
  {
    if vals == [] {
      s := "";
    } else {
      var shorter := FreshText(vals[..|vals| - 1]);
      var last := vals[|vals| - 1];
      s := shorter + last + "a";
      forall i | 0 <= i < |vals| ensures |s| > |vals[i]| {
        assert i < |vals| - 1 ==> vals[i] == vals[..|vals| - 1][i];
      }
    }
  }

  lemma {:induction false} NonEmptyMembers(vals: seq<string>, v: string)
    ensures v in NonEmpty(vals) <==> v in vals && v != ""
  {
    if vals != [] {
      NonEmptyMembers(vals[..|vals| - 1], v);
      assert vals == vals[..|vals| - 1] + [vals[|vals| - 1]];
    }
  }

  lemma {:induction false} RemainingMembers(includes: seq<string>, exacts: seq<string>, v: string)
    ensures v in Remaining(includes, exacts) <==> v in includes && v !in exacts
  {
    if includes != [] {
      RemainingMembers(includes[..|includes| - 1], exacts, v);
      assert includes == includes[..|includes| - 1] + [includes[|includes| - 1]];
    }
  }

  /** On a collision the exact clause is overwritten: a row with the first remaining UUID is let through
      although it equals no exact value. */
  lemma CollisionAdmitsTooMuch(lib: Library, param: Param, includes: seq<string>, exacts: seq<string>,
                               excludes: seq<string>) returns (row: Row)
    requires Collide(lib, param, includes, exacts) && !Conflicting(includes, exacts, excludes)
    ensures Satisfies(lib, row, FilterMap(lib, param, includes, exacts, excludes))
    ensures !Wanted(lib, param, includes, exacts, excludes, row)
  {
    var remaining := Remaining(includes, exacts);
    var es, ins := NonEmpty(exacts), NonEmpty(remaining);
    var uuid := ins[0];
    var alias := FreshText(excludes);
    row := (c: Column) => if c == ClusterUuid then uuid else alias;
    NonEmptyMembers(remaining, uuid);
    RemainingMembers(includes, exacts, uuid);
    assert Matches(lib, param, row, uuid) && IsRemaining(includes, exacts, uuid);
    OnlyUuids(lib, exacts, es);
    assert es[0] in es;
    NonEmptyMembers(exacts, es[0]);
    OverwrittenExact(lib, param, includes, exacts, excludes);
    var x, i := ModeMap(lib, param, Exclude, excludes), ModeMap(lib, param, Include, remaining);
    ModeMeans(lib, param, Exclude, excludes, row);
    ModeMeans(lib, param, Include, remaining, row);
    ClausesApart(lib, param, Exclude, excludes, Include, remaining);
    SatisfiesUnion(lib, row, x, i);
  }

  lemma OnlyUuids(lib: Library, exacts: seq<string>, es: seq<string>)
    requires es == NonEmpty(exacts) && forall i :: 0 <= i < |es| ==> lib.isUuid(es[i])
    ensures forall v :: v in exacts && v != "" ==> lib.isUuid(v)
  {
    forall v | v in exacts && v != "" ensures lib.isUuid(v) {
      NonEmptyMembers(exacts, v);
    }
  }

  lemma OverwrittenExact(lib: Library, param: Param, includes: seq<string>, exacts: seq<string>, excludes: seq<string>)
    requires Collide(lib, param, includes, exacts)
    ensures FilterMap(lib, param, includes, exacts, excludes) ==
              ModeMap(lib, param, Exclude, excludes) + ModeMap(lib, param, Include, Remaining(includes, exacts))
  {
    var remaining := Remaining(includes, exacts);
    var es, ins := NonEmpty(exacts), NonEmpty(remaining);
    assert AtomsOf(lib, param, Exact, es) == AtomsOf(lib, param, Include, ins);
    var e, i := ModeMap(lib, param, Exact, exacts), ModeMap(lib, param, Include, remaining);
    assert e.Keys == i.Keys;
    var x := ModeMap(lib, param, Exclude, excludes);
    assert x + e + i == x + i;
  }

  /** For every parameter and all values that do not conflict, the clause map admits exactly the wanted rows
      if and only if the include and exact clauses do not collide. */
  lemma FilterMeansWantedIff(lib: Library, param: Param, includes: seq<string>, exacts: seq<string>, excludes: seq<string>)
    requires !Conflicting(includes, exacts, excludes)
    ensures (forall row: Row ::
               Satisfies(lib, row, FilterMap(lib, param, includes, exacts, excludes)) <==>
                 Wanted(lib, param, includes, exacts, excludes, row))
            <==> !Collide(lib, param, includes, exacts)
  {
    if Collide(lib, param, includes, exacts) {
      var row := CollisionAdmitsTooMuch(lib, param, includes, exacts, excludes);
    } else {
      forall row: Row
        ensures Satisfies(lib, row, FilterMap(lib, param, includes, exacts, excludes)) <==>
                  Wanted(lib, param, includes, exacts, excludes, row)
      {
        WithoutCollision(lib, param, includes, exacts, excludes, row);
      }
    }
  }

  // ----- applyParamFilter

  predicate IsColumnOf(param: Param, c: Column) {
    match param case Cluster => c == ClusterUuid || c == ClusterAlias case Other(name) => c == Named(name)
  }

  /** No clause gathered so far is about the parameter's columns. */
  predicate NotYetFiltered(queryParams: ClauseMap, param: Param) {
    forall c, i :: c in queryParams && 0 <= i < |c.atoms| ==> !IsColumnOf(param, c.atoms[i].column)
  }

  datatype ParamResult = ParamError | Filtered(queryParams: ClauseMap)

  /** `values`, `exactValues` and `excludeValues` are the query string's values under param, filter[exact:param]
      and exclude[param]. The result adds to what the clauses so far demand exactly what this parameter asks
      for, unless include and exact clauses collide. */
  method ApplyParamFilter(lib: Library, queryParams: ClauseMap, param: Param, values: seq<string>,
                          exactValues: seq<string>, excludeValues: seq<string>, maxCount: int, includeAsExact: bool)
    returns (r: ParamResult)
    ensures var includes := if includeAsExact then [] else NonEmpty(values);
            var exacts := (if includeAsExact then NonEmpty(values) else []) + NonEmpty(exactValues);
            var excludes := NonEmpty(excludeValues);
            && (r.ParamError? <==> || |includes| > maxCount || |excludes| > maxCount || |exacts| > maxCount
                                   || Conflicting(includes, exacts, excludes))
            && (r.Filtered? ==> r.queryParams == queryParams + FilterMap(lib, param, includes, exacts, excludes))
            && (r.Filtered? && NotYetFiltered(queryParams, param) && !Collide(lib, param, includes, exacts) ==>
                  forall row: Row ::
                    Satisfies(lib, row, r.queryParams) <==>
                      Satisfies(lib, row, queryParams) && Wanted(lib, param, includes, exacts, excludes, row))
  {
    var given := KeepNonEmpty(values);
    var includes, exacts := given, [];
    if includeAsExact {
      includes, exacts := [], given;
    }
    if |includes| > maxCount {
      return ParamError;
    }
    var excludes := KeepNonEmpty(excludeValues);
    if |excludes| > maxCount {
      return ParamError;
    }
    var more := KeepNonEmpty(exactValues);
    exacts := exacts + more;
    if |exacts| > maxCount {
      return ParamError;
    }
    if includes == [] && excludes == [] && exacts == [] {
      return Filtered(queryParams);
    }
    var clauseMap := BuildSQLClauseWithFilterType(lib, param, includes, exacts, excludes);
    ConflictingValues(includes, exacts, excludes);
    if clauseMap.None? {
      return ParamError;
    }
    r := Filtered(queryParams + clauseMap.value);
    if NotYetFiltered(queryParams, param) && !Collide(lib, param, includes, exacts) {
      forall row: Row
        ensures Satisfies(lib, row, r.queryParams) <==>
                  Satisfies(lib, row, queryParams) && Wanted(lib, param, includes, exacts, excludes, row)
      {
        FilterColumns(lib, param, includes, exacts, excludes, queryParams);
        SatisfiesUnion(lib, row, queryParams, clauseMap.value);
        WithoutCollision(lib, param, includes, exacts, excludes, row);
      }
    }
  }

  method KeepNonEmpty(vals: seq<string>) returns (r: seq<string>)
    ensures r == NonEmpty(vals)
  {
    r := [];
    for i := 0 to |vals|
      invariant r == NonEmpty(vals[..i])
    {
      assert vals[..i + 1][..i] == vals[..i];
      if vals[i] != "" {
        r := r + [vals[i]];
      }
    }
    assert vals[..|vals|] == vals;
  }

  /** The clauses of a parameter are about its columns only, so they meet none of another's. */
  lemma FilterColumns(lib: Library, param: Param, includes: seq<string>, exacts: seq<string>, excludes: seq<string>,
                      queryParams: ClauseMap)
    requires NotYetFiltered(queryParams, param)
    ensures queryParams.Keys !! FilterMap(lib, param, includes, exacts, excludes).Keys
  {
    forall c | c in FilterMap(lib, param, includes, exacts, excludes)
      ensures |c.atoms| > 0 && IsColumnOf(param, c.atoms[0].column)
    {
    }
  }

  // ----- All parameters of a request

  /** The values a request gives for a parameter; `accepted` is false when they are turned down before, as
      unknown workload types are. */
  datatype Given = Given(param: Param, values: seq<string>, exactValues: seq<string>, excludeValues: seq<string>,
                         includeAsExact: bool, accepted: bool)
  {
    function Includes(): seq<string> {
      if includeAsExact then [] else NonEmpty(values)
    }

    function Exacts(): seq<string> {
      (if includeAsExact then NonEmpty(values) else []) + NonEmpty(exactValues)
    }

    function Excludes(): seq<string> {
      NonEmpty(excludeValues)
    }

    predicate Faulty(maxCount: int) {
      || !accepted
      || |Includes()| > maxCount || |Excludes()| > maxCount || |Exacts()| > maxCount
      || Conflicting(Includes(), Exacts(), Excludes())
    }

    predicate Collides(lib: Library) {
      Collide(lib, param, Includes(), Exacts())
    }

    ghost predicate Wants(lib: Library, row: Row) {
      Wanted(lib, param, Includes(), Exacts(), Excludes(), row)
    }

    function Clauses(lib: Library): ClauseMap {
      FilterMap(lib, param, Includes(), Exacts(), Excludes())
    }
  }

  function AllClauses(lib: Library, base: ClauseMap, given: seq<Given>): ClauseMap {
    if given == [] then base
    else AllClauses(lib, base, given[..|given| - 1]) + given[|given| - 1].Clauses(lib)
  }

  method ApplyGiven(lib: Library, queryParams: ClauseMap, g: Given, maxCount: int) returns (r: ParamResult)
    ensures r.ParamError? <==> g.Faulty(maxCount)
    ensures r.Filtered? ==> r.queryParams == queryParams + g.Clauses(lib)
  {
    if !g.accepted {
      return ParamError;
    }
    r := ApplyParamFilter(lib, queryParams, g.param, g.values, g.exactValues, g.excludeValues, maxCount, g.includeAsExact);
  }

  predicate NoneFaulty(given: seq<Given>, maxCount: int) {
    given == [] || (NoneFaulty(given[..|given| - 1], maxCount) && !given[|given| - 1].Faulty(maxCount))
  }

  lemma {:induction false} SomeFaulty(given: seq<Given>, maxCount: int) returns (i: nat)
    requires !NoneFaulty(given, maxCount)
    ensures i < |given| && given[i].Faulty(maxCount)
  {
    i := |given| - 1;
    if !given[i].Faulty(maxCount) {
      i := SomeFaulty(given[..i], maxCount);
    }
  }

  lemma OneMoreGiven(lib: Library, base: ClauseMap, given: seq<Given>, i: nat, maxCount: int)
    requires i < |given|
    ensures NoneFaulty(given[..i + 1], maxCount) <==> NoneFaulty(given[..i], maxCount) && !given[i].Faulty(maxCount)
    ensures AllClauses(lib, base, given[..i + 1]) == AllClauses(lib, base, given[..i]) + given[i].Clauses(lib)
  {
    assert given[..i + 1][..i] == given[..i] && given[..i + 1][i] == given[i];
  }

  /** The parameters one after the other, into one map; an error of any of them is an error of the request. */
  method MapQueryParameters(lib: Library, base: ClauseMap, given: seq<Given>, maxCount: int) returns (r: ParamResult)
    ensures r.Filtered? <==> NoneFaulty(given, maxCount)
    ensures r.Filtered? ==> r.queryParams == AllClauses(lib, base, given)
  {
    r := Filtered(base);
    for i := 0 to |given|
      invariant r.Filtered? <==> NoneFaulty(given[..i], maxCount)
      invariant r.Filtered? ==> r.queryParams == AllClauses(lib, base, given[..i])
    {
      r := AfterGiven(lib, base, given, i, maxCount, r);
    }
    assert given[..|given|] == given;
  }

  method AfterGiven(lib: Library, base: ClauseMap, given: seq<Given>, i: nat, maxCount: int, before: ParamResult)
    returns (r: ParamResult)
    requires i < |given| && (before.Filtered? <==> NoneFaulty(given[..i], maxCount))
    requires before.Filtered? ==> before.queryParams == AllClauses(lib, base, given[..i])
    ensures r.Filtered? <==> NoneFaulty(given[..i + 1], maxCount)
    ensures r.Filtered? ==> r.queryParams == AllClauses(lib, base, given[..i + 1])
  {
    OneMoreGiven(lib, base, given, i, maxCount);
    r := before;
    if before.Filtered? {
      r := ApplyGiven(lib, before.queryParams, given[i], maxCount);
    }
  }

  /** Every clause of a parameter is about its own columns only. */
  lemma ClausesOnOwnColumns(lib: Library, param: Param, includes: seq<string>, exacts: seq<string>, excludes: seq<string>,
                            c: Clause, i: nat)
    requires c in FilterMap(lib, param, includes, exacts, excludes) && i < |c.atoms|
    ensures IsColumnOf(param, c.atoms[i].column)
  {
  }

  lemma OthersNotYetFiltered(lib: Library, base: ClauseMap, g: Given, param: Param)
    requires NotYetFiltered(base, param) && param != g.param
    ensures NotYetFiltered(base + g.Clauses(lib), param)
  {
    forall c, i | c in base + g.Clauses(lib) && 0 <= i < |c.atoms| ensures !IsColumnOf(param, c.atoms[i].column) {
      if c in g.Clauses(lib) {
        ClausesOnOwnColumns(lib, g.param, g.Includes(), g.Exacts(), g.Excludes(), c, i);
      }
    }
  }

  predicate DifferentParams(given: seq<Given>) {
    forall i, j :: 0 <= i < j < |given| ==> given[i].param != given[j].param
  }

  lemma {:induction false} NoneYetFiltered(lib: Library, base: ClauseMap, given: seq<Given>, param: Param)
    requires NotYetFiltered(base, param) && forall i :: 0 <= i < |given| ==> given[i].param != param
    ensures NotYetFiltered(AllClauses(lib, base, given), param)
  {
    if given != [] {
      var n := |given| - 1;
      NoneYetFiltered(lib, base, given[..n], param);
      OthersNotYetFiltered(lib, AllClauses(lib, base, given[..n]), given[n], param);
    }
  }

  /** Different parameters, none of which collides or has been filtered on before. */
  predicate Independent(lib: Library, base: ClauseMap, given: seq<Given>) {
    && DifferentParams(given)
    && forall i :: 0 <= i < |given| ==> !given[i].Collides(lib) && NotYetFiltered(base, given[i].param)
  }

  ghost predicate AllWant(lib: Library, given: seq<Given>, row: Row) {
    given == [] || (AllWant(lib, given[..|given| - 1], row) && given[|given| - 1].Wants(lib, row))
  }

  lemma {:induction false} AllWantEach(lib: Library, given: seq<Given>, row: Row, i: nat)
    requires AllWant(lib, given, row) && i < |given|
    ensures given[i].Wants(lib, row)
  {
    if i < |given| - 1 {
      assert given[..|given| - 1][i] == given[i];
      AllWantEach(lib, given[..|given| - 1], row, i);
    }
  }

  lemma OneParameterMeans(lib: Library, earlier: ClauseMap, g: Given, row: Row)
    requires NotYetFiltered(earlier, g.param) && !g.Collides(lib)
    ensures Satisfies(lib, row, earlier + g.Clauses(lib)) <==> Satisfies(lib, row, earlier) && g.Wants(lib, row)
  {
    FilterColumns(lib, g.param, g.Includes(), g.Exacts(), g.Excludes(), earlier);
    SatisfiesUnion(lib, row, earlier, g.Clauses(lib));
    WithoutCollision(lib, g.param, g.Includes(), g.Exacts(), g.Excludes(), row);
  }

  lemma IndependentButLast(lib: Library, base: ClauseMap, given: seq<Given>)
    requires given != [] && Independent(lib, base, given)
    ensures Independent(lib, base, given[..|given| - 1])
    ensures NotYetFiltered(AllClauses(lib, base, given[..|given| - 1]), given[|given| - 1].param)
    ensures !given[|given| - 1].Collides(lib)
  {
    var n := |given| - 1;
    assert forall i :: 0 <= i < n ==> given[..n][i] == given[i];
    NoneYetFiltered(lib, base, given[..n], given[n].param);
  }

  /** The map of a request admits exactly the rows that the clauses it started from admit and every parameter
      wants. */
  lemma {:induction false} AllParametersMean(lib: Library, base: ClauseMap, given: seq<Given>, row: Row)
    requires Independent(lib, base, given)
    ensures Satisfies(lib, row, AllClauses(lib, base, given)) <==> Satisfies(lib, row, base) && AllWant(lib, given, row)
  {
    if given != [] {
      var n := |given| - 1;
      IndependentButLast(lib, base, given);
      AllParametersMean(lib, base, given[..n], row);
      OneParameterMeans(lib, AllClauses(lib, base, given[..n]), given[n], row);
    }
  }
}
