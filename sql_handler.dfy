/** The relational handler (src/Handlers/MySQLHandler.php) and its SQLite
    variant (src/Handlers/SQLiteHandler.php), which differs only in how an
    INSERT lists its fields. The handler keeps a default table and the
    binding map of the last statement it built; every public operation
    builds one statement with `buildQuery` and hands it, with that map, to
    the database. Here an operation returns the statement it would hand
    over; the database's answer is a parameter where the handler reads it. */
module SqlHandlers {
  import opened Php
  import opened Strings
  import opened Bindings
  import opened SqlFragments
  import opened SortOrders
  import opened Validators

  /** Which class the handler is: its INSERT tail differs. */
  datatype Dialect = MySql | Sqlite

  const QueryInsert: int := 1
  const QuerySelect: int := 2
  const QueryUpdate: int := 3
  const QueryDelete: int := 4

  /** The table a statement names: the explicit argument when truthy,
      otherwise the default; None when neither is given (the default is
      null). */
  function TableFor(tblArg: Scalar, tbl: Scalar): (t: Option<Scalar>)
    ensures t.None? <==> !Truthy(tblArg) && tbl == Null
  {
    if Truthy(tblArg) then Some(tblArg)
    else if tbl == Null then None
    else Some(tbl)
  }

  /** What `foreach` visits: the entries of an array, nothing for a scalar
      (PHP only warns). */
  function Entries(v: PhpValue): PhpArray
  {
    if v.Arr? then v.entries else []
  }

  function ProjectionItems(what: PhpArray): (r: seq<string>)
    ensures |r| == |what|
  {
    seq(|what|, k requires 0 <= k < |what| => ScalarString(what[k].1))
  }

  /** The select list: '*' for no projection, the listed values otherwise. */
  function Projection(what: PhpArray): string
  {
    if what == [] then "*" else Join(ProjectionItems(what), ", ")
  }

  /** ORDER BY from the first entry of the sort argument; `key()` and
      `reset()` refuse a scalar that is truthy. */
  function OrderBy(sort: PhpValue): Result<string, Exception>
  {
    match sort
    case Arr(e) => Ok(if e == [] then "" else " ORDER BY " + KeyString(e[0].0) + " " + ScalarString(e[0].1))
    case Scal(v) => if Truthy(v) then Err(TypeError) else Ok("")
  }

  function LimitClause(limit: Scalar): string
  {
    if Truthy(limit) then " LIMIT " + ScalarString(limit) else ""
  }

  /** A statement (or the exception raised instead) and the binding map left
      behind. */
  datatype Built = Built(sql: Result<string, Exception>, values: map<string, Scalar>)

  /** `buildQuery`: check the table, reset the binding map, then compile the
      statement of the given type. Only SELECT reads `sort` and `limit`, only
      SELECT and UPDATE read `where`, and DELETE takes its criteria from
      `what`. UPDATE binds SET first and WHERE into the same map. */
  function Build(dialect: Dialect, kind: int, what: PhpArray, where: PhpValue, sort: PhpValue, limit: Scalar,
                 tblArg: Scalar, tbl: Scalar, current: map<string, Scalar>, draws: Draws): Built
  {
    match TableFor(tblArg, tbl)
    case None => Built(Err(LogicException), current)
    case Some(t) => Statement(dialect, kind, "`" + ScalarString(t) + "`", what, where, sort, limit, draws)
  }

  /** The statement of one type on a quoted table name, into a fresh binding
      map. */
  function Statement(dialect: Dialect, kind: int, table: string, what: PhpArray, where: PhpValue, sort: PhpValue,
                     limit: Scalar, draws: Draws): Built
  {
    if kind == QuerySelect then SelectStatement(table, what, where, sort, limit, draws)
    else if kind == QueryInsert then InsertStatement(dialect, table, what, draws)
    else if kind == QueryUpdate then UpdateStatement(table, what, where, draws)
    else if kind == QueryDelete then DeleteStatement(table, what, draws)
    else Built(Err(InvalidArgumentException(Scal(Int(kind)))), map[])
  }

  function SelectStatement(table: string, what: PhpArray, where: PhpValue, sort: PhpValue, limit: Scalar,
                           draws: Draws): Built
  {
    match OrderBy(sort)
    case Err(e) => Built(Err(e), map[])
    case Ok(order) =>
      var w := Where(Entries(where), map[], draws);
      Built(Ok("SELECT " + Projection(what) + " FROM " + table + w.sql + order + LimitClause(limit) + ";"), w.bindings)
  }

  function InsertStatement(dialect: Dialect, table: string, what: PhpArray, draws: Draws): Built
  {
    var f := if dialect == MySql then Set(what, map[], draws) else SqliteInsert(what, map[], draws);
    Built(Ok("INSERT INTO " + table + f.sql + ";"), f.bindings)
  }

  function UpdateStatement(table: string, what: PhpArray, where: PhpValue, draws: Draws): Built
  {
    var s := Set(what, map[], draws);
    var w := Where(Entries(where), s.bindings, Shift(draws, |what|));
    Built(Ok("UPDATE " + table + s.sql + w.sql + ";"), w.bindings)
  }

  function DeleteStatement(table: string, what: PhpArray, draws: Draws): Built
  {
    var w := Where(what, map[], draws);
    Built(Ok("DELETE FROM " + table + w.sql + ";"), w.bindings)
  }

  /** The `getOne` the validator calls during `add`: a SELECT * on the
      default table with the criteria, then whether the database returns a
      row. */
  function LookupRecord(dialect: Dialect, tbl: Scalar, draws: Draws,
                        rowFound: (string, map<string, Scalar>) -> bool, criteria: PhpArray): Result<bool, Exception>
  {
    var b := Build(dialect, QuerySelect, [], Arr(criteria), Scal(Null), Null, Null, tbl, map[], draws);
    match b.sql
    case Err(e) => Err(e)
    case Ok(sql) => Ok(rowFound(sql, b.values))
  }

  function Finder(dialect: Dialect, tbl: Scalar, draws: Draws, rowFound: (string, map<string, Scalar>) -> bool): RecordFinder
  {
    criteria => LookupRecord(dialect, tbl, draws, rowFound, criteria)
  }

  /** What `add` does: validate (the lookup inside leaves its own binding
      map behind), and only for valid data build the INSERT. `tblArg` lands
      in buildQuery's `where` slot, which INSERT does not read. */
  datatype AddResult = AddResult(sql: Result<Option<string>, Exception>, values: map<string, Scalar>, errors: ErrorLog)

  function AddOutcome(dialect: Dialect, tbl: Scalar, current: map<string, Scalar>,
                      mandatory: PhpArray, unique: PhpArray, errors: ErrorLog,
                      data: PhpValue, tblArg: Scalar,
                      rowFound: (string, map<string, Scalar>) -> bool, lookupDraws: Draws, draws: Draws): AddResult
  {
    var v := Validation(mandatory, unique, errors, data, Finder(dialect, tbl, lookupDraws, rowFound));
    var afterLookup :=
      if ReachesLookup(mandatory, unique, data) then
        Build(dialect, QuerySelect, [], Arr(RecordCriteria(unique, data.entries)), Scal(Null), Null, Null, tbl, current, lookupDraws).values
      else current;
    match v.result
    case Err(e) => AddResult(Err(e), afterLookup, v.errors)
    case Ok(false) => AddResult(Ok(None), afterLookup, v.errors)
    case Ok(true) =>
      var b := Build(dialect, QueryInsert, data.entries, Scal(tblArg), Arr([]), Null, Null, tbl, afterLookup, draws);
      AddResult(match b.sql case Err(e) => Err(e) case Ok(sql) => Ok(Some(sql)), b.values, v.errors)
  }

  class SqlHandler {
    const dialect: Dialect
    var tblname: Scalar
    var queryValues: map<string, Scalar>
    const validator: DataValidator

    constructor(dialect: Dialect)
      ensures this.dialect == dialect && tblname == Null && queryValues == map[]
      ensures fresh(validator)
      ensures validator.mandatoryFields == [] && validator.uniqueRecordFields == [] && validator.validationErrors == []
    {
      this.dialect := dialect;
      tblname := Null;
      queryValues := map[];
      validator := new DataValidator();
    }

    /** Sets the default table. */
    method SetTable(t: Scalar)
      modifies this`tblname
      ensures tblname == t
    {
      tblname := t;
    }

    method BuildQuery(kind: int, what: PhpArray, where: PhpValue, sort: PhpValue, limit: Scalar,
                      tblArg: Scalar, draws: Draws) returns (r: Result<string, Exception>)
      modifies this`queryValues
      ensures Built(r, queryValues) ==
              Build(dialect, kind, what, where, sort, limit, tblArg, tblname, old(queryValues), draws)
    {
      var table := tblArg;
      if !Truthy(tblArg) {
        table := tblname;
        if table == Null {
          return Err(LogicException);
        }
      }
      assert TableFor(tblArg, tblname) == Some(table);
      queryValues := map[];
      r, queryValues := CompileStatement(dialect, kind, "`" + ScalarString(table) + "`", what, where, sort, limit, draws);
    }

    /** The `switch` of `buildQuery`: one case per statement type, and an
      unknown type refused. */
    static method CompileStatement(dialect: Dialect, kind: int, quoted: string, what: PhpArray, where: PhpValue,
                                   sort: PhpValue, limit: Scalar, draws: Draws)
      returns (r: Result<string, Exception>, values: map<string, Scalar>)
      ensures Built(r, values) == Statement(dialect, kind, quoted, what, where, sort, limit, draws)
    {
      if kind == QuerySelect {
        r, values := SelectQuery(quoted, what, where, sort, limit, draws);
      } else if kind == QueryInsert {
        r, values := InsertQuery(dialect, quoted, what, draws);
      } else if kind == QueryUpdate {
        r, values := UpdateQuery(quoted, what, where, draws);
      } else if kind == QueryDelete {
        r, values := DeleteQuery(quoted, what, draws);
      } else {
        r, values := Err(InvalidArgumentException(Scal(Int(kind)))), map[];
      }
    }

    /** The SELECT case of `buildQuery`, into a fresh binding map. */
    static method SelectQuery(quoted: string, what: PhpArray, where: PhpValue, sort: PhpValue, limit: Scalar, draws: Draws)
      returns (r: Result<string, Exception>, values: map<string, Scalar>)
      ensures Built(r, values) == SelectStatement(quoted, what, where, sort, limit, draws)
    {
      values := map[];
      var selectWhat := if what == [] then "*" else Join(ProjectionItems(what), ", ");
      var orderBy := "";
      match sort {
        case Arr(e) =>
          if e != [] {
            orderBy := " ORDER BY " + KeyString(e[0].0) + " " + ScalarString(e[0].1);
          }
        case Scal(v) =>
          if Truthy(v) {
            return Err(TypeError), values;
          }
      }
      var limitPart := if Truthy(limit) then " LIMIT " + ScalarString(limit) else "";
      var w;
      w, values := PdoWhere(Entries(where), values, draws);
      r := Ok("SELECT " + selectWhat + " FROM " + quoted + w + orderBy + limitPart + ";");
    }

    /** The INSERT case of `buildQuery`: the dialect's field list. */
    static method InsertQuery(dialect: Dialect, quoted: string, what: PhpArray, draws: Draws)
      returns (r: Result<string, Exception>, values: map<string, Scalar>)
      ensures Built(r, values) == InsertStatement(dialect, quoted, what, draws)
    {
      var tail;
      if dialect == MySql {
        tail, values := PdoSet(what, map[], draws);
      } else {
        tail, values := PdoInsertSqlite(what, map[], draws);
      }
      r := Ok("INSERT INTO " + quoted + tail + ";");
    }

    /** The UPDATE case of `buildQuery`: SET, then WHERE into the same map. */
    static method UpdateQuery(quoted: string, what: PhpArray, where: PhpValue, draws: Draws)
      returns (r: Result<string, Exception>, values: map<string, Scalar>)
      ensures Built(r, values) == UpdateStatement(quoted, what, where, draws)
    {
      var s, w;
      s, values := PdoSet(what, map[], draws);
      w, values := PdoWhere(Entries(where), values, Shift(draws, |what|));
      r := Ok("UPDATE " + quoted + s + w + ";");
    }

    /** The DELETE case of `buildQuery`. */
    static method DeleteQuery(quoted: string, what: PhpArray, draws: Draws)
      returns (r: Result<string, Exception>, values: map<string, Scalar>)
      ensures Built(r, values) == DeleteStatement(quoted, what, draws)
    {
      var w;
      w, values := PdoWhere(what, map[], draws);
      r := Ok("DELETE FROM " + quoted + w + ";");
    }

    /** `normalize_sort`: rewrite 1/-1 to ASC/DESC in place, rejecting any
      other value than ASC or DESC. */
    static method NormalizeSort(sort: PhpArray) returns (r: Result<PhpArray, Exception>)
      ensures r == NormalizedSort(Relational, sort)
    {
      var a := sort;
      var i := 0;
      while i < |a|
        invariant 0 <= i <= |a| == |sort|
        invariant NormalizedSort(Relational, sort[..i]) == Ok(a[..i])
        invariant forall j :: i <= j < |a| ==> a[j] == sort[j]
      {
        var v := a[i].1;
        if v == Int(1) {
          v := Str("ASC");
        }
        if v == Int(-1) {
          v := Str("DESC");
        }
        NormalizedSortNext(Relational, sort, a, i, v);
        if v != Str("ASC") && v != Str("DESC") {
          return Err(InvalidArgumentException(Scal(v)));
        }
        a := a[i := (a[i].0, v)];
        i := i + 1;
      }
      assert sort[..i] == sort && a[..i] == a;
      r := Ok(a);
    }

    /** `add`: validate, then build the INSERT on the default table. */
    method Add(data: PhpValue, tblArg: Scalar, rowFound: (string, map<string, Scalar>) -> bool,
               lookupDraws: Draws, draws: Draws) returns (r: Result<Option<string>, Exception>)
      modifies this`queryValues, validator`validationErrors
      ensures AddResult(r, queryValues, validator.validationErrors) ==
              AddOutcome(dialect, tblname, old(queryValues), validator.mandatoryFields, validator.uniqueRecordFields,
                         old(validator.validationErrors), data, tblArg, rowFound, lookupDraws, draws)
    {
      var reaches := ReachesLookup(validator.mandatoryFields, validator.uniqueRecordFields, data);
      var criteria := if reaches then RecordCriteria(validator.uniqueRecordFields, data.entries) else [];
      var ok := validator.Validated(data, Finder(dialect, tblname, lookupDraws, rowFound));
      if reaches {
        // the lookup is this handler's own getOne: it leaves its bindings behind
        var _ := GetOne(criteria, [], Null, lookupDraws);
      }
      if ok.Err? {
        return Err(ok.error);
      }
      if !ok.value {
        return Ok(None);
      }
      assert IsAssoc(data) by {
        ValidatorFactsBridge(validator.mandatoryFields, validator.uniqueRecordFields, old(validator.validationErrors),
                             data, Finder(dialect, tblname, lookupDraws, rowFound));
      }
      var sql := BuildQuery(QueryInsert, data.entries, Scal(tblArg), Arr([]), Null, Null, draws);
      r := match sql case Err(e) => Err(e) case Ok(s) => Ok(Some(s));
    }

    /** `get`: normalize the sort, then build the SELECT. */
    method Get(criteria: PhpArray, projection: PhpArray, sort: PhpArray, limit: Scalar, tblArg: Scalar,
               draws: Draws) returns (r: Result<string, Exception>)
      modifies this`queryValues
      ensures NormalizedSort(Relational, sort).Err? ==>
                r == Err(NormalizedSort(Relational, sort).error) && queryValues == old(queryValues)
      ensures NormalizedSort(Relational, sort).Ok? ==>
                Built(r, queryValues) ==
                Build(dialect, QuerySelect, projection, Arr(criteria), Arr(NormalizedSort(Relational, sort).value),
                      limit, tblArg, tblname, old(queryValues), draws)
    {
      var s := NormalizeSort(sort);
      if s.Err? {
        return Err(s.error);
      }
      r := BuildQuery(QuerySelect, projection, Arr(criteria), Arr(s.value), limit, tblArg, draws);
    }

    /** `getOne`: its table argument lands in buildQuery's `sort` slot. */
    method GetOne(criteria: PhpArray, projection: PhpArray, tblArg: Scalar, draws: Draws)
      returns (r: Result<string, Exception>)
      modifies this`queryValues
      ensures Built(r, queryValues) ==
              Build(dialect, QuerySelect, projection, Arr(criteria), Scal(tblArg), Null, Null, tblname, old(queryValues), draws)
    {
      r := BuildQuery(QuerySelect, projection, Arr(criteria), Scal(tblArg), Null, Null, draws);
    }

    /** `update`: its table argument lands in buildQuery's `sort` slot. */
    method Update(criteria: PhpArray, data: PhpArray, tblArg: Scalar, draws: Draws)
      returns (r: Result<string, Exception>)
      modifies this`queryValues
      ensures Built(r, queryValues) ==
              Build(dialect, QueryUpdate, data, Arr(criteria), Scal(tblArg), Null, Null, tblname, old(queryValues), draws)
    {
      r := BuildQuery(QueryUpdate, data, Arr(criteria), Scal(tblArg), Null, Null, draws);
    }

    /** `delete`: the criteria go in buildQuery's `what` slot and the table
      argument in its `where` slot. */
    method Delete(criteria: PhpArray, tblArg: Scalar, draws: Draws) returns (r: Result<string, Exception>)
      modifies this`queryValues
      ensures Built(r, queryValues) ==
              Build(dialect, QueryDelete, criteria, Scal(tblArg), Arr([]), Null, Null, tblname, old(queryValues), draws)
    {
      r := BuildQuery(QueryDelete, criteria, Scal(tblArg), Arr([]), Null, Null, draws);
    }
  }

  /** A validation that accepts has seen an associative array. */
  lemma ValidatorFactsBridge(mandatory: PhpArray, unique: PhpArray, errors: ErrorLog, data: PhpValue, find: RecordFinder)
    requires Validation(mandatory, unique, errors, data, find).result == Ok(true)
    ensures IsAssoc(data)
  {
    assert [data][1..] == [];
  }
}
