/** What the relational handler's statement builder and its public
    operations guarantee, stated on the functions of module SqlHandlers. */
module SqlHandlerFacts {
  import opened Php
  import opened Strings
  import opened Bindings
  import opened SqlFragments
  import opened SqlFragmentFacts
  import opened Validators
  import opened SqlHandlers

  /** The statement builder refuses with LogicException exactly when neither
      a truthy table argument nor a default table is given, and then leaves
      the binding map alone; any other outcome resets the map first. */
  lemma BuildTableCheck(dialect: Dialect, kind: int, what: PhpArray, where: PhpValue, sort: PhpValue, limit: Scalar,
                        tblArg: Scalar, tbl: Scalar, current: map<string, Scalar>, other: map<string, Scalar>, draws: Draws)
    ensures var b := Build(dialect, kind, what, where, sort, limit, tblArg, tbl, current, draws);
            && (b.sql == Err(LogicException) <==> !Truthy(tblArg) && tbl == Null)
            && (!Truthy(tblArg) && tbl == Null ==> b.values == current)
            && (Truthy(tblArg) || tbl != Null ==> b == Build(dialect, kind, what, where, sort, limit, tblArg, tbl, other, draws))
  {
  }

  /** A type other than the four query types is refused, naming the type. */
  lemma UnknownKind(dialect: Dialect, kind: int, what: PhpArray, where: PhpValue, sort: PhpValue, limit: Scalar,
                    tblArg: Scalar, tbl: Scalar, current: map<string, Scalar>, draws: Draws)
    requires kind !in {QueryInsert, QuerySelect, QueryUpdate, QueryDelete}
    requires Truthy(tblArg) || tbl != Null
    ensures Build(dialect, kind, what, where, sort, limit, tblArg, tbl, current, draws) ==
            Built(Err(InvalidArgumentException(Scal(Int(kind)))), map[])
  {
  }

  /** The ORDER BY clause comes from the first sort entry alone; an empty
      sort array gives none, and a truthy scalar is refused. */
  lemma OrderByFirstEntry(e: PhpArray, v: Scalar)
    ensures OrderBy(Arr(e)).Ok?
    ensures e == [] <==> OrderBy(Arr(e)) == Ok("")
    ensures e != [] ==> OrderBy(Arr(e)) == OrderBy(Arr(e[..1]))
    ensures OrderBy(Scal(v)) == (if Truthy(v) then Err(TypeError) else Ok(""))
  {
    if e != [] {
      assert |OrderBy(Arr(e)).value| >= |" ORDER BY "|;
    }
  }

  /** A LIMIT clause appears exactly when the limit is truthy. */
  lemma LimitWhenTruthy(limit: Scalar)
    ensures LimitClause(limit) == "" <==> !Truthy(limit)
  {
    if Truthy(limit) {
      assert |LimitClause(limit)| >= |" LIMIT "|;
    }
  }

  /** No projection, criteria, sort or limit: every column of the table and
      nothing bound. */
  lemma SelectAll(dialect: Dialect, tbl: Scalar, current: map<string, Scalar>, draws: Draws)
    requires tbl != Null
    ensures Build(dialect, QuerySelect, [], Arr([]), Arr([]), Null, Null, tbl, current, draws) ==
            Built(Ok("SELECT * FROM `" + ScalarString(tbl) + "`;"), map[])
  {
    WhereShape([], map[], draws);
    assert Projection([]) == "*" && OrderBy(Arr([])) == Ok("") && LimitClause(Null) == "";
    var table := "`" + ScalarString(tbl) + "`";
    assert "SELECT " + "*" + " FROM " + table + "" + "" + "" + ";" == "SELECT * FROM `" + ScalarString(tbl) + "`;";
  }

  /** One WHERE entry: its tag is chosen against the map it is compiled
      into. */
  lemma WhereOne(field: string, v: Scalar, m: map<string, Scalar>, draws: Draws)
    ensures var tag := TagFor(field, m, draws(0));
            Where([(StrKey(field), v)], m, draws) == Fragment(" WHERE " + WhereClause(field, v, tag), m[tag := WhereBound(v)])
  {
    var criteria := [(StrKey(field), v)];
    var fields := WhereFields(criteria);
    assert fields == [(field, WhereBound(v))];
    assert fields[..0] == [];
    assert BindAll(fields[..0], m, draws) == Binding([], m);
    var tag := TagFor(field, m, draws(0));
    var b := BindAll(fields, m, draws);
    assert b == Binding([tag], m[tag := WhereBound(v)]);
    assert WhereClauses(criteria, b.tags) == [WhereClause(field, v, tag)];
  }

  /** UPDATE binds SET first and WHERE into the same map. A criteria field
      that the data sets to a non-null value gets a tag with a random suffix,
      the second draw; one the data sets to null keeps its own name, so the
      WHERE value overwrites the null and both placeholders read it. */
  lemma UpdateSameField(dialect: Dialect, field: string, v: Scalar, c: Scalar, tbl: Scalar,
                        current: map<string, Scalar>, draws: Draws)
    requires tbl != Null
    ensures var b := Build(dialect, QueryUpdate, [(StrKey(field), v)], Arr([(StrKey(field), c)]), Scal(Null), Null, Null,
                           tbl, current, draws);
            var head := "UPDATE `" + ScalarString(tbl) + "` SET " + SetItem(field, field) + " WHERE ";
            var suffixed := field + NatToString(draws(1));
            && (v != Null ==>
                  b.sql == Ok(head + WhereClause(field, c, suffixed) + ";") &&
                  b.values == map[field := v, suffixed := WhereBound(c)])
            && (v == Null ==>
                  b.sql == Ok(head + WhereClause(field, c, field) + ";") &&
                  b.values == map[field := WhereBound(c)])
  {
    var data := [(StrKey(field), v)];
    var criteria := [(StrKey(field), c)];
    UpdateParts(dialect, data, criteria, tbl, current, draws);
    SingleField(field, v, map[], draws);
    WhereOne(field, c, map[field := v], Shift(draws, 1));
    assert Shift(draws, 1)(0) == draws(1);
    var tag := TagFor(field, map[field := v], draws(1));
    UpdateText(ScalarString(tbl), SetItem(field, field), WhereClause(field, c, tag));
    if v == Null {
      assert tag == field;
      assert map[field := v][tag := WhereBound(c)] == map[field := WhereBound(c)];
    } else {
      assert tag == field + NatToString(draws(1));
    }
  }

  /** The UPDATE statement is the SET fragment followed by the WHERE
      fragment compiled into the SET's bindings with the draws left over. */
  lemma UpdateParts(dialect: Dialect, data: PhpArray, criteria: PhpArray, tbl: Scalar,
                    current: map<string, Scalar>, draws: Draws)
    requires tbl != Null
    ensures var s := Set(data, map[], draws);
            var w := Where(criteria, s.bindings, Shift(draws, |data|));
            Build(dialect, QueryUpdate, data, Arr(criteria), Scal(Null), Null, Null, tbl, current, draws) ==
            Built(Ok("UPDATE `" + ScalarString(tbl) + "`" + s.sql + w.sql + ";"), w.bindings)
  {
    var t := ScalarString(tbl);
    assert TableFor(Null, tbl) == Some(tbl);
    assert Build(dialect, QueryUpdate, data, Arr(criteria), Scal(Null), Null, Null, tbl, current, draws) ==
           UpdateStatement("`" + t + "`", data, Arr(criteria), draws);
    assert Entries(Arr(criteria)) == criteria;
    var s := Set(data, map[], draws);
    var w := Where(criteria, s.bindings, Shift(draws, |data|));
    UpdateQuoted(t, s.sql, w.sql);
  }

  lemma UpdateQuoted(t: string, items: string, where: string)
    ensures "UPDATE " + ("`" + t + "`") + items + where + ";" == "UPDATE `" + t + "`" + items + where + ";"
  {
  }

  lemma UpdateText(t: string, item: string, clause: string)
    ensures "UPDATE `" + t + "`" + (" SET " + item) + (" WHERE " + clause) + ";" ==
            "UPDATE `" + t + "` SET " + item + " WHERE " + clause + ";"
  {
  }

  /** The SQLite INSERT ends in two semicolons: the fragment's own and the
      builder's. Both dialects bind the same values. */
  lemma InsertEndings(what: PhpArray, where: PhpValue, sort: PhpValue, limit: Scalar, tblArg: Scalar, tbl: Scalar,
                      current: map<string, Scalar>, draws: Draws)
    requires Truthy(tblArg) || tbl != Null
    ensures var s := Build(Sqlite, QueryInsert, what, where, sort, limit, tblArg, tbl, current, draws);
            s.sql.Ok? && |s.sql.value| >= 3 && s.sql.value[|s.sql.value| - 3..] == ");;"
    ensures Build(Sqlite, QueryInsert, what, where, sort, limit, tblArg, tbl, current, draws).values ==
            Build(MySql, QueryInsert, what, where, sort, limit, tblArg, tbl, current, draws).values
  {
    var f := SqliteInsert(what, map[], draws);
    var t := TableFor(tblArg, tbl).value;
    var table := "`" + ScalarString(t) + "`";
    assert Build(Sqlite, QueryInsert, what, where, sort, limit, tblArg, tbl, current, draws) == InsertStatement(Sqlite, table, what, draws);
    assert Build(MySql, QueryInsert, what, where, sort, limit, tblArg, tbl, current, draws) == InsertStatement(MySql, table, what, draws);
    var sql := "INSERT INTO " + table + f.sql + ";";
    var lists := " (" + Join(Columns(what), ",") + ") VALUES (" + Join(Placeholders(BindAll(Fields(what), map[], draws).tags), ",");
    assert f.sql == lists + ");";
    assert sql == ("INSERT INTO " + table + lists) + ");;";
  }

  /** getOne passes its table argument where the builder expects the sort:
      it never picks the table, and a truthy one makes the SELECT fail (once
      a default table exists). */
  lemma GetOneTableArgument(dialect: Dialect, criteria: PhpArray, projection: PhpArray, tblArg: Scalar, tbl: Scalar,
                            current: map<string, Scalar>, draws: Draws)
    ensures var b := Build(dialect, QuerySelect, projection, Arr(criteria), Scal(tblArg), Null, Null, tbl, current, draws);
            && (!Truthy(tblArg) ==>
                  b == Build(dialect, QuerySelect, projection, Arr(criteria), Scal(Null), Null, Null, tbl, current, draws))
            && (Truthy(tblArg) ==> b.sql == Err(if tbl == Null then LogicException else TypeError))
  {
  }

  /** update, delete and add pass their table argument to a slot their
      statement type does not read: it changes nothing. */
  lemma TableArgumentIgnored(dialect: Dialect, criteria: PhpArray, data: PhpArray, tblArg: Scalar, tbl: Scalar,
                             current: map<string, Scalar>, draws: Draws)
    ensures Build(dialect, QueryUpdate, data, Arr(criteria), Scal(tblArg), Null, Null, tbl, current, draws) ==
            Build(dialect, QueryUpdate, data, Arr(criteria), Scal(Null), Null, Null, tbl, current, draws)
    ensures Build(dialect, QueryDelete, criteria, Scal(tblArg), Arr([]), Null, Null, tbl, current, draws) ==
            Build(dialect, QueryDelete, criteria, Scal(Null), Arr([]), Null, Null, tbl, current, draws)
    ensures Build(dialect, QueryInsert, data, Scal(tblArg), Arr([]), Null, Null, tbl, current, draws) ==
            Build(dialect, QueryInsert, data, Scal(Null), Arr([]), Null, Null, tbl, current, draws)
  {
  }

  /** add issues an INSERT exactly when the validation accepts and a default
      table is set; a rejection returns nothing and an exception from the
      lookup passes through. The error log is the validation's. */
  lemma AddIssuesInsert(dialect: Dialect, tbl: Scalar, current: map<string, Scalar>,
                        mandatory: PhpArray, unique: PhpArray, errors: ErrorLog,
                        data: PhpValue, tblArg: Scalar,
                        rowFound: (string, map<string, Scalar>) -> bool, lookupDraws: Draws, draws: Draws)
    ensures var a := AddOutcome(dialect, tbl, current, mandatory, unique, errors, data, tblArg, rowFound, lookupDraws, draws);
            var v := Validation(mandatory, unique, errors, data, Finder(dialect, tbl, lookupDraws, rowFound));
            && a.errors == v.errors
            && (a.sql.Ok? && a.sql.value.Some? <==> v.result == Ok(true) && tbl != Null)
            && (v.result == Ok(false) ==> a.sql == Ok(None))
            && (v.result.Err? ==> a.sql == Err(v.result.error))
            && (v.result == Ok(true) && tbl == Null ==> a.sql == Err(LogicException))
  {
  }

  /** Without a default table, add never inserts: once validation reaches
      the lookup, that lookup fails with LogicException. */
  lemma AddWithoutTable(dialect: Dialect, current: map<string, Scalar>,
                        mandatory: PhpArray, unique: PhpArray, errors: ErrorLog,
                        data: PhpValue, tblArg: Scalar,
                        rowFound: (string, map<string, Scalar>) -> bool, lookupDraws: Draws, draws: Draws)
    ensures var a := AddOutcome(dialect, Null, current, mandatory, unique, errors, data, tblArg, rowFound, lookupDraws, draws);
            && !(a.sql.Ok? && a.sql.value.Some?)
            && (ReachesLookup(mandatory, unique, data) ==> a.sql == Err(LogicException) && a.values == current)
  {
    if ReachesLookup(mandatory, unique, data) {
      assert [data][1..] == [];
      assert AssocFailure([data]) == None;
      var criteria := RecordCriteria(unique, data.entries);
      assert Finder(dialect, Null, lookupDraws, rowFound)(criteria) == Err(LogicException);
    }
  }

  /** A successful add binds every field of the record under its own name,
      whichever dialect builds it, when the field names are distinct. */
  lemma AddBindsFields(dialect: Dialect, tbl: Scalar, current: map<string, Scalar>,
                       mandatory: PhpArray, unique: PhpArray, errors: ErrorLog,
                       data: PhpValue, tblArg: Scalar,
                       rowFound: (string, map<string, Scalar>) -> bool, lookupDraws: Draws, draws: Draws)
    requires data.Arr? && DistinctFieldNames(data.entries)
    ensures var a := AddOutcome(dialect, tbl, current, mandatory, unique, errors, data, tblArg, rowFound, lookupDraws, draws);
            a.sql.Ok? && a.sql.value.Some? ==>
              forall i :: 0 <= i < |data.entries| ==>
                KeyString(data.entries[i].0) in a.values && a.values[KeyString(data.entries[i].0)] == data.entries[i].1
  {
    var a := AddOutcome(dialect, tbl, current, mandatory, unique, errors, data, tblArg, rowFound, lookupDraws, draws);
    if a.sql.Ok? && a.sql.value.Some? {
      var v := Validation(mandatory, unique, errors, data, Finder(dialect, tbl, lookupDraws, rowFound));
      assert v.result == Ok(true);
      assert tbl != Null;
      assert TableFor(Null, tbl) == Some(tbl);
      var table := "`" + ScalarString(tbl) + "`";
      assert a.values == InsertStatement(dialect, table, data.entries, draws).values;
      InsertBindsFields(dialect, table, data.entries, draws);
    }
  }

  /** Both INSERT forms bind every field under its own name when the field
      names are distinct. */
  lemma InsertBindsFields(dialect: Dialect, table: string, what: PhpArray, draws: Draws)
    requires DistinctFieldNames(what)
    ensures var values := InsertStatement(dialect, table, what, draws).values;
            forall i :: 0 <= i < |what| ==> KeyString(what[i].0) in values && values[KeyString(what[i].0)] == what[i].1
  {
    var fields := Fields(what);
    assert DistinctNames(fields);
    BindOwnNames(fields, map[], draws);
    var bound := BindAll(fields, map[], draws).values;
    assert InsertStatement(dialect, table, what, draws).values == bound;
    forall i | 0 <= i < |what|
      ensures KeyString(what[i].0) in bound && bound[KeyString(what[i].0)] == what[i].1
    {
      assert fields[i] == (KeyString(what[i].0), what[i].1);
    }
  }
}
