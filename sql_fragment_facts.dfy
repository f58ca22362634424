/** What the WHERE, SET and INSERT fragments guarantee, stated over the
    specification functions of module SqlFragments. */
module SqlFragmentFacts {
  import opened Php
  import opened Strings
  import opened Bindings
  import opened PatternLiterals
  import opened SqlFragments

  // ---------------------------------------------------------------------------
  // WHERE

  /** Empty criteria give no WHERE clause and leave the binding map alone;
      otherwise the fragment is " WHERE " and the entries' conditions joined
      by " AND ", and the map gains exactly the chosen tags. */
  lemma WhereShape(criteria: PhpArray, m: map<string, Scalar>, draws: Draws)
    ensures criteria == [] ==> Where(criteria, m, draws) == Fragment("", m)
    ensures var b := BindAll(WhereFields(criteria), m, draws);
            && (criteria != [] ==>
                  Where(criteria, m, draws).sql == " WHERE " + Join(WhereClauses(criteria, b.tags), " AND "))
            && Where(criteria, m, draws).bindings.Keys == m.Keys + set t | t in b.tags
  {
    BindKeys(WhereFields(criteria), m, draws);
  }

  /** The condition and the binding of the i-th entry: the tag is the field
      name unless the map already held a non-null value under it (then the
      name followed by the digits of a draw), the condition is an equality for
      a plain value and a LIKE for a pattern literal, and unless a later entry
      chose the same tag, the value bound is the value itself or the LIKE
      operand. */
  lemma WhereEntryAt(criteria: PhpArray, m: map<string, Scalar>, draws: Draws, i: nat)
    requires i < |criteria|
    ensures var b := BindAll(WhereFields(criteria), m, draws);
            var field := KeyString(criteria[i].0);
            var before := BindAll(WhereFields(criteria)[..i], m, draws).values;
            && (b.tags[i] == field <==> !IsBound(before, field))
            && (b.tags[i] != field ==> b.tags[i] == field + NatToString(draws(i)))
            && WhereClauses(criteria, b.tags)[i] == WhereClause(field, criteria[i].1, b.tags[i])
            && ((forall j :: i < j < |criteria| ==> b.tags[j] != b.tags[i]) ==>
                  b.tags[i] in Where(criteria, m, draws).bindings &&
                  Where(criteria, m, draws).bindings[b.tags[i]] == WhereBound(criteria[i].1))
  {
    var fields := WhereFields(criteria);
    assert fields[i] == (KeyString(criteria[i].0), WhereBound(criteria[i].1));
    TagAt(fields, m, draws, i);
    BindValues(fields, m, draws);
  }

  /** The tags of the fields are their own names when the names are distinct
      and none of them is bound yet. */
  lemma WhereFieldsNames(criteria: PhpArray)
    ensures |WhereFields(criteria)| == |criteria|
    ensures forall i :: 0 <= i < |criteria| ==>
              WhereFields(criteria)[i] == (KeyString(criteria[i].0), WhereBound(criteria[i].1)) &&
              Names(WhereFields(criteria))[i] == KeyString(criteria[i].0)
    ensures DistinctFieldNames(criteria) ==> DistinctNames(WhereFields(criteria))
  {
  }

  /** After the binding map has been reset, criteria with distinct field names
      use the bare field names as tags, bind each one to its entry's value
      (or LIKE operand), and bind nothing else. */
  lemma WhereFresh(criteria: PhpArray, draws: Draws)
    requires DistinctFieldNames(criteria)
    ensures var f := Where(criteria, map[], draws);
            && BindAll(WhereFields(criteria), map[], draws).tags == Names(WhereFields(criteria))
            && (forall i :: 0 <= i < |criteria| ==>
                  KeyString(criteria[i].0) in f.bindings && f.bindings[KeyString(criteria[i].0)] == WhereBound(criteria[i].1))
            && (forall k :: k in f.bindings ==> exists i :: 0 <= i < |criteria| && k == KeyString(criteria[i].0))
  {
    var fields := WhereFields(criteria);
    WhereFieldsNames(criteria);
    BindOwnNames(fields, map[], draws);
    forall k | k in Where(criteria, map[], draws).bindings
      ensures exists i :: 0 <= i < |criteria| && k == KeyString(criteria[i].0)
    {
      var i :| 0 <= i < |Names(fields)| && Names(fields)[i] == k;
    }
  }

  /** The LIKE operand made from a pattern literal never starts or ends with
      '/', '^' or '$', holds no `.+` any more, and holds no upper-case letter
      when the pattern was case-insensitive. */
  lemma LikeBodyShape(s: string, ci: bool)
    requires ci ==> |s| >= 2
    ensures var r := LikeBody(s, ci);
            && (r != [] ==> r[0] !in TrimSet && r[|r| - 1] !in TrimSet)
            && !HasDotPlus(r)
            && (ci ==> forall k :: 0 <= k < |r| ==> !IsUpper(r[k]))
  {
    LikeBodyEnds(s, ci);
    LikeBodyRest(s, ci);
  }

  lemma LikeBodyEnds(s: string, ci: bool)
    requires ci ==> |s| >= 2
    ensures var r := LikeBody(s, ci);
            r != [] ==> r[0] !in TrimSet && r[|r| - 1] !in TrimSet
  {
    var u := if ci then s[..|s| - 2] else s;
    var t := Trim(u, TrimSet);
    assert LikeBody(s, ci) == if ci then Lower(ReplaceDotPlus(t)) else ReplaceDotPlus(t);
    if t != [] {
      DotPlusEnds(t, ci);
    }
  }

  lemma DotPlusEnds(t: string, ci: bool)
    requires t != [] && t[0] !in TrimSet && t[|t| - 1] !in TrimSet
    ensures var body := ReplaceDotPlus(t);
            var r := if ci then Lower(body) else body;
            r != [] && r[0] !in TrimSet && r[|r| - 1] !in TrimSet
  {
    ReplaceDotPlusHead(t);
    ReplaceDotPlusLast(t);
    if ci {
      LowerEnds(ReplaceDotPlus(t));
    }
  }

  lemma LowerEnds(body: string)
    requires body != [] && body[0] !in TrimSet && body[|body| - 1] !in TrimSet
    ensures Lower(body)[0] !in TrimSet && Lower(body)[|body| - 1] !in TrimSet
  {
    LowerOutsideTrimSet(body[0]);
    LowerOutsideTrimSet(body[|body| - 1]);
  }

  lemma LikeBodyRest(s: string, ci: bool)
    requires ci ==> |s| >= 2
    ensures var r := LikeBody(s, ci);
            && !HasDotPlus(r)
            && (ci ==> forall k :: 0 <= k < |r| ==> !IsUpper(r[k]))
  {
    var t := Trim(if ci then s[..|s| - 2] else s, TrimSet);
    var body := ReplaceDotPlus(t);
    ReplaceDotPlusComplete(t);
    if ci {
      LowerHasNoUpper(body);
    }
  }

  lemma LowerOutsideTrimSet(c: char)
    requires c !in TrimSet
    ensures LowerChar(c) !in TrimSet
  {
  }

  /** One entry against a map that does not bind its field yet. */
  lemma WhereSingle(field: string, v: Scalar, m: map<string, Scalar>, draws: Draws)
    requires !IsBound(m, field)
    ensures Where([(StrKey(field), v)], m, draws) ==
            Fragment(" WHERE " + WhereClause(field, v, field), m[field := WhereBound(v)])
  {
    var criteria := [(StrKey(field), v)];
    var fields := WhereFields(criteria);
    assert fields == [(field, WhereBound(v))];
    assert fields[..0] == [];
    assert BindAll(fields[..0], m, draws) == Binding([], m);
    assert TagFor(field, m, draws(0)) == field;
    var b := BindAll(fields, m, draws);
    assert b == Binding([field], m[field := WhereBound(v)]);
    assert WhereClauses(criteria, b.tags) == [WhereClause(field, v, field)];
  }

  lemma ReplaceExamples()
    ensures ReplaceDotPlus("a.+z") == "a%z"
    ensures ReplaceDotPlus("AB.+") == "AB%"
  {
    assert "a.+z"[1..] == ".+z" && ".+z"[2..] == "z";
    assert "AB.+"[1..] == "B.+" && "B.+"[1..] == ".+" && ".+"[2..] == "";
  }

  /** A case-insensitive pattern is lower-cased and compared with LOWER():
      with `WhereSingle`, the criteria `name => '/^a.+z$/i'` compile to
      " WHERE (LOWER(name) LIKE :name)" with `name` bound to "a%z". */
  lemma CaseInsensitiveExample()
    ensures var v := Str("/^a.+z$/i");
            && Classify(v) == CaseInsensitive
            && WhereBound(v) == Str("a%z")
            && WhereClause("name", v, "name") == "(LOWER(name) LIKE :name)"
  {
    var s := "/^a.+z$/i";
    assert s[|s| - 2..] == "/i";
    assert s[..|s| - 2] == "/^" + "a.+z" + "$";
    TrimStrips("/^", "a.+z", "$", TrimSet);
    ReplaceExamples();
    assert Lower("a%z") == "a%z";
    assert "(LOWER(" + "name" + ") LIKE :" + "name" + ")" == "(LOWER(name) LIKE :name)";
  }

  /** A case-sensitive pattern keeps its letters: `code => '/AB.+/'`
      compiles to " WHERE (code LIKE :code)" with `code` bound to "AB%". */
  lemma CaseSensitiveExample()
    ensures Classify(Str("/AB.+/")) == CaseSensitive
    ensures WhereBound(Str("/AB.+/")) == Str("AB%")
    ensures WhereClause("code", Str("/AB.+/"), "code") == "(code LIKE :code)"
  {
    var v := Str("/AB.+/");
    assert Classify(v) == CaseSensitive;
    assert WhereClause("code", v, "code") == "(code LIKE :code)";
    CaseSensitiveBody();
  }

  lemma CaseSensitiveBody()
    ensures LikeBody("/AB.+/", false) == "AB%"
  {
    assert "/AB.+/" == "/" + "AB.+" + "/";
    TrimStrips("/", "AB.+", "/", TrimSet);
    ReplaceExamples();
  }

  /** A value that is a pattern at one end only is compared for equality and
      bound unchanged. */
  lemma PlainSlashExample()
    ensures var v := Str("/usr");
            && Classify(v) == NotPattern
            && WhereBound(v) == v
            && WhereClause("path", v, "path") == "(path = :path)"
  {
  }

  // ---------------------------------------------------------------------------
  // SET

  /** Each SET item quotes its field so that it can be read back: the text
      between the backticks has only doubled backticks and unescapes to the
      field name. */
  lemma SetItemReadBack(field: string, tag: string)
    ensures var e := EscapeBackticks(field);
            && SetItem(field, tag) == "`" + e + "`=:" + tag
            && PairedBackticks(e)
            && UnescapeBackticks(e) == field
  {
    EscapeRoundTrip(field);
  }

  /** After a reset, data with distinct field names uses the bare field
      names as tags, binds each to its value and binds nothing else. */
  lemma SetFresh(data: PhpArray, draws: Draws)
    requires DistinctFieldNames(data)
    ensures var f := Set(data, map[], draws);
            && f.sql == " SET " + Join(SetItems(data, Names(Fields(data))), ", ")
            && (forall i :: 0 <= i < |data| ==>
                  KeyString(data[i].0) in f.bindings && f.bindings[KeyString(data[i].0)] == data[i].1)
            && (forall k :: k in f.bindings ==> exists i :: 0 <= i < |data| && k == KeyString(data[i].0))
  {
    var fields := Fields(data);
    assert forall i :: 0 <= i < |data| ==> fields[i] == (KeyString(data[i].0), data[i].1);
    BindOwnNames(fields, map[], draws);
    var b := BindAll(fields, map[], draws);
    assert Set(data, map[], draws) == Fragment(" SET " + Join(SetItems(data, b.tags), ", "), b.values);
    assert b.values.Keys == set t | t in Names(fields);
    OwnNamesOnly(data, b.values);
  }

  /** A map whose keys are exactly the field names binds nothing else. */
  lemma OwnNamesOnly(data: PhpArray, values: map<string, Scalar>)
    requires values.Keys == set t | t in Names(Fields(data))
    ensures forall k :: k in values ==> exists i :: 0 <= i < |data| && k == KeyString(data[i].0)
  {
    var fields := Fields(data);
    forall k | k in values
      ensures exists i :: 0 <= i < |data| && k == KeyString(data[i].0)
    {
      var i :| 0 <= i < |Names(fields)| && Names(fields)[i] == k;
      assert k == KeyString(data[i].0);
    }
  }

  // ---------------------------------------------------------------------------
  // INSERT (SQLite)

  /** The column list and the placeholder list have one entry per field, in
      data order, and the i-th placeholder is the i-th field's tag. */
  lemma SqliteInsertShape(data: PhpArray, m: map<string, Scalar>, draws: Draws)
    ensures var b := BindAll(Fields(data), m, draws);
            && SqliteInsert(data, m, draws).sql ==
                 " (" + Join(Columns(data), ",") + ") VALUES (" + Join(Placeholders(b.tags), ",") + ");"
            && |Columns(data)| == |Placeholders(b.tags)| == |data|
            && (forall i :: 0 <= i < |data| ==>
                  Columns(data)[i] == "`" + KeyString(data[i].0) + "`" && Placeholders(b.tags)[i] == ":" + b.tags[i])
            && (forall i :: 0 <= i < |data| && (forall j :: i < j < |data| ==> b.tags[j] != b.tags[i]) ==>
                  b.tags[i] in SqliteInsert(data, m, draws).bindings &&
                  SqliteInsert(data, m, draws).bindings[b.tags[i]] == data[i].1)
            && SqliteInsert(data, m, draws).bindings.Keys == m.Keys + set t | t in b.tags
  {
    BindValues(Fields(data), m, draws);
    BindKeys(Fields(data), m, draws);
  }

  /** Empty data yields " () VALUES ();" and binds nothing. */
  lemma SqliteInsertEmpty(m: map<string, Scalar>, draws: Draws)
    ensures SqliteInsert([], m, draws) == Fragment(" () VALUES ();", m)
  {
  }

  /** One field against a map that does not bind it yet, for SET and for the
      SQLite INSERT. */
  lemma SingleField(field: string, v: Scalar, m: map<string, Scalar>, draws: Draws)
    requires !IsBound(m, field)
    ensures Set([(StrKey(field), v)], m, draws) == Fragment(" SET " + SetItem(field, field), m[field := v])
    ensures SqliteInsert([(StrKey(field), v)], m, draws) ==
            Fragment(" (`" + field + "`) VALUES (:" + field + ");", m[field := v])
  {
    var data := [(StrKey(field), v)];
    assert Fields(data) == [(field, v)];
    SingleBinding(field, v, m, draws);
    assert SetItems(data, [field]) == [SetItem(field, field)];
    assert Columns(data) == ["`" + field + "`"];
    assert Placeholders([field]) == [":" + field];
  }

  /** A field not bound yet is bound under its own name. */
  lemma SingleBinding(field: string, v: Scalar, m: map<string, Scalar>, draws: Draws)
    requires !IsBound(m, field)
    ensures BindAll([(field, v)], m, draws) == Binding([field], m[field := v])
  {
    var fields := [(field, v)];
    assert fields[..0] == [];
    assert BindAll(fields[..0], m, draws) == Binding([], m);
    assert TagFor(field, m, draws(0)) == field;
  }

  /** Unlike SET, the SQLite column list does not double inner backticks:
      a field named a`b gives " SET `a``b`=:a`b" but " (`a`b`) VALUES (:a`b);". */
  lemma BacktickExample(v: Scalar, draws: Draws)
    ensures Set([(StrKey("a`b"), v)], map[], draws).sql == " SET `a``b`=:a`b"
    ensures SqliteInsert([(StrKey("a`b"), v)], map[], draws).sql == " (`a`b`) VALUES (:a`b);"
  {
    SingleField("a`b", v, map[], draws);
    BacktickText();
  }

  lemma BacktickText()
    ensures " SET " + SetItem("a`b", "a`b") == " SET `a``b`=:a`b"
    ensures " (`" + "a`b" + "`) VALUES (:" + "a`b" + ");" == " (`a`b`) VALUES (:a`b);"
  {
    assert EscapeBackticks("a`b") == "a``b" by {
      assert "a`b"[1..] == "`b" && "`b"[1..] == "b" && "b"[1..] == "";
    }
  }
}
