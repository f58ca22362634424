/** The static statement-fragment compilers of the relational handlers:
    `pdo_where` and `pdo_set` (src/Handlers/MySQLHandler.php:111-150) and the
    SQLite `pdo_insert` override (src/Handlers/SQLiteHandler.php:33-40).
    Each takes the binding map by reference; here it goes in as `values` and
    comes back as `out`. Each method is proved against a function of its
    inputs; the lemmas state what those functions guarantee. */
module SqlFragments {
  import opened Php
  import opened Strings
  import opened Bindings
  import opened PatternLiterals

  /** A compiled fragment and the binding map after compiling it. */
  datatype Fragment = Fragment(sql: string, bindings: map<string, Scalar>)

  /** The characters `trim($value, '/^$')` strips. */
  const TrimSet: set<char> := {'/', '^', '$'}

  /** The field names of an array, as they are printed into SQL. */
  function Fields(a: PhpArray): seq<(string, Scalar)>
  {
    seq(|a|, k requires 0 <= k < |a| => (KeyString(a[k].0), a[k].1))
  }

  predicate DistinctFieldNames(a: PhpArray)
  {
    forall i, j :: 0 <= i < j < |a| ==> KeyString(a[i].0) != KeyString(a[j].0)
  }

  // ---------------------------------------------------------------------------
  // WHERE

  /** The LIKE operand made from a pattern literal: drop a trailing "/i",
      strip '/', '^' and '$' from both ends, turn every `.+` into '%', and
      lower-case when the pattern is case-insensitive. */
  function LikeBody(s: string, ci: bool): string
    requires ci ==> |s| >= 2
  {
    var body := ReplaceDotPlus(Trim(if ci then s[..|s| - 2] else s, TrimSet));
    if ci then Lower(body) else body
  }

  /** The value bound for one criteria entry. */
  function WhereBound(v: Scalar): Scalar
  {
    match Classify(v)
    case NotPattern => v
    case CaseSensitive => Str(LikeBody(v.s, false))
    case CaseInsensitive => Str(LikeBody(v.s, true))
  }

  /** The parenthesised condition for one criteria entry. */
  function WhereClause(field: string, v: Scalar, tag: string): string
  {
    match Classify(v)
    case NotPattern => "(" + field + " = :" + tag + ")"
    case CaseSensitive => "(" + field + " LIKE :" + tag + ")"
    case CaseInsensitive => "(LOWER(" + field + ") LIKE :" + tag + ")"
  }

  function WhereFields(criteria: PhpArray): seq<(string, Scalar)>
  {
    seq(|criteria|, k requires 0 <= k < |criteria| => (KeyString(criteria[k].0), WhereBound(criteria[k].1)))
  }

  function WhereClauses(criteria: PhpArray, tags: seq<string>): (r: seq<string>)
    requires |tags| == |criteria|
    ensures |r| == |criteria|
  {
    seq(|criteria|, k requires 0 <= k < |criteria| => WhereClause(KeyString(criteria[k].0), criteria[k].1, tags[k]))
  }

  /** The WHERE fragment: empty for empty criteria, otherwise " WHERE " and
      one condition per entry, in order, joined by " AND ". */
  function Where(criteria: PhpArray, m: map<string, Scalar>, draws: Draws): Fragment
  {
    var b := BindAll(WhereFields(criteria), m, draws);
    Fragment(if criteria == [] then "" else " WHERE " + Join(WhereClauses(criteria, b.tags), " AND "), b.values)
  }

  lemma WhereStep(criteria: PhpArray, values: map<string, Scalar>, draws: Draws,
                  tags: seq<string>, i: nat, tag: string, clause: string)
    requires i < |criteria| && |tags| == i
    requires tags == BindAll(WhereFields(criteria)[..i], values, draws).tags
    requires tag == TagFor(KeyString(criteria[i].0), BindAll(WhereFields(criteria)[..i], values, draws).values, draws(i))
    requires clause == WhereClause(KeyString(criteria[i].0), criteria[i].1, tag)
    ensures var p := BindAll(WhereFields(criteria)[..i], values, draws);
            BindAll(WhereFields(criteria)[..i + 1], values, draws) == Binding(tags + [tag], p.values[tag := WhereBound(criteria[i].1)])
    ensures Prefixed(WhereClauses(criteria[..i + 1], tags + [tag]), " AND ") ==
            Prefixed(WhereClauses(criteria[..i], tags), " AND ") + " AND " + clause
  {
    BindStep(WhereFields(criteria), values, draws, i);
    assert WhereFields(criteria)[i] == (KeyString(criteria[i].0), WhereBound(criteria[i].1));
    WhereClausesStep(criteria, tags, i, tag);
    AppendPart(WhereClauses(criteria[..i], tags), clause, " AND ");
  }

  lemma WhereClausesStep(criteria: PhpArray, tags: seq<string>, i: nat, tag: string)
    requires i < |criteria| && |tags| == i
    ensures WhereClauses(criteria[..i + 1], tags + [tag]) ==
            WhereClauses(criteria[..i], tags) + [WhereClause(KeyString(criteria[i].0), criteria[i].1, tag)]
  {
    var lhs := WhereClauses(criteria[..i + 1], tags + [tag]);
    var rhs := WhereClauses(criteria[..i], tags) + [WhereClause(KeyString(criteria[i].0), criteria[i].1, tag)];
    forall k | 0 <= k <= i ensures lhs[k] == rhs[k] {
      assert criteria[..i + 1][k] == criteria[k];
      if k < i {
        assert criteria[..i][k] == criteria[k];
        assert (tags + [tag])[k] == tags[k];
      }
    }
  }

  /** The body of the `pdo_where` loop for one entry: the condition it
      appends and the value it binds (src/Handlers/MySQLHandler.php:132-146). */
  method WhereEntryCompile(field: string, value: Scalar, tag: string) returns (clause: string, bound: Scalar)
    ensures clause == WhereClause(field, value, tag)
    ensures bound == WhereBound(value)
  {
    var kind := Classify(value);
    var caseInsensitive := kind == CaseInsensitive;
    bound := value;
    if kind != NotPattern {
      var text := value.s;
      if caseInsensitive {
        text := text[..|text| - 2];
      }
      text := Trim(text, TrimSet);
      text := ReplaceDotPlus(text);
      bound := Str(text);
      clause := if caseInsensitive then "(LOWER(" + field + ") LIKE :" + tag + ")" else "(" + field + " LIKE :" + tag + ")";
    } else {
      clause := "(" + field + " = :" + tag + ")";
    }
    if caseInsensitive {
      bound := Str(Lower(bound.s));
    }
  }

  method PdoWhere(criteria: PhpArray, values: map<string, Scalar>, draws: Draws)
    returns (sql: string, out: map<string, Scalar>)
    ensures Fragment(sql, out) == Where(criteria, values, draws)
  {
    var where := "";
    out := values;
    ghost var tags: seq<string> := [];
    var i := 0;
    while i < |criteria|
      invariant 0 <= i <= |criteria|
      invariant tags == BindAll(WhereFields(criteria)[..i], values, draws).tags
      invariant out == BindAll(WhereFields(criteria)[..i], values, draws).values
      invariant where == Prefixed(WhereClauses(criteria[..i], tags), " AND ")
    {
      var field := KeyString(criteria[i].0);
      var tag := if IsBound(out, field) then field + NatToString(draws(i)) else field;
      var clause, bound := WhereEntryCompile(field, criteria[i].1, tag);
      where := where + " AND " + clause;
      out := out[tag := bound];

      WhereStep(criteria, values, draws, tags, i, tag, clause);
      tags := tags + [tag];
      i := i + 1;
    }
    assert criteria[..i] == criteria && WhereFields(criteria)[..i] == WhereFields(criteria);
    if Truthy(Str(where)) {
      PrefixedIsJoin(WhereClauses(criteria, tags), " AND ");
      sql := " WHERE " + DropFirst(where, 5);
    } else {
      sql := "";
    }
  }

  // ---------------------------------------------------------------------------
  // SET

  /** One SET item: the field quoted in backticks, inner backticks doubled. */
  function SetItem(field: string, tag: string): string
  {
    "`" + EscapeBackticks(field) + "`=:" + tag
  }

  function SetItems(data: PhpArray, tags: seq<string>): (r: seq<string>)
    requires |tags| == |data|
    ensures |r| == |data|
  {
    seq(|data|, k requires 0 <= k < |data| => SetItem(KeyString(data[k].0), tags[k]))
  }

  /** The SET fragment: " SET " and one item per field joined by ", ". */
  function Set(data: PhpArray, m: map<string, Scalar>, draws: Draws): Fragment
  {
    var b := BindAll(Fields(data), m, draws);
    Fragment(" SET " + Join(SetItems(data, b.tags), ", "), b.values)
  }

  lemma SetStep(data: PhpArray, values: map<string, Scalar>, draws: Draws,
                tags: seq<string>, i: nat, tag: string, item: string)
    requires i < |data| && |tags| == i
    requires tags == BindAll(Fields(data)[..i], values, draws).tags
    requires tag == TagFor(KeyString(data[i].0), BindAll(Fields(data)[..i], values, draws).values, draws(i))
    requires item == SetItem(KeyString(data[i].0), tag)
    ensures var p := BindAll(Fields(data)[..i], values, draws);
            BindAll(Fields(data)[..i + 1], values, draws) == Binding(tags + [tag], p.values[tag := data[i].1])
    ensures Terminated(SetItems(data[..i + 1], tags + [tag]), ", ") ==
            Terminated(SetItems(data[..i], tags), ", ") + item + ", "
  {
    BindStep(Fields(data), values, draws, i);
    assert Fields(data)[i] == (KeyString(data[i].0), data[i].1);
    SetItemsStep(data, tags, i, tag);
    AppendPart(SetItems(data[..i], tags), item, ", ");
  }

  lemma SetItemsStep(data: PhpArray, tags: seq<string>, i: nat, tag: string)
    requires i < |data| && |tags| == i
    ensures SetItems(data[..i + 1], tags + [tag]) == SetItems(data[..i], tags) + [SetItem(KeyString(data[i].0), tag)]
  {
    var lhs := SetItems(data[..i + 1], tags + [tag]);
    var rhs := SetItems(data[..i], tags) + [SetItem(KeyString(data[i].0), tag)];
    forall k | 0 <= k <= i ensures lhs[k] == rhs[k] {
      assert data[..i + 1][k] == data[k];
      if k < i {
        assert data[..i][k] == data[k];
        assert (tags + [tag])[k] == tags[k];
      }
    }
  }

  method PdoSet(data: PhpArray, values: map<string, Scalar>, draws: Draws)
    returns (sql: string, out: map<string, Scalar>)
    ensures Fragment(sql, out) == Set(data, values, draws)
  {
    var items := "";
    out := values;
    ghost var tags: seq<string> := [];
    var i := 0;
    while i < |data|
      invariant 0 <= i <= |data|
      invariant tags == BindAll(Fields(data)[..i], values, draws).tags
      invariant out == BindAll(Fields(data)[..i], values, draws).values
      invariant items == Terminated(SetItems(data[..i], tags), ", ")
    {
      var field := KeyString(data[i].0);
      var tag := if IsBound(out, field) then field + NatToString(draws(i)) else field;
      var item := "`" + EscapeBackticks(field) + "`=:" + tag;
      items := items + item + ", ";
      out := out[tag := data[i].1];

      SetStep(data, values, draws, tags, i, tag, item);
      tags := tags + [tag];
      i := i + 1;
    }
    assert data[..i] == data && Fields(data)[..i] == Fields(data);
    TerminatedIsJoin(SetItems(data, tags), ", ");
    sql := " SET " + DropLast(items, 2);
  }

  // ---------------------------------------------------------------------------
  // INSERT (SQLite)

  /** A column of the SQLite column list: backticks, no escaping. */
  function Columns(data: PhpArray): (r: seq<string>)
    ensures |r| == |data|
  {
    seq(|data|, k requires 0 <= k < |data| => "`" + KeyString(data[k].0) + "`")
  }

  function Placeholders(tags: seq<string>): (r: seq<string>)
    ensures |r| == |tags|
  {
    seq(|tags|, k requires 0 <= k < |tags| => ":" + tags[k])
  }

  /** The SQLite INSERT tail: " (cols) VALUES (:tags);" */
  function SqliteInsert(data: PhpArray, m: map<string, Scalar>, draws: Draws): Fragment
  {
    var b := BindAll(Fields(data), m, draws);
    Fragment(" (" + Join(Columns(data), ",") + ") VALUES (" + Join(Placeholders(b.tags), ",") + ");", b.values)
  }

  lemma InsertStep(data: PhpArray, values: map<string, Scalar>, draws: Draws,
                   tags: seq<string>, i: nat, tag: string)
    requires i < |data| && |tags| == i
    requires tags == BindAll(Fields(data)[..i], values, draws).tags
    requires tag == TagFor(KeyString(data[i].0), BindAll(Fields(data)[..i], values, draws).values, draws(i))
    ensures var p := BindAll(Fields(data)[..i], values, draws);
            BindAll(Fields(data)[..i + 1], values, draws) == Binding(tags + [tag], p.values[tag := data[i].1])
    ensures Terminated(Columns(data[..i + 1]), ",") == Terminated(Columns(data[..i]), ",") + ("`" + KeyString(data[i].0) + "`") + ","
    ensures Terminated(Placeholders(tags + [tag]), ",") == Terminated(Placeholders(tags), ",") + (":" + tag) + ","
  {
    BindStep(Fields(data), values, draws, i);
    assert Fields(data)[i] == (KeyString(data[i].0), data[i].1);
    ColumnsStep(data, i);
    assert Placeholders(tags + [tag]) == Placeholders(tags) + [":" + tag];
    AppendPart(Columns(data[..i]), "`" + KeyString(data[i].0) + "`", ",");
    AppendPart(Placeholders(tags), ":" + tag, ",");
  }

  lemma ColumnsStep(data: PhpArray, i: nat)
    requires i < |data|
    ensures Columns(data[..i + 1]) == Columns(data[..i]) + ["`" + KeyString(data[i].0) + "`"]
  {
    var lhs := Columns(data[..i + 1]);
    var rhs := Columns(data[..i]) + ["`" + KeyString(data[i].0) + "`"];
    forall k | 0 <= k <= i ensures lhs[k] == rhs[k] {
      assert data[..i + 1][k] == data[k];
      if k < i {
        assert data[..i][k] == data[k];
      }
    }
  }

  method PdoInsertSqlite(data: PhpArray, values: map<string, Scalar>, draws: Draws)
    returns (sql: string, out: map<string, Scalar>)
    ensures Fragment(sql, out) == SqliteInsert(data, values, draws)
  {
    var part1, part2 := "", "";
    out := values;
    ghost var tags: seq<string> := [];
    var i := 0;
    while i < |data|
      invariant 0 <= i <= |data|
      invariant tags == BindAll(Fields(data)[..i], values, draws).tags
      invariant out == BindAll(Fields(data)[..i], values, draws).values
      invariant part1 == Terminated(Columns(data[..i]), ",")
      invariant part2 == Terminated(Placeholders(tags), ",")
    {
      var field := KeyString(data[i].0);
      var tag := if IsBound(out, field) then field + NatToString(draws(i)) else field;
      var column := "`" + field + "`";
      var placeholder := ":" + tag;
      part1 := part1 + column + ",";
      part2 := part2 + placeholder + ",";
      out := out[tag := data[i].1];

      InsertStep(data, values, draws, tags, i, tag);
      tags := tags + [tag];
      i := i + 1;
    }
    assert data[..i] == data && Fields(data)[..i] == Fields(data);
    TerminatedIsJoin(Columns(data), ",");
    TerminatedIsJoin(Placeholders(tags), ",");
    sql := " (" + DropLast(part1, 1) + ") VALUES (" + DropLast(part2, 1) + ");";
  }
}
