/** Parameter tags and the named-parameter binding map shared by the SET, WHERE
    and INSERT compilers (src/Handlers/MySQLHandler.php:116-118 and 130, 146;
    src/Handlers/SQLiteHandler.php:35-38). Every field gets a tag: its own
    name, unless the binding map already holds a non-null value under that
    name, in which case the name followed by a random number. */
module Bindings {
  import opened Php

  /** The numbers `rand()` returns: the i-th field of one compiler call uses
      draws(i). Nothing is assumed about them. */
  type Draws = nat -> nat

  /** The draws left for a second compiler call after `k` fields. */
  function Shift(d: Draws, k: nat): Draws
  {
    n => d(k + n)
  }

  /** `isset($values[$tag])`. */
  predicate IsBound(m: map<string, Scalar>, tag: string)
  {
    tag in m && m[tag] != Null
  }

  /** `isset($values[$field]) ? $field . rand() : $field`. */
  function TagFor(field: string, m: map<string, Scalar>, draw: nat): string
  {
    if IsBound(m, field) then field + NatToString(draw) else field
  }

  /** The tags chosen for a list of fields and the binding map afterwards. */
  datatype Binding = Binding(tags: seq<string>, values: map<string, Scalar>)

  /** Binds each (field, value) pair in order: choose the tag against the map
      as it is at that point, then store the value under the tag. */
  function BindAll(fields: seq<(string, Scalar)>, m: map<string, Scalar>, draws: Draws): (b: Binding)
    ensures |b.tags| == |fields|
  {
    if fields == [] then Binding([], m)
    else
      var n := |fields| - 1;
      var p := BindAll(fields[..n], m, draws);
      var tag := TagFor(fields[n].0, p.values, draws(n));
      Binding(p.tags + [tag], p.values[tag := fields[n].1])
  }

  /** One more field: its tag is chosen against the map the prefix left. */
  lemma BindStep(fields: seq<(string, Scalar)>, m: map<string, Scalar>, draws: Draws, i: nat)
    requires i < |fields|
    ensures var p := BindAll(fields[..i], m, draws);
            var tag := TagFor(fields[i].0, p.values, draws(i));
            BindAll(fields[..i + 1], m, draws) == Binding(p.tags + [tag], p.values[tag := fields[i].1])
  {
    assert fields[..i + 1][..i] == fields[..i];
  }

  /** The names of a list of fields. */
  function Names(fields: seq<(string, Scalar)>): seq<string>
  {
    seq(|fields|, k requires 0 <= k < |fields| => fields[k].0)
  }

  /** Binding a longer list does not change the tags chosen for its prefix. */
  lemma {:induction false} BindPrefix(fields: seq<(string, Scalar)>, m: map<string, Scalar>, draws: Draws, i: nat)
    requires i <= |fields|
    ensures BindAll(fields, m, draws).tags[..i] == BindAll(fields[..i], m, draws).tags
  {
    if i < |fields| {
      var n := |fields| - 1;
      BindPrefix(fields[..n], m, draws, i);
      assert fields[..n][..i] == fields[..i];
      assert BindAll(fields, m, draws).tags[..n] == BindAll(fields[..n], m, draws).tags;
    } else {
      assert fields[..i] == fields;
    }
  }

  /** The tag of the i-th field is chosen against the map left by the fields
      before it: its own name exactly when that map has no non-null value
      under the name, otherwise the name followed by the digits of a draw. */
  lemma TagAt(fields: seq<(string, Scalar)>, m: map<string, Scalar>, draws: Draws, i: nat)
    requires i < |fields|
    ensures var before := BindAll(fields[..i], m, draws).values;
            var tag := BindAll(fields, m, draws).tags[i];
            && tag == TagFor(fields[i].0, before, draws(i))
            && (tag == fields[i].0 <==> !IsBound(before, fields[i].0))
            && (IsBound(before, fields[i].0) ==>
                  tag == fields[i].0 + NatToString(draws(i)) && fields[i].0 < tag)
  {
    BindPrefix(fields, m, draws, i + 1);
    assert fields[..i + 1][..i] == fields[..i];
    var before := BindAll(fields[..i], m, draws).values;
    var tag := TagFor(fields[i].0, before, draws(i));
    assert BindAll(fields[..i + 1], m, draws).tags[i] == tag;
    assert BindAll(fields, m, draws).tags[i] == BindAll(fields, m, draws).tags[..i + 1][i];
    if IsBound(before, fields[i].0) {
      assert |tag| > |fields[i].0|;
      assert tag[..|fields[i].0|] == fields[i].0;
    }
  }

  /** Keys are only ever added: the final map holds the old keys and every tag. */
  lemma {:induction false} BindKeys(fields: seq<(string, Scalar)>, m: map<string, Scalar>, draws: Draws)
    ensures var b := BindAll(fields, m, draws);
            b.values.Keys == m.Keys + set t | t in b.tags
  {
    if fields != [] {
      var n := |fields| - 1;
      BindKeys(fields[..n], m, draws);
    }
  }

  /** Each tag ends up bound to the value of the last field that chose it;
      keys no field chose keep their old value. */
  lemma BindValues(fields: seq<(string, Scalar)>, m: map<string, Scalar>, draws: Draws)
    ensures var b := BindAll(fields, m, draws);
            && (forall i :: 0 <= i < |fields| && (forall j :: i < j < |fields| ==> b.tags[j] != b.tags[i]) ==>
                 b.tags[i] in b.values && b.values[b.tags[i]] == fields[i].1)
            && (forall k :: k in m && k !in b.tags ==> k in b.values && b.values[k] == m[k])
  {
    var b := BindAll(fields, m, draws);
    forall i | 0 <= i < |fields| && (forall j :: i < j < |fields| ==> b.tags[j] != b.tags[i])
      ensures b.tags[i] in b.values && b.values[b.tags[i]] == fields[i].1
    {
      BindValueAt(fields, m, draws, i);
    }
    forall k | k in m && k !in b.tags ensures k in b.values && b.values[k] == m[k] {
      BindKeepsOld(fields, m, draws, k);
    }
  }

  /** The i-th field's value is what its tag reads when no later field
      chose the same tag. */
  lemma {:induction false} BindValueAt(fields: seq<(string, Scalar)>, m: map<string, Scalar>, draws: Draws, i: nat)
    requires i < |fields|
    requires forall j :: i < j < |fields| ==> BindAll(fields, m, draws).tags[j] != BindAll(fields, m, draws).tags[i]
    ensures BindAll(fields, m, draws).tags[i] in BindAll(fields, m, draws).values
    ensures BindAll(fields, m, draws).values[BindAll(fields, m, draws).tags[i]] == fields[i].1
  {
    var n := |fields| - 1;
    var p := BindAll(fields[..n], m, draws);
    var b := BindAll(fields, m, draws);
    var tag := TagFor(fields[n].0, p.values, draws(n));
    assert b.tags == p.tags + [tag] && b.values == p.values[tag := fields[n].1];
    if i < n {
      assert b.tags[i] == p.tags[i];
      assert b.tags[n] != b.tags[i];
      forall j | i < j < n ensures p.tags[j] != p.tags[i] {
        assert b.tags[j] == p.tags[j];
      }
      BindValueAt(fields[..n], m, draws, i);
      assert fields[..n][i] == fields[i];
    }
  }

  /** A key no field chose keeps its old value. */
  lemma {:induction false} BindKeepsOld(fields: seq<(string, Scalar)>, m: map<string, Scalar>, draws: Draws, k: string)
    requires k in m && k !in BindAll(fields, m, draws).tags
    ensures k in BindAll(fields, m, draws).values && BindAll(fields, m, draws).values[k] == m[k]
  {
    if fields != [] {
      var n := |fields| - 1;
      var p := BindAll(fields[..n], m, draws);
      var tag := TagFor(fields[n].0, p.values, draws(n));
      assert BindAll(fields, m, draws).tags == p.tags + [tag];
      BindKeepsOld(fields[..n], m, draws, k);
    }
  }

  predicate DistinctNames(fields: seq<(string, Scalar)>)
  {
    forall i, j :: 0 <= i < j < |fields| ==> fields[i].0 != fields[j].0
  }

  lemma {:induction false} OwnTags(fields: seq<(string, Scalar)>, m: map<string, Scalar>, draws: Draws)
    requires DistinctNames(fields)
    requires forall i :: 0 <= i < |fields| ==> !IsBound(m, fields[i].0)
    ensures BindAll(fields, m, draws).tags == Names(fields)
    ensures forall i :: 0 <= i < |fields| ==>
              fields[i].0 in BindAll(fields, m, draws).values && BindAll(fields, m, draws).values[fields[i].0] == fields[i].1
  {
    if fields != [] {
      var n := |fields| - 1;
      var front := fields[..n];
      assert forall i :: 0 <= i < n ==> front[i] == fields[i];
      OwnTags(front, m, draws);
      var p := BindAll(front, m, draws);
      var f := fields[n].0;
      assert f !in p.tags by {
        forall i | 0 <= i < n ensures p.tags[i] != f {
          assert Names(front)[i] == front[i].0;
        }
      }
      assert !IsBound(p.values, f) by {
        if f in m {
          BindKeepsOld(front, m, draws, f);
        } else {
          BindKeys(front, m, draws);
        }
      }
      var b := BindAll(fields, m, draws);
      assert b.tags == p.tags + [f] && b.values == p.values[f := fields[n].1];
      assert Names(front) + [f] == Names(fields);
      forall i | 0 <= i < n ensures fields[i].0 in b.values && b.values[fields[i].0] == fields[i].1 {
        assert fields[i].0 != f;
      }
    }
  }

  /** With distinct field names none of which the map already binds to a
      non-null value, every field is bound under its own name, and only
      those names are added. */
  lemma BindOwnNames(fields: seq<(string, Scalar)>, m: map<string, Scalar>, draws: Draws)
    requires DistinctNames(fields)
    requires forall i :: 0 <= i < |fields| ==> !IsBound(m, fields[i].0)
    ensures var b := BindAll(fields, m, draws);
            && b.tags == Names(fields)
            && b.values.Keys == m.Keys + (set t | t in Names(fields))
            && (forall i :: 0 <= i < |fields| ==> fields[i].0 in b.values && b.values[fields[i].0] == fields[i].1)
            && (forall k :: k in m && k !in Names(fields) ==> k in b.values && b.values[k] == m[k])
  {
    OwnTags(fields, m, draws);
    BindKeys(fields, m, draws);
    BindValues(fields, m, draws);
  }
}
