/** The sort directions the two backends accept (`normalize_sort` in
    src/Handlers/MySQLHandler.php:192-205 and
    src/Handlers/MongoDBHandler.php:91-104). Both take a field => direction
    array and rewrite every direction in place; the relational one wants
    'ASC'/'DESC', the document one 1/-1, and each also accepts the other's
    spelling. */
module SortOrders {
  import opened Php
  import opened Strings

  datatype Backend = Relational | Document

  /** `preg_match('/^WORD$/i', s)` for a lower-case word: the whole string
      matches ignoring ASCII case, and `$` also matches just before a final
      newline. */
  predicate MatchesWord(s: string, word: string)
  {
    Lower(s) == word || Lower(s) == word + "\n"
  }

  /** One direction as the relational backend rewrites it: 1 becomes 'ASC',
      -1 becomes 'DESC' (strict comparisons), and what is not 'ASC' or 'DESC'
      then is rejected, naming the value. */
  function SqlDirection(v: Scalar): Scalar
  {
    if v == Int(1) then Str("ASC") else if v == Int(-1) then Str("DESC") else v
  }

  /** One direction as the document backend rewrites it: a string matching
      "asc" becomes 1, then one matching "desc" becomes -1, and what is not 1
      or -1 then is rejected. */
  function MongoDirection(v: Scalar): Scalar
  {
    var w := if MatchesWord(ScalarString(v), "asc") then Int(1) else v;
    if MatchesWord(ScalarString(w), "desc") then Int(-1) else w
  }

  function Rewrite(b: Backend, v: Scalar): Scalar
  {
    match b
    case Relational => SqlDirection(v)
    case Document => MongoDirection(v)
  }

  predicate Allowed(b: Backend, v: Scalar)
  {
    match b
    case Relational => v == Str("ASC") || v == Str("DESC")
    case Document => v == Int(1) || v == Int(-1)
  }

  function Direction(b: Backend, v: Scalar): Result<Scalar, Exception>
  {
    var w := Rewrite(b, v);
    if Allowed(b, w) then Ok(w) else Err(InvalidArgumentException(Scal(w)))
  }

  /** The whole array: every direction rewritten, keys and order kept; the
      first rejected direction aborts. */
  function NormalizedSort(b: Backend, sort: PhpArray): Result<PhpArray, Exception>
  {
    if sort == [] then Ok([])
    else
      var n := |sort| - 1;
      match NormalizedSort(b, sort[..n])
      case Err(e) => Err(e)
      case Ok(front) =>
        match Direction(b, sort[n].1)
        case Err(e) => Err(e)
        case Ok(d) => Ok(front + [(sort[n].0, d)])
  }

  /** One more entry: its direction is rewritten after those before it. */
  lemma NormalizedSortStep(b: Backend, sort: PhpArray, i: nat)
    requires i < |sort|
    ensures NormalizedSort(b, sort[..i + 1]) ==
            match NormalizedSort(b, sort[..i])
            case Err(e) => Err(e)
            case Ok(front) =>
              match Direction(b, sort[i].1)
              case Err(e) => Err(e)
              case Ok(d) => Ok(front + [(sort[i].0, d)])
  {
    assert sort[..i + 1][..i] == sort[..i];
  }

  /** The loop step of `normalize_sort`, which rewrites `a` (a copy of
      `sort`) one entry at a time: the next direction, rewritten, either
      extends the normalized prefix or rejects the whole array. */
  lemma NormalizedSortNext(b: Backend, sort: PhpArray, a: PhpArray, i: nat, v: Scalar)
    requires i < |a| == |sort| && NormalizedSort(b, sort[..i]) == Ok(a[..i])
    requires forall j :: i <= j < |a| ==> a[j] == sort[j]
    requires v == Rewrite(b, a[i].1)
    ensures !Allowed(b, v) ==> NormalizedSort(b, sort) == Err(InvalidArgumentException(Scal(v)))
    ensures Allowed(b, v) ==>
              var a' := a[i := (a[i].0, v)];
              NormalizedSort(b, sort[..i + 1]) == Ok(a'[..i + 1]) &&
              forall j :: i + 1 <= j < |a'| ==> a'[j] == sort[j]
  {
    assert a[i] == sort[i];
    if Allowed(b, v) {
      NormalizedSortExtends(b, sort, a, i, v);
    } else {
      NormalizedSortStep(b, sort, i);
      NormalizedSortPrefixErr(b, sort, i + 1);
    }
  }

  lemma NormalizedSortExtends(b: Backend, sort: PhpArray, a: PhpArray, i: nat, v: Scalar)
    requires i < |a| == |sort| && NormalizedSort(b, sort[..i]) == Ok(a[..i])
    requires a[i] == sort[i] && v == Rewrite(b, sort[i].1) && Allowed(b, v)
    ensures NormalizedSort(b, sort[..i + 1]) == Ok(a[i := (a[i].0, v)][..i + 1])
  {
    NormalizedSortStep(b, sort, i);
    assert a[i := (a[i].0, v)][..i + 1] == a[..i] + [(sort[i].0, v)];
  }

  /** Once a prefix is rejected, the whole array is rejected the same way. */
  lemma {:induction false} NormalizedSortPrefixErr(b: Backend, sort: PhpArray, i: nat)
    requires i <= |sort| && NormalizedSort(b, sort[..i]).Err?
    ensures NormalizedSort(b, sort) == NormalizedSort(b, sort[..i])
  {
    if i < |sort| {
      var n := |sort| - 1;
      assert sort[..n][..i] == sort[..i];
      NormalizedSortPrefixErr(b, sort[..n], i);
    } else {
      assert sort[..i] == sort;
    }
  }

  /** The relational backend accepts exactly 'ASC', 'DESC', 1 and -1. */
  lemma SqlAccepts(v: Scalar)
    ensures Direction(Relational, v).Ok? <==> v in {Str("ASC"), Str("DESC"), Int(1), Int(-1)}
    ensures v == Int(1) || v == Str("ASC") ==> Direction(Relational, v) == Ok(Str("ASC"))
    ensures v == Int(-1) || v == Str("DESC") ==> Direction(Relational, v) == Ok(Str("DESC"))
    ensures Direction(Relational, v).Err? ==> Direction(Relational, v).error == InvalidArgumentException(Scal(v))
  {
  }

  /** The document backend accepts 1, -1, and any string that reads "asc" or
      "desc" ignoring case (with at most one trailing newline). */
  lemma MongoAccepts(v: Scalar)
    ensures Direction(Document, v).Ok? <==>
            v == Int(1) || v == Int(-1) || MatchesWord(ScalarString(v), "asc") || MatchesWord(ScalarString(v), "desc")
    ensures v == Int(1) || MatchesWord(ScalarString(v), "asc") ==> Direction(Document, v) == Ok(Int(1))
    ensures v == Int(-1) || MatchesWord(ScalarString(v), "desc") ==> Direction(Document, v) == Ok(Int(-1))
  {
    WordsDiffer(ScalarString(v));
    assert ScalarString(Int(1)) == "1" && ScalarString(Int(-1)) == "-1";
    assert !MatchesWord("1", "desc") && !MatchesWord("1", "asc") by {
      assert |Lower("1")| == 1;
    }
    assert !MatchesWord("-1", "desc") && !MatchesWord("-1", "asc") by {
      assert |Lower("-1")| == 2;
    }
  }

  lemma WordsDiffer(s: string)
    ensures !(MatchesWord(s, "asc") && MatchesWord(s, "desc"))
  {
    if MatchesWord(s, "asc") {
      assert |s| == 3 || |s| == 4;
      assert Lower(s)[0] == 'a';
    }
  }

  /** Rewriting twice changes nothing more. */
  lemma DirectionIdempotent(b: Backend, v: Scalar)
    requires Direction(b, v).Ok?
    ensures Direction(b, Direction(b, v).value) == Direction(b, v)
  {
    if b == Document {
      MongoAccepts(v);
      MongoAccepts(Direction(b, v).value);
    }
  }

  /** ASC == 1 and DESC == -1 both ways: a direction one backend accepts, the
      other accepts too, and rewriting it back gives the first backend's
      form. */
  lemma DirectionsCorrespond(v: Scalar)
    ensures Direction(Relational, v).Ok? ==>
              Direction(Document, v).Ok? &&
              Direction(Document, Direction(Relational, v).value) == Direction(Document, v) &&
              Direction(Relational, Direction(Document, v).value) == Direction(Relational, v)
    ensures Direction(Document, v).Ok? ==>
              Direction(Relational, Direction(Document, v).value).Ok? &&
              Direction(Document, Direction(Relational, Direction(Document, v).value).value) == Direction(Document, v)
  {
    SqlAccepts(v);
    MongoAccepts(v);
    MongoAccepts(Str("ASC"));
    MongoAccepts(Str("DESC"));
    assert MatchesWord("ASC", "asc") by { assert Lower("ASC") == "asc"; }
    assert MatchesWord("DESC", "desc") by { assert Lower("DESC") == "desc"; }
    if Direction(Document, v).Ok? {
      SqlAccepts(Direction(Document, v).value);
    }
  }

  /** The spellings on which the two backends part: lower-case words and a
      trailing newline pass only the document backend; numeric strings pass
      neither. */
  lemma DirectionsDiffer()
    ensures Direction(Relational, Str("asc")).Err? && Direction(Document, Str("asc")) == Ok(Int(1))
    ensures Direction(Relational, Str("DESC\n")).Err? && Direction(Document, Str("DESC\n")) == Ok(Int(-1))
    ensures Direction(Relational, Str("1")).Err? && Direction(Document, Str("1")).Err?
  {
    assert Lower("asc") == "asc";
    assert Lower("DESC\n") == "desc\n";
    MongoAccepts(Str("asc"));
    MongoAccepts(Str("DESC\n"));
    MongoAccepts(Str("1"));
    assert |Lower("1")| == 1;
  }

  /** The normalized array has the same keys in the same order and every
      direction rewritten; it fails exactly when some direction is rejected,
      and then with the first rejected one. */
  lemma NormalizedSortShape(b: Backend, sort: PhpArray)
    ensures NormalizedSort(b, sort).Ok? <==> forall i :: 0 <= i < |sort| ==> Direction(b, sort[i].1).Ok?
    ensures NormalizedSort(b, sort).Ok? ==>
              var r := NormalizedSort(b, sort).value;
              |r| == |sort| &&
              forall i :: 0 <= i < |sort| ==> r[i] == (sort[i].0, Direction(b, sort[i].1).value)
    ensures NormalizedSort(b, sort).Err? ==>
              exists i :: 0 <= i < |sort| && Direction(b, sort[i].1) == Err(NormalizedSort(b, sort).error) &&
                          forall j :: 0 <= j < i ==> Direction(b, sort[j].1).Ok?
  {
    NormalizedSortOk(b, sort);
    NormalizedSortFirstErr(b, sort);
  }

  /** `r` is `sort` with every direction accepted and rewritten. */
  predicate RewrittenAll(b: Backend, sort: PhpArray, r: PhpArray)
  {
    |r| == |sort| &&
    forall i :: 0 <= i < |sort| ==> Direction(b, sort[i].1).Ok? && r[i] == (sort[i].0, Direction(b, sort[i].1).value)
  }

  lemma {:induction false} NormalizedSortOk(b: Backend, sort: PhpArray)
    ensures NormalizedSort(b, sort).Ok? <==> forall i :: 0 <= i < |sort| ==> Direction(b, sort[i].1).Ok?
    ensures NormalizedSort(b, sort).Ok? ==> RewrittenAll(b, sort, NormalizedSort(b, sort).value)
  {
    if sort != [] {
      var n := |sort| - 1;
      var front := sort[..n];
      NormalizedSortOk(b, front);
      if NormalizedSort(b, front).Err? {
        var i :| 0 <= i < n && !Direction(b, front[i].1).Ok?;
        assert front[i] == sort[i];
      } else if Direction(b, sort[n].1).Ok? {
        RewrittenAppend(b, sort, NormalizedSort(b, front).value, Direction(b, sort[n].1).value);
      }
    }
  }

  lemma RewrittenAppend(b: Backend, sort: PhpArray, front: PhpArray, d: Scalar)
    requires sort != [] && RewrittenAll(b, sort[..|sort| - 1], front)
    requires Direction(b, sort[|sort| - 1].1) == Ok(d)
    ensures RewrittenAll(b, sort, front + [(sort[|sort| - 1].0, d)])
  {
    var n := |sort| - 1;
    var r := front + [(sort[n].0, d)];
    forall i | 0 <= i < n
      ensures Direction(b, sort[i].1).Ok? && r[i] == (sort[i].0, Direction(b, sort[i].1).value)
    {
      assert sort[..n][i] == sort[i] && r[i] == front[i];
    }
    assert r[n] == (sort[n].0, d);
    assert |r| == |sort|;
    assert forall i :: 0 <= i < |sort| ==> Direction(b, sort[i].1).Ok? && r[i] == (sort[i].0, Direction(b, sort[i].1).value) by {
      forall i | 0 <= i < |sort| ensures Direction(b, sort[i].1).Ok? && r[i] == (sort[i].0, Direction(b, sort[i].1).value) {
        if i == n {
          assert r[i] == (sort[n].0, d);
        }
      }
    }
  }

  lemma {:induction false} NormalizedSortFirstErr(b: Backend, sort: PhpArray)
    ensures NormalizedSort(b, sort).Err? ==>
              exists i :: 0 <= i < |sort| && Direction(b, sort[i].1) == Err(NormalizedSort(b, sort).error) &&
                          forall j :: 0 <= j < i ==> Direction(b, sort[j].1).Ok?
  {
    if sort != [] {
      var n := |sort| - 1;
      var front := sort[..n];
      assert forall i :: 0 <= i < n ==> front[i] == sort[i];
      if NormalizedSort(b, front).Err? {
        NormalizedSortFirstErr(b, front);
        var i :| 0 <= i < n && Direction(b, front[i].1) == Err(NormalizedSort(b, front).error) &&
                 forall j :: 0 <= j < i ==> Direction(b, front[j].1).Ok?;
        assert Direction(b, sort[i].1) == Err(NormalizedSort(b, sort).error);
      } else if Direction(b, sort[n].1).Err? {
        NormalizedSortOk(b, front);
        assert Direction(b, sort[n].1) == Err(NormalizedSort(b, sort).error);
      }
    }
  }

  /** Normalizing a normalized array gives it back, and an array normalized
      for one backend normalizes for the other and back again. */
  lemma NormalizedSortRoundTrip(b: Backend, sort: PhpArray)
    requires NormalizedSort(b, sort).Ok?
    ensures NormalizedSort(b, NormalizedSort(b, sort).value) == NormalizedSort(b, sort)
    ensures var other := if b == Relational then Document else Relational;
            var t := NormalizedSort(other, NormalizedSort(b, sort).value);
            t.Ok? && NormalizedSort(b, t.value) == NormalizedSort(b, sort)
  {
    var other := if b == Relational then Document else Relational;
    var r := NormalizedSort(b, sort).value;
    NormalizedSortShape(b, sort);
    forall i | 0 <= i < |sort| ensures Direction(b, r[i].1) == Ok(r[i].1) {
      DirectionIdempotent(b, sort[i].1);
    }
    NormalizedSortShape(b, r);
    SameSort(NormalizedSort(b, r).value, r);
    forall i | 0 <= i < |sort| ensures Direction(other, r[i].1).Ok? {
      DirectionsCorrespond(sort[i].1);
      DirectionsCorrespond(r[i].1);
    }
    NormalizedSortShape(other, r);
    var t := NormalizedSort(other, r).value;
    forall i | 0 <= i < |sort| ensures Direction(b, t[i].1) == Ok(r[i].1) {
      DirectionsCorrespond(sort[i].1);
      DirectionsCorrespond(r[i].1);
      DirectionIdempotent(b, sort[i].1);
    }
    NormalizedSortShape(b, t);
    SameSort(NormalizedSort(b, t).value, r);
  }

  lemma SameSort(x: PhpArray, y: PhpArray)
    requires |x| == |y| && forall i :: 0 <= i < |x| ==> x[i] == y[i]
    ensures x == y
  {
  }
}
