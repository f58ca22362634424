/** PHP values as the handlers and the validator see them: scalars, array keys,
    ordered arrays, truthiness and the string casts that the handlers rely on. */
module Php {

  datatype Option<T> = None | Some(value: T)

  datatype Result<T, E> = Ok(value: T) | Err(error: E)

  /** A scalar PHP value (floats and objects are not part of the model). */
  datatype Scalar = Null | Bool(b: bool) | Int(i: int) | Str(s: string)

  /** A PHP array key: PHP arrays are keyed by integers or strings. */
  datatype Key = IntKey(i: int) | StrKey(s: string)

  /** An ordered PHP array whose values are scalars. PHP never holds two
      entries with the same key; `UniqueKeys` states that where it matters. */
  type PhpArray = seq<(Key, Scalar)>

  /** An argument that may or may not be an array. */
  datatype PhpValue = Arr(entries: PhpArray) | Scal(v: Scalar)

  /** Exceptions and runtime errors raised by the modelled code. */
  datatype Exception =
    | LogicException
    | InvalidArgumentException(culprit: PhpValue)
    | TypeError                 // key()/reset() applied to a non-array
    | CallOnNull                // a method called on a database or collection handle that is null

  /** PHP's conversion to boolean. */
  predicate Truthy(v: Scalar)
  {
    match v
    case Null => false
    case Bool(b) => b
    case Int(i) => i != 0
    case Str(s) => s != "" && s != "0"
  }

  /** PHP's `empty()`. */
  predicate Empty(v: PhpValue)
  {
    match v
    case Arr(e) => e == []
    case Scal(s) => !Truthy(s)
  }

  predicate IsDigit(c: char)
  {
    '0' <= c <= '9'
  }

  /** Decimal rendering of a natural number, as PHP prints an integer. */
  function NatToString(n: nat): (s: string)
    ensures |s| > 0
    ensures forall k :: 0 <= k < |s| ==> IsDigit(s[k])
  {
    if n < 10 then ["0123456789"[n]]
    else NatToString(n / 10) + ["0123456789"[n % 10]]
  }

  function IntToString(i: int): string
  {
    if i < 0 then "-" + NatToString(-i) else NatToString(i)
  }

  /** PHP's `(string)` cast of a scalar. */
  function ScalarString(v: Scalar): string
  {
    match v
    case Null => ""
    case Bool(b) => if b then "1" else ""
    case Int(i) => IntToString(i)
    case Str(s) => s
  }

  /** How a key is printed when it is interpolated into a string. */
  function KeyString(k: Key): string
  {
    match k
    case IntKey(i) => IntToString(i)
    case StrKey(s) => s
  }

  /** A string PHP reads as an integer key: the canonical decimal form
      (no sign on zero, no leading zeros, no '+') of a 64-bit integer. */
  predicate CanonicalDigits(s: string)
  {
    |s| > 0 && (forall k :: 0 <= k < |s| ==> IsDigit(s[k])) && (s[0] != '0' || |s| == 1)
  }

  function DigitsValue(s: string): nat
    requires forall k :: 0 <= k < |s| ==> IsDigit(s[k])
  {
    if s == [] then 0
    else
      assert IsDigit(s[|s| - 1]);
      DigitsValue(s[..|s| - 1]) * 10 + (s[|s| - 1] as int - '0' as int)
  }

  const MinInt64: int := -0x8000_0000_0000_0000
  const MaxInt64: int := 0x7FFF_FFFF_FFFF_FFFF

  /** The integer a string key stands for, if PHP converts it. */
  function DecimalKey(s: string): (r: Option<int>)
    ensures r.Some? ==> IntToString(r.value) == s && MinInt64 <= r.value <= MaxInt64
  {
    if |s| > 1 && s[0] == '-' && s[1] != '0' && CanonicalDigits(s[1..]) then
      var i := -(DigitsValue(s[1..]) as int);
      NegativeDigits(s);
      if i >= MinInt64 then Some(i) else None
    else if CanonicalDigits(s) then
      var n := DigitsValue(s);
      DigitsRoundTrip(s);
      if n <= MaxInt64 then Some(n) else None
    else None
  }

  /** A minus sign before canonical digits other than zero prints back. */
  lemma NegativeDigits(s: string)
    requires |s| > 1 && s[0] == '-' && s[1] != '0' && CanonicalDigits(s[1..])
    ensures IntToString(-(DigitsValue(s[1..]) as int)) == s
  {
    DigitsRoundTrip(s[1..]);
    assert "-" + s[1..] == s;
  }

  /** Reading canonical digits and printing the number gives the digits back. */
  lemma {:induction false} DigitsRoundTrip(s: string)
    requires CanonicalDigits(s)
    ensures NatToString(DigitsValue(s)) == s
    ensures |s| > 1 ==> DigitsValue(s) >= 10
    ensures s[0] != '0' ==> DigitsValue(s) >= 1
  {
    var n := |s| - 1;
    if n > 0 {
      var front := s[..n];
      assert CanonicalDigits(front) by {
        assert front[0] == s[0];
      }
      DigitsRoundTrip(front);
      assert front + [s[n]] == s;
      NatToStringAppend(front, s[n]);
    } else {
      DigitChar(s[0]);
      assert [s[0]] == s;
    }
  }

  /** Appending a digit to a positive number's rendering appends that
      digit's value. */
  lemma NatToStringAppend(front: string, c: char)
    requires IsDigit(c) && forall k :: 0 <= k < |front| ==> IsDigit(front[k])
    requires DigitsValue(front) >= 1 && NatToString(DigitsValue(front)) == front
    ensures NatToString(DigitsValue(front + [c])) == front + [c]
  {
    var v := DigitsValue(front + [c]);
    assert v == DigitsValue(front) * 10 + (c as int - '0' as int) by {
      assert (front + [c])[..|front|] == front;
    }
    NatToStringStep(DigitsValue(front), c, v);
  }

  /** Appending a digit to a positive number appends its character. */
  lemma NatToStringStep(a: nat, c: char, v: nat)
    requires a >= 1 && IsDigit(c) && v == a * 10 + (c as int - '0' as int)
    ensures NatToString(v) == NatToString(a) + [c]
  {
    DigitChar(c);
    assert v / 10 == a && v % 10 == c as int - '0' as int;
  }

  /** A digit's position in "0123456789" is its value. */
  lemma DigitChar(c: char)
    requires IsDigit(c)
    ensures 0 <= c as int - '0' as int < 10
    ensures "0123456789"[c as int - '0' as int] == c
  {
  }

  /** The key PHP uses when a scalar indexes an array. */
  function AsKey(v: Scalar): Key
  {
    match v
    case Null => StrKey("")
    case Bool(b) => IntKey(if b then 1 else 0)
    case Int(i) => IntKey(i)
    case Str(s) =>
      match DecimalKey(s)
      case Some(i) => IntKey(i)
      case None => StrKey(s)
  }

  /** Casting a string to a key and printing the key gives the string back:
      the cast never changes how a field name reads. */
  lemma KeyCastPrintsBack(s: string)
    ensures KeyString(AsKey(Str(s))) == s
  {
    match DecimalKey(s)
    case Some(i) =>
    case None =>
  }

  function Keys<V>(a: seq<(Key, V)>): seq<Key>
  {
    seq(|a|, k requires 0 <= k < |a| => a[k].0)
  }

  function Values<V>(a: seq<(Key, V)>): seq<V>
  {
    seq(|a|, k requires 0 <= k < |a| => a[k].1)
  }

  predicate UniqueKeys<V>(a: seq<(Key, V)>)
  {
    forall p, q :: 0 <= p < q < |a| ==> a[p].0 != a[q].0
  }

  predicate HasKey<V>(a: seq<(Key, V)>, k: Key)
  {
    exists p :: 0 <= p < |a| && a[p].0 == k
  }

  /** `$a[$k]`: the value stored under `k`, if any. */
  function Lookup<V>(a: seq<(Key, V)>, k: Key): (r: Option<V>)
    ensures r.None? <==> !HasKey(a, k)
    ensures r.Some? ==> exists p :: 0 <= p < |a| && a[p] == (k, r.value)
  {
    if a == [] then None
    else if a[0].0 == k then Some(a[0].1)
    else
      var r := Lookup(a[1..], k);
      assert forall p :: 0 < p < |a| ==> a[p] == a[1..][p - 1];
      r
  }

  /** `isset($a[$k])`: the key is present and its value is not null. */
  predicate IsSetIn(a: PhpArray, k: Key)
  {
    Lookup(a, k).Some? && Lookup(a, k).value != Null
  }

  /** `$a[$k] = $v`: overwrite in place when the key exists, otherwise append. */
  function Assign<V>(a: seq<(Key, V)>, k: Key, v: V): (r: seq<(Key, V)>)
    ensures HasKey(a, k) ==> |r| == |a| && Keys(r) == Keys(a)
    ensures !HasKey(a, k) ==> r == a + [(k, v)]
    ensures Lookup(r, k) == Some(v)
  {
    if a == [] then [(k, v)]
    else if a[0].0 == k then [(k, v)] + a[1..]
    else
      var rest := Assign(a[1..], k, v);
      AssignCons(a, k, v, rest);
      [a[0]] + rest
  }

  /** The recursive step of `Assign`: an entry under another key in front
      of an assigned tail. */
  lemma AssignCons<V>(a: seq<(Key, V)>, k: Key, v: V, rest: seq<(Key, V)>)
    requires a != [] && a[0].0 != k
    requires HasKey(a[1..], k) ==> |rest| == |a[1..]| && Keys(rest) == Keys(a[1..])
    requires !HasKey(a[1..], k) ==> rest == a[1..] + [(k, v)]
    requires Lookup(rest, k) == Some(v)
    ensures HasKey(a, k) ==> |[a[0]] + rest| == |a| && Keys([a[0]] + rest) == Keys(a)
    ensures !HasKey(a, k) ==> [a[0]] + rest == a + [(k, v)]
    ensures Lookup([a[0]] + rest, k) == Some(v)
  {
    var r := [a[0]] + rest;
    assert [a[0]] + a[1..] == a;
    assert r[1..] == rest;
    if HasKey(a, k) {
      var p :| 0 <= p < |a| && a[p].0 == k;
      assert a[1..][p - 1].0 == k;
      KeysCons(a[0], rest);
      KeysCons(a[0], a[1..]);
    } else {
      assert r == [a[0]] + (a[1..] + [(k, v)]);
    }
  }

  lemma KeysCons<V>(x: (Key, V), rest: seq<(Key, V)>)
    ensures Keys([x] + rest) == [x.0] + Keys(rest)
  {
    assert forall p :: 0 < p <= |rest| ==> ([x] + rest)[p] == rest[p - 1];
  }

  /** Assigning adds the assigned key and keeps every other key. */
  lemma AssignKeys<V>(a: seq<(Key, V)>, k: Key, v: V, k2: Key)
    ensures HasKey(Assign(a, k, v), k2) <==> HasKey(a, k2) || k2 == k
  {
    AssignLookup(a, k, v, k2);
  }

  /** Assigning changes what one key reads and no other. */
  lemma {:induction false} AssignLookup<V>(a: seq<(Key, V)>, k: Key, v: V, k2: Key)
    ensures Lookup(Assign(a, k, v), k2) == if k2 == k then Some(v) else Lookup(a, k2)
  {
    if a != [] && a[0].0 != k {
      AssignLookup(a[1..], k, v, k2);
    } else if a != [] {
      assert Assign(a, k, v)[1..] == a[1..];
    }
  }

  /** Assigning never creates a second entry under a key. */
  lemma AssignUnique<V>(a: seq<(Key, V)>, k: Key, v: V)
    requires UniqueKeys(a)
    ensures UniqueKeys(Assign(a, k, v))
  {
    var r := Assign(a, k, v);
    if HasKey(a, k) {
      assert forall p :: 0 <= p < |a| ==> r[p].0 == Keys(r)[p] == Keys(a)[p] == a[p].0;
    } else {
      assert forall p :: 0 <= p < |a| ==> r[p] == a[p] && a[p].0 != k;
    }
  }

  /** `unset($a[$k])`: drop the entries under `k`, keeping the order of the rest. */
  function Unset<V>(a: seq<(Key, V)>, k: Key): (r: seq<(Key, V)>)
    ensures !HasKey(r, k)
    ensures |r| <= |a|
  {
    if a == [] then []
    else if a[0].0 == k then Unset(a[1..], k)
    else [a[0]] + Unset(a[1..], k)
  }

  /** Unsetting hides one key and changes what no other key reads. */
  lemma {:induction false} UnsetLookup<V>(a: seq<(Key, V)>, k: Key, k2: Key)
    ensures Lookup(Unset(a, k), k2) == if k2 == k then None else Lookup(a, k2)
  {
    if a != [] {
      UnsetLookup(a[1..], k, k2);
    }
  }

  /** Unsetting never creates a second entry under a key. */
  lemma {:induction false} UnsetUnique<V>(a: seq<(Key, V)>, k: Key)
    requires UniqueKeys(a)
    ensures UniqueKeys(Unset(a, k))
  {
    if a != [] {
      UnsetUnique(a[1..], k);
      if a[0].0 != k {
        var rest := Unset(a[1..], k);
        assert !HasKey(rest, a[0].0) by {
          UnsetLookup(a[1..], k, a[0].0);
          assert !HasKey(a[1..], a[0].0);
        }
      }
    }
  }
}
