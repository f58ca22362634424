/** What a validation guarantees, stated over the specification functions of
    module Validators. */
module ValidatorFacts {
  import opened Php
  import opened Validators

  /** The associativity test passes exactly when every argument is an array
      with a string key; otherwise it reports the first argument that is not,
      as an empty set when it is empty and as not associative otherwise. */
  lemma AssocFailureFirst(args: seq<PhpValue>)
    ensures AssocFailure(args) == None <==> forall i :: 0 <= i < |args| ==> IsAssoc(args[i])
    ensures AssocFailure(args).Some? ==>
              exists i :: 0 <= i < |args| && (forall j :: 0 <= j < i ==> IsAssoc(args[j])) && !IsAssoc(args[i]) &&
                AssocFailure(args).value ==
                  (if Empty(args[i]) then (ErrorEmptySet, EmptySetError()) else (ErrorNotAssoc, NotAssocError(args[i])))
  {
    AssocFailureNone(args);
    AssocFailureWhich(args);
  }

  lemma {:induction false} AssocFailureNone(args: seq<PhpValue>)
    ensures AssocFailure(args) == None <==> forall i :: 0 <= i < |args| ==> IsAssoc(args[i])
  {
    if args != [] {
      AssocFailureNone(args[1..]);
      AssocNotEmpty(args[0]);
      if AssocFailure(args[1..]).Some? {
        var i :| 0 <= i < |args[1..]| && !IsAssoc(args[1..][i]);
        assert !IsAssoc(args[i + 1]);
      } else {
        assert forall i :: 1 <= i < |args| ==> args[i] == args[1..][i - 1];
      }
    }
  }

  lemma {:induction false} AssocFailureWhich(args: seq<PhpValue>)
    ensures AssocFailure(args).Some? ==>
              exists i :: 0 <= i < |args| && (forall j :: 0 <= j < i ==> IsAssoc(args[j])) && !IsAssoc(args[i]) &&
                AssocFailure(args).value ==
                  (if Empty(args[i]) then (ErrorEmptySet, EmptySetError()) else (ErrorNotAssoc, NotAssocError(args[i])))
  {
    if args != [] {
      AssocNotEmpty(args[0]);
      if IsAssoc(args[0]) && AssocFailure(args[1..]).Some? {
        AssocFailureWhich(args[1..]);
        var t := args[1..];
        var i :| 0 <= i < |t| && (forall j :: 0 <= j < i ==> IsAssoc(t[j])) && !IsAssoc(t[i]) &&
                 AssocFailure(t).value ==
                   (if Empty(t[i]) then (ErrorEmptySet, EmptySetError()) else (ErrorNotAssoc, NotAssocError(t[i])));
        assert t[i] == args[i + 1];
        assert forall j :: 1 <= j < i + 1 ==> args[j] == t[j - 1];
        assert AssocFailure(args) == AssocFailure(t);
        FirstFailureAt(args, i + 1);
      } else if !IsAssoc(args[0]) {
        FirstFailureAt(args, 0);
      }
    }
  }

  /** Names `i` as the witness of AssocFailureWhich's postcondition. */
  lemma FirstFailureAt(args: seq<PhpValue>, i: nat)
    requires i < |args| && (forall j :: 0 <= j < i ==> IsAssoc(args[j])) && !IsAssoc(args[i])
    requires AssocFailure(args).Some?
    requires AssocFailure(args).value ==
               (if Empty(args[i]) then (ErrorEmptySet, EmptySetError()) else (ErrorNotAssoc, NotAssocError(args[i])))
    ensures exists i :: 0 <= i < |args| && (forall j :: 0 <= j < i ==> IsAssoc(args[j])) && !IsAssoc(args[i]) &&
              AssocFailure(args).value ==
                (if Empty(args[i]) then (ErrorEmptySet, EmptySetError()) else (ErrorNotAssoc, NotAssocError(args[i])))
  {
  }

  lemma AssocNotEmpty(v: PhpValue)
    ensures IsAssoc(v) ==> !Empty(v)
  {
    if IsAssoc(v) {
      var k :| 0 <= k < |v.entries| && v.entries[k].0.StrKey?;
    }
  }

  /** A field is reported missing exactly when it is on the mandatory list
      and `data` does not set it (absent or null). */
  lemma {:induction false} MissedFieldsMembers(mandatory: PhpArray, data: PhpArray)
    ensures |MissedFields(mandatory, data)| <= |mandatory|
    ensures forall x :: x in MissedFields(mandatory, data) <==>
              (exists i :: 0 <= i < |mandatory| && mandatory[i].1 == x) && !IsSetIn(data, AsKey(x))
  {
    if mandatory != [] {
      var n := |mandatory| - 1;
      var front := mandatory[..n];
      MissedFieldsMembers(front, data);
      var last := if IsSetIn(data, AsKey(mandatory[n].1)) then [] else [mandatory[n].1];
      assert MissedFields(mandatory, data) == MissedFields(front, data) + last;
      forall x ensures x in MissedFields(mandatory, data) <==>
                       (exists i :: 0 <= i < |mandatory| && mandatory[i].1 == x) && !IsSetIn(data, AsKey(x))
      {
        ListedStep(mandatory, front, x);
      }
    }
  }

  /** A list holds a value when its prefix does or its last entry does. */
  lemma ListedStep(list: PhpArray, front: PhpArray, x: Scalar)
    requires list != [] && front == list[..|list| - 1]
    ensures (exists i :: 0 <= i < |list| && list[i].1 == x) <==>
            (exists i :: 0 <= i < |front| && front[i].1 == x) || list[|list| - 1].1 == x
  {
    var n := |list| - 1;
    if exists i :: 0 <= i < |list| && list[i].1 == x {
      var i :| 0 <= i < |list| && list[i].1 == x;
      if i < n {
        assert front[i].1 == x;
      }
    }
    if exists i :: 0 <= i < n && front[i].1 == x {
      var i :| 0 <= i < n && front[i].1 == x;
      assert list[i].1 == x;
    }
  }

  /** The lookup criteria hold each key at most once. */
  lemma {:induction false} RecordCriteriaUnique(unique: PhpArray, data: PhpArray)
    ensures UniqueKeys(RecordCriteria(unique, data))
  {
    if unique != [] {
      var n := |unique| - 1;
      RecordCriteriaUnique(unique[..n], data);
      var k := AsKey(unique[n].1);
      if IsSetIn(data, k) {
        AssignUnique(RecordCriteria(unique[..n], data), k, Lookup(data, k).value);
      }
    }
  }

  /** The lookup criteria hold a key exactly when some unique-record field
      names it and `data` sets it, and then with `data`'s value. */
  lemma {:induction false} RecordCriteriaEntries(unique: PhpArray, data: PhpArray, k: Key)
    ensures HasKey(RecordCriteria(unique, data), k) <==>
            (exists i :: 0 <= i < |unique| && AsKey(unique[i].1) == k) && IsSetIn(data, k)
    ensures HasKey(RecordCriteria(unique, data), k) ==> Lookup(RecordCriteria(unique, data), k) == Lookup(data, k)
  {
    if unique != [] {
      var n := |unique| - 1;
      var front := unique[..n];
      RecordCriteriaEntries(front, data, k);
      NamedStep(unique, front, k);
      var c := RecordCriteria(front, data);
      var kn := AsKey(unique[n].1);
      if IsSetIn(data, kn) {
        var v := Lookup(data, kn).value;
        assert RecordCriteria(unique, data) == Assign(c, kn, v);
        AssignKeys(c, kn, v, k);
        AssignLookup(c, kn, v, k);
      } else {
        assert RecordCriteria(unique, data) == c;
      }
    }
  }

  /** A list names a key when its prefix does or its last field does. */
  lemma NamedStep(unique: PhpArray, front: PhpArray, k: Key)
    requires unique != [] && front == unique[..|unique| - 1]
    ensures (exists i :: 0 <= i < |unique| && AsKey(unique[i].1) == k) <==>
            (exists i :: 0 <= i < |front| && AsKey(front[i].1) == k) || AsKey(unique[|unique| - 1].1) == k
  {
    var n := |unique| - 1;
    if exists i :: 0 <= i < |unique| && AsKey(unique[i].1) == k {
      var i :| 0 <= i < |unique| && AsKey(unique[i].1) == k;
      if i < n {
        assert AsKey(front[i].1) == k;
      }
    }
    if exists i :: 0 <= i < n && AsKey(front[i].1) == k {
      var i :| 0 <= i < n && AsKey(front[i].1) == k;
      assert AsKey(unique[i].1) == k;
    }
  }

  /** A validation accepts exactly an associative array that sets every
      mandatory field and, when unique-record fields are configured, for
      which the lookup finds no record; it fails with an exception exactly
      when it gets as far as the lookup and the lookup fails. */
  lemma ValidationAccepts(mandatory: PhpArray, unique: PhpArray, errors: ErrorLog,
                          data: PhpValue, find: RecordFinder)
    ensures Validation(mandatory, unique, errors, data, find).result == Ok(true) <==>
            IsAssoc(data) && MissedFields(mandatory, data.entries) == [] &&
            (unique != [] ==> find(RecordCriteria(unique, data.entries)) == Ok(false))
    ensures Validation(mandatory, unique, errors, data, find).result.Err? <==>
            IsAssoc(data) && MissedFields(mandatory, data.entries) == [] && unique != [] &&
            find(RecordCriteria(unique, data.entries)).Err?
  {
    AssocFailureFirst([data]);
  }

  /** The lookup is consulted last: when an earlier test already rejects the
      data, or no unique-record field is configured, the answer does not
      depend on it. */
  lemma ValidationFinderLast(mandatory: PhpArray, unique: PhpArray, errors: ErrorLog,
                             data: PhpValue, find1: RecordFinder, find2: RecordFinder)
    requires !IsAssoc(data) || MissedFields(mandatory, data.entries) != [] || unique == []
    ensures Validation(mandatory, unique, errors, data, find1) == Validation(mandatory, unique, errors, data, find2)
  {
    AssocFailureFirst([data]);
  }

  /** The error log only grows: every code logged before is still there, and
      the only codes added are the four validation error codes. */
  lemma ValidationLogGrows(mandatory: PhpArray, unique: PhpArray, errors: ErrorLog,
                           data: PhpValue, find: RecordFinder)
    ensures var after := Validation(mandatory, unique, errors, data, find).errors;
            && (forall k :: HasKey(errors, k) ==> HasKey(after, k))
            && (forall k :: HasKey(after, k) && !HasKey(errors, k) ==> k in ValidationCodes())
  {
    var after := Validation(mandatory, unique, errors, data, find).errors;
    match AssocFailure([data])
    case Some(failure) =>
      AssocFailureFirst([data]);
      LoggedOnce(errors, failure.0, failure.1);
    case None =>
      var missed := MissedFields(mandatory, data.entries);
      if missed != [] {
        LoggedOnce(errors, ErrorMissedMandatoryField, MissedError(missed));
      } else if unique != [] {
        var criteria := RecordCriteria(unique, data.entries);
        if find(criteria) == Ok(true) {
          LoggedOnce(errors, ErrorRecordExist, RecordExistError(criteria));
        }
      }
  }

  /** The keys of the error log a validation may add. */
  function ValidationCodes(): set<Key>
  {
    {IntKey(ErrorEmptySet), IntKey(ErrorNotAssoc), IntKey(ErrorMissedMandatoryField), IntKey(ErrorRecordExist)}
  }

  /** Logging one validation error keeps every earlier code and adds only
      that one. */
  lemma LoggedOnce(errors: ErrorLog, code: int, entry: ErrorEntry)
    requires IntKey(code) in ValidationCodes()
    ensures forall k :: HasKey(errors, k) ==> HasKey(Assign(errors, IntKey(code), entry), k)
    ensures forall k :: HasKey(Assign(errors, IntKey(code), entry), k) && !HasKey(errors, k) ==> k in ValidationCodes()
  {
    forall k ensures HasKey(Assign(errors, IntKey(code), entry), k) <==> HasKey(errors, k) || k == IntKey(code) {
      AssignKeys(errors, IntKey(code), entry, k);
    }
  }
}
