/** The record validator every handler runs before an insert
    (src/DataValidator.php). It keeps the mandatory and the unique-record
    field lists and an error log keyed by error code; the log is only ever
    added to. The unique-record test asks the handler whether a matching
    record exists; that lookup is a parameter here (`RecordFinder`). */
module Validators {
  import opened Php

  const ErrorEmptySet := 1000
  const ErrorNotAssoc := 1001
  const ErrorMissedMandatoryField := 1002
  const ErrorRecordExist := 1003

  /** What an error entry carries under 'extinfo'. */
  datatype ExtInfo =
    | NoDetail                          // the empty string
    | Missed(fields: seq<Scalar>)       // the mandatory fields not set
    | Dump(arg: PhpValue)               // the rejected argument, as `print_r` renders it
    | Found(found: bool)                // the lookup's answer

  /** One entry of the error log: 'errmsg', 'extinfo' and, for the
      record-exists error only, an extra positional element holding the
      `print_r` rendering of the lookup criteria. */
  datatype ErrorEntry = ErrorEntry(errmsg: string, extinfo: ExtInfo, positional: Option<PhpArray>)

  /** The error log: a PHP array keyed by error code. */
  type ErrorLog = seq<(Key, ErrorEntry)>

  /** The handler's own single-record lookup: does a record match these
      criteria? It may fail with the handler's exceptions. */
  type RecordFinder = PhpArray -> Result<bool, Exception>

  function EmptySetError(): ErrorEntry
  {
    ErrorEntry("Empty set received.", NoDetail, None)
  }

  function NotAssocError(arg: PhpValue): ErrorEntry
  {
    ErrorEntry("Data supplied is not associative array.", Dump(arg), None)
  }

  function MissedError(missed: seq<Scalar>): ErrorEntry
  {
    ErrorEntry("Mandatory field(-s) not found.", Missed(missed), None)
  }

  function RecordExistError(criteria: PhpArray): ErrorEntry
  {
    ErrorEntry("Record already exists matching criteria: %s", Found(true), Some(criteria))
  }

  /** An array with at least one string key. */
  predicate IsAssoc(v: PhpValue)
  {
    v.Arr? && exists i :: 0 <= i < |v.entries| && v.entries[i].0.StrKey?
  }

  /** The first argument that is empty or not associative, with the code and
      entry it records; None when every argument passes. */
  function AssocFailure(args: seq<PhpValue>): Option<(int, ErrorEntry)>
  {
    if args == [] then None
    else if Empty(args[0]) then Some((ErrorEmptySet, EmptySetError()))
    else if !IsAssoc(args[0]) then Some((ErrorNotAssoc, NotAssocError(args[0])))
    else AssocFailure(args[1..])
  }

  /** The mandatory fields `data` does not set (absent or null), in list order. */
  function MissedFields(mandatory: PhpArray, data: PhpArray): seq<Scalar>
  {
    if mandatory == [] then []
    else
      var n := |mandatory| - 1;
      MissedFields(mandatory[..n], data) +
        (if IsSetIn(data, AsKey(mandatory[n].1)) then [] else [mandatory[n].1])
  }

  /** The lookup criteria: every unique-record field that `data` sets, with
      its value, in list order. */
  function RecordCriteria(unique: PhpArray, data: PhpArray): PhpArray
  {
    if unique == [] then []
    else
      var n := |unique| - 1;
      var front := RecordCriteria(unique[..n], data);
      var k := AsKey(unique[n].1);
      if IsSetIn(data, k) then Assign(front, k, Lookup(data, k).value) else front
  }

  /** The outcome of a validation and the error log after it. */
  datatype Verdict = Verdict(result: Result<bool, Exception>, errors: ErrorLog)

  /** The whole validation: the associativity test, then the mandatory-field
      test, then the unique-record lookup, each only when the previous passed
      and its field list is not empty. */
  function Validation(mandatory: PhpArray, unique: PhpArray, errors: ErrorLog,
                      data: PhpValue, find: RecordFinder): Verdict
  {
    match AssocFailure([data])
    case Some(failure) => Verdict(Ok(false), Assign(errors, IntKey(failure.0), failure.1))
    case None =>
      assert [data][1..] == [];
      var missed := MissedFields(mandatory, data.entries);
      if missed != [] then
        Verdict(Ok(false), Assign(errors, IntKey(ErrorMissedMandatoryField), MissedError(missed)))
      else if unique == [] then Verdict(Ok(true), errors)
      else
        var criteria := RecordCriteria(unique, data.entries);
        match find(criteria)
        case Err(e) => Verdict(Err(e), errors)
        case Ok(found) =>
          Verdict(Ok(!found), if found then Assign(errors, IntKey(ErrorRecordExist), RecordExistError(criteria)) else errors)
  }

  /** Whether a validation gets as far as the record lookup. */
  predicate ReachesLookup(mandatory: PhpArray, unique: PhpArray, data: PhpValue)
  {
    IsAssoc(data) && MissedFields(mandatory, data.entries) == [] && unique != []
  }

  class DataValidator {
    var mandatoryFields: PhpArray
    var uniqueRecordFields: PhpArray
    var validationErrors: ErrorLog

    constructor()
      ensures mandatoryFields == [] && uniqueRecordFields == [] && validationErrors == []
    {
      mandatoryFields := [];
      uniqueRecordFields := [];
      validationErrors := [];
    }

    /** Replaces the mandatory-field list; a non-array is refused. */
    method SetMandatoryFields(fields: PhpValue) returns (err: Option<Exception>)
      modifies this`mandatoryFields
      ensures fields.Arr? ==> err == None && mandatoryFields == fields.entries
      ensures fields.Scal? ==> err == Some(InvalidArgumentException(fields)) && mandatoryFields == old(mandatoryFields)
    {
      if !fields.Arr? {
        return Some(InvalidArgumentException(fields));
      }
      mandatoryFields := fields.entries;
      err := None;
    }

    /** Replaces the unique-record field list; a non-array is refused. */
    method SetUniqueRecordFields(fields: PhpValue) returns (err: Option<Exception>)
      modifies this`uniqueRecordFields
      ensures fields.Arr? ==> err == None && uniqueRecordFields == fields.entries
      ensures fields.Scal? ==> err == Some(InvalidArgumentException(fields)) && uniqueRecordFields == old(uniqueRecordFields)
    {
      if !fields.Arr? {
        return Some(InvalidArgumentException(fields));
      }
      uniqueRecordFields := fields.entries;
      err := None;
    }

    /** Checks each argument in turn and stops at the first one that is empty
      or has no string key, logging why. */
    method IsAssocArray(args: seq<PhpValue>) returns (ok: bool)
      modifies this`validationErrors
      ensures ok <==> AssocFailure(args) == None
      ensures validationErrors ==
              match AssocFailure(args)
              case None => old(validationErrors)
              case Some(failure) => Assign(old(validationErrors), IntKey(failure.0), failure.1)
    {
      ok := true;
      var i := 0;
      while i < |args|
        invariant 0 <= i <= |args|
        invariant AssocFailure(args) == AssocFailure(args[i..])
        invariant validationErrors == old(validationErrors)
      {
        var arg := args[i];
        assert args[i..][1..] == args[i + 1..];
        if Empty(arg) {
          validationErrors := Assign(validationErrors, IntKey(ErrorEmptySet), EmptySetError());
          ok := false;
          break;
        } else if !(arg.Arr? && exists k :: 0 <= k < |arg.entries| && arg.entries[k].0.StrKey?) {
          validationErrors := Assign(validationErrors, IntKey(ErrorNotAssoc), NotAssocError(arg));
          ok := false;
          break;
        }
        i := i + 1;
      }
    }

    /** Collects the mandatory fields `data` does not set and logs them. */
    method TestMandatoryFields(data: PhpArray) returns (ok: bool)
      modifies this`validationErrors
      ensures ok <==> MissedFields(mandatoryFields, data) == []
      ensures validationErrors ==
              if ok then old(validationErrors)
              else Assign(old(validationErrors), IntKey(ErrorMissedMandatoryField), MissedError(MissedFields(mandatoryFields, data)))
    {
      var missed: seq<Scalar> := [];
      var i := 0;
      while i < |mandatoryFields|
        invariant 0 <= i <= |mandatoryFields|
        invariant missed == MissedFields(mandatoryFields[..i], data)
      {
        var field := mandatoryFields[i].1;
        assert mandatoryFields[..i + 1][..i] == mandatoryFields[..i];
        if !IsSetIn(data, AsKey(field)) {
          missed := missed + [field];
        }
        i := i + 1;
      }
      assert mandatoryFields[..i] == mandatoryFields;
      if missed != [] {
        validationErrors := Assign(validationErrors, IntKey(ErrorMissedMandatoryField), MissedError(missed));
      }
      ok := missed == [];
    }

    /** Builds the lookup criteria from the unique-record fields, asks
      whether a record matches, and logs it when one does. */
    method TestRecordExist(data: PhpArray, find: RecordFinder) returns (r: Result<bool, Exception>)
      modifies this`validationErrors
      ensures r == find(RecordCriteria(uniqueRecordFields, data))
      ensures validationErrors ==
              if r == Ok(true) then Assign(old(validationErrors), IntKey(ErrorRecordExist), RecordExistError(RecordCriteria(uniqueRecordFields, data)))
              else old(validationErrors)
    {
      var criteria: PhpArray := [];
      var i := 0;
      while i < |uniqueRecordFields|
        invariant 0 <= i <= |uniqueRecordFields|
        invariant criteria == RecordCriteria(uniqueRecordFields[..i], data)
      {
        var field := uniqueRecordFields[i].1;
        assert uniqueRecordFields[..i + 1][..i] == uniqueRecordFields[..i];
        if IsSetIn(data, AsKey(field)) {
          criteria := Assign(criteria, AsKey(field), Lookup(data, AsKey(field)).value);
        }
        i := i + 1;
      }
      assert uniqueRecordFields[..i] == uniqueRecordFields;
      r := find(criteria);
      if r == Ok(true) {
        validationErrors := Assign(validationErrors, IntKey(ErrorRecordExist), RecordExistError(criteria));
      }
    }

    /** Runs the three tests in order, each only while the previous ones
      passed and its field list is not empty. */
    method Validated(data: PhpValue, find: RecordFinder) returns (r: Result<bool, Exception>)
      modifies this`validationErrors
      ensures Verdict(r, validationErrors) ==
              Validation(mandatoryFields, uniqueRecordFields, old(validationErrors), data, find)
    {
      var ok := IsAssocArray([data]);
      assert [data][1..] == [];
      if ok && mandatoryFields != [] {
        ok := TestMandatoryFields(data.entries);
      }
      if ok && uniqueRecordFields != [] {
        var found := TestRecordExist(data.entries, find);
        if found.Err? {
          return Err(found.error);
        }
        ok := !found.value;
      }
      r := Ok(ok);
    }

    /** The error log, every entry recorded since construction. */
    function GetError(): ErrorLog
      reads this
    {
      validationErrors
    }
  }
}
