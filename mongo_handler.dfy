/** The document-store handler (src/Handlers/MongoDBHandler.php). It keeps
    the selected database and the default collection; each public operation
    rewrites the criteria into the driver's form and issues one driver call
    on a collection. Here an operation returns the driver call it would
    issue (a `Request`); what the driver answers is a parameter where the
    handler reads it. */
module MongoHandlers {
  import opened Php
  import opened PatternLiterals
  import opened SortOrders
  import opened Validators

  /** A criteria value as the driver receives it: the value itself, an
      ObjectId built from the value, or a regular expression built from a
      pattern literal (slashes and flag included). */
  datatype MongoValue = Plain(v: Scalar) | ObjectId(id: Scalar) | Regex(pattern: string)

  type MongoCriteria = seq<(Key, MongoValue)>

  const IdKey: Key := StrKey("id")
  const ObjectIdKey: Key := StrKey("_id")

  /** The criteria as they stand before any rewriting. */
  function Lift(c: PhpArray): (r: MongoCriteria)
    ensures |r| == |c|
  {
    seq(|c|, k requires 0 <= k < |c| => (c[k].0, Plain(c[k].1)))
  }

  /** A set 'id' criterion becomes an ObjectId under '_id' (overwriting an
      existing '_id' in place or appending), and 'id' is dropped. */
  function IdMoved(c: PhpArray): MongoCriteria
  {
    if IsSetIn(c, IdKey) then Unset(Assign(Lift(c), ObjectIdKey, ObjectId(Lookup(c, IdKey).value)), IdKey)
    else Lift(c)
  }

  /** A plain pattern literal becomes a regular expression; nothing else
      changes. */
  function AsRegex(v: MongoValue): MongoValue
  {
    if v.Plain? && Classify(v.v) != NotPattern then Regex(v.v.s) else v
  }

  /** Every value passed through `AsRegex`, keys and order kept. */
  function Regexed(m: MongoCriteria): (r: MongoCriteria)
    ensures |r| == |m|
  {
    seq(|m|, k requires 0 <= k < |m| => (m[k].0, AsRegex(m[k].1)))
  }

  /** `normalize_criteria`: move 'id', then turn every pattern literal into a
      regular expression. */
  function NormalizedCriteria(c: PhpArray): MongoCriteria
  {
    Regexed(IdMoved(c))
  }

  /** The driver calls the handler issues. */
  datatype Request =
    | Find(coll: Scalar, criteria: MongoCriteria, projection: PhpArray, sort: Option<PhpArray>, limit: Option<Scalar>)
    | FindOne(coll: Scalar, criteria: MongoCriteria, projection: PhpArray)
      /** `update(criteria, {'$set': data}, {'multiple': true})`: every match. */
    | UpdateAll(coll: Scalar, criteria: MongoCriteria, changes: PhpValue)
    | Remove(coll: Scalar, criteria: MongoCriteria)
    | Insert(coll: Scalar, doc: PhpValue)

  /** The collection an operation uses: the one named by a truthy table
      argument (which needs the database), else the default collection.
      Calling the driver on a missing object is an error. */
  function CollectionFor(dbSelected: bool, coll: Option<Scalar>, tblArg: Scalar): (r: Result<Scalar, Exception>)
    ensures r.Err? ==> r.error == CallOnNull
  {
    if Truthy(tblArg) then (if dbSelected then Ok(tblArg) else Err(CallOnNull))
    else if coll.Some? then Ok(coll.value)
    else Err(CallOnNull)
  }

  function GetRequest(dbSelected: bool, coll: Option<Scalar>, criteria: PhpArray, projection: PhpArray,
                      sort: PhpArray, limit: Scalar, tblArg: Scalar): Result<Request, Exception>
  {
    match CollectionFor(dbSelected, coll, tblArg)
    case Err(e) => Err(e)
    case Ok(c) =>
      var lim := if Truthy(limit) then Some(limit) else None;
      if sort == [] then Ok(Find(c, NormalizedCriteria(criteria), projection, None, lim))
      else
        match NormalizedSort(Document, sort)
        case Err(e) => Err(e)
        case Ok(s) => Ok(Find(c, NormalizedCriteria(criteria), projection, Some(s), lim))
  }

  function GetOneRequest(dbSelected: bool, coll: Option<Scalar>, criteria: PhpArray, projection: PhpArray,
                         tblArg: Scalar): Result<Request, Exception>
  {
    match CollectionFor(dbSelected, coll, tblArg)
    case Err(e) => Err(e)
    case Ok(c) => Ok(FindOne(c, NormalizedCriteria(criteria), projection))
  }

  function UpdateRequest(dbSelected: bool, coll: Option<Scalar>, criteria: PhpArray, data: PhpValue,
                         tblArg: Scalar): Result<Request, Exception>
  {
    match CollectionFor(dbSelected, coll, tblArg)
    case Err(e) => Err(e)
    case Ok(c) => Ok(UpdateAll(c, NormalizedCriteria(criteria), data))
  }

  function DeleteRequest(dbSelected: bool, coll: Option<Scalar>, criteria: PhpArray, tblArg: Scalar): Result<Request, Exception>
  {
    match CollectionFor(dbSelected, coll, tblArg)
    case Err(e) => Err(e)
    case Ok(c) => Ok(Remove(c, NormalizedCriteria(criteria)))
  }

  /** The `getOne` the validator calls during `add`: a findOne on the default
      collection, then whether the driver returns a document. */
  function LookupDocument(dbSelected: bool, coll: Option<Scalar>, docFound: Request -> bool,
                          criteria: PhpArray): Result<bool, Exception>
  {
    match GetOneRequest(dbSelected, coll, criteria, [], Null)
    case Err(e) => Err(e)
    case Ok(q) => Ok(docFound(q))
  }

  function Finder(dbSelected: bool, coll: Option<Scalar>, docFound: Request -> bool): RecordFinder
  {
    criteria => LookupDocument(dbSelected, coll, docFound, criteria)
  }

  /** What `add` does: validate, and only for valid data insert the record
      as given. */
  function AddOutcome(dbSelected: bool, coll: Option<Scalar>, mandatory: PhpArray, unique: PhpArray, errors: ErrorLog,
                      data: PhpValue, tblArg: Scalar, docFound: Request -> bool): (Result<Option<Request>, Exception>, ErrorLog)
  {
    var v := Validation(mandatory, unique, errors, data, Finder(dbSelected, coll, docFound));
    match v.result
    case Err(e) => (Err(e), v.errors)
    case Ok(false) => (Ok(None), v.errors)
    case Ok(true) =>
      match CollectionFor(dbSelected, coll, tblArg)
      case Err(e) => (Err(e), v.errors)
      case Ok(c) => (Ok(Some(Insert(c, data))), v.errors)
  }

  class MongoHandler {
    /** Whether the constructor selected a database. */
    const dbSelected: bool
    /** The default collection; None until one is set. */
    var coll: Option<Scalar>
    const validator: DataValidator

    constructor(dbSelected: bool)
      ensures this.dbSelected == dbSelected && coll == None
      ensures fresh(validator)
      ensures validator.mandatoryFields == [] && validator.uniqueRecordFields == [] && validator.validationErrors == []
    {
      this.dbSelected := dbSelected;
      coll := None;
      validator := new DataValidator();
    }

    /** Selects the default collection; refused without a database. */
    method SetTable(t: Scalar) returns (err: Option<Exception>)
      modifies this`coll
      ensures dbSelected ==> err == None && coll == Some(t)
      ensures !dbSelected ==> err == Some(LogicException) && coll == old(coll)
    {
      if !dbSelected {
        return Some(LogicException);
      }
      coll := Some(t);
      err := None;
    }

    /** `normalize_criteria`: move 'id' to '_id', then rewrite pattern
      literals in place. */
    static method NormalizeCriteria(criteria: PhpArray) returns (r: MongoCriteria)
      ensures r == NormalizedCriteria(criteria)
    {
      r := Lift(criteria);
      if IsSetIn(criteria, IdKey) {
        r := Assign(r, ObjectIdKey, ObjectId(Lookup(criteria, IdKey).value));
        r := Unset(r, IdKey);
      }
      ghost var moved := r;
      var i := 0;
      while i < |r|
        invariant 0 <= i <= |r| == |moved|
        invariant moved == IdMoved(criteria)
        invariant forall k :: 0 <= k < i ==> r[k] == (moved[k].0, AsRegex(moved[k].1))
        invariant r[i..] == moved[i..]
      {
        assert r[i] == moved[i];
        var value := r[i].1;
        if value.Plain? {
          var s := value.v;
          if s.Str? && |s.s| > 0 && s.s[0] == '/' &&
             (s.s[|s.s| - 1] == '/' || (|s.s| >= 2 && s.s[|s.s| - 2..] == "/i")) {
            ClassifyMatchesTest(s);
            r := r[i := (r[i].0, Regex(s.s))];
          } else {
            ClassifyMatchesTest(s);
          }
        }
        i := i + 1;
      }
    }

    /** The two rewrites of one direction, "asc" first and then "desc". */
    static method RewriteDirection(d: Scalar) returns (v: Scalar)
      ensures v == Rewrite(Document, d)
    {
      v := d;
      if MatchesWord(ScalarString(v), "asc") {
        v := Int(1);
      }
      if MatchesWord(ScalarString(v), "desc") {
        v := Int(-1);
      }
    }

    /** `normalize_sort`: rewrite 'ASC'/'DESC' (any case) to 1/-1 in place,
      rejecting any other value than 1 or -1. */
    static method NormalizeSort(sort: PhpArray) returns (r: Result<PhpArray, Exception>)
      ensures r == NormalizedSort(Document, sort)
    {
      var a := sort;
      var i := 0;
      while i < |a|
        invariant 0 <= i <= |a| == |sort|
        invariant NormalizedSort(Document, sort[..i]) == Ok(a[..i])
        invariant forall j :: i <= j < |a| ==> a[j] == sort[j]
      {
        var v := RewriteDirection(a[i].1);
        NormalizedSortNext(Document, sort, a, i, v);
        if v != Int(1) && v != Int(-1) {
          return Err(InvalidArgumentException(Scal(v)));
        }
        a := a[i := (a[i].0, v)];
        i := i + 1;
      }
      assert sort[..i] == sort && a[..i] == a;
      r := Ok(a);
    }

    function Collection(tblArg: Scalar): Result<Scalar, Exception>
      reads this
    {
      CollectionFor(dbSelected, coll, tblArg)
    }

    /** `get`: a find on the collection, sorted only for a non-empty sort and
      limited only for a truthy limit. */
    method Get(criteria: PhpArray, projection: PhpArray, sort: PhpArray, limit: Scalar, tblArg: Scalar)
      returns (r: Result<Request, Exception>)
      ensures r == GetRequest(dbSelected, coll, criteria, projection, sort, limit, tblArg)
    {
      var c := Collection(tblArg);
      if c.Err? {
        return Err(c.error);
      }
      var nc := NormalizeCriteria(criteria);
      var s: Option<PhpArray> := None;
      if sort != [] {
        var ns := NormalizeSort(sort);
        if ns.Err? {
          return Err(ns.error);
        }
        s := Some(ns.value);
      }
      var lim: Option<Scalar> := None;
      if Truthy(limit) {
        lim := Some(limit);
      }
      r := Ok(Find(c.value, nc, projection, s, lim));
    }

    method GetOne(criteria: PhpArray, projection: PhpArray, tblArg: Scalar) returns (r: Result<Request, Exception>)
      ensures r == GetOneRequest(dbSelected, coll, criteria, projection, tblArg)
    {
      var c := Collection(tblArg);
      if c.Err? {
        return Err(c.error);
      }
      var nc := NormalizeCriteria(criteria);
      r := Ok(FindOne(c.value, nc, projection));
    }

    method Update(criteria: PhpArray, data: PhpValue, tblArg: Scalar) returns (r: Result<Request, Exception>)
      ensures r == UpdateRequest(dbSelected, coll, criteria, data, tblArg)
    {
      var c := Collection(tblArg);
      if c.Err? {
        return Err(c.error);
      }
      var nc := NormalizeCriteria(criteria);
      r := Ok(UpdateAll(c.value, nc, data));
    }

    method Delete(criteria: PhpArray, tblArg: Scalar) returns (r: Result<Request, Exception>)
      ensures r == DeleteRequest(dbSelected, coll, criteria, tblArg)
    {
      var c := Collection(tblArg);
      if c.Err? {
        return Err(c.error);
      }
      var nc := NormalizeCriteria(criteria);
      r := Ok(Remove(c.value, nc));
    }

    /** `add`: validate (the lookup is this handler's own getOne), then
      insert the record on the chosen collection. */
    method Add(data: PhpValue, tblArg: Scalar, docFound: Request -> bool) returns (r: Result<Option<Request>, Exception>)
      modifies validator`validationErrors
      ensures (r, validator.validationErrors) ==
              AddOutcome(dbSelected, coll, validator.mandatoryFields, validator.uniqueRecordFields,
                         old(validator.validationErrors), data, tblArg, docFound)
    {
      var ok := validator.Validated(data, Finder(dbSelected, coll, docFound));
      if ok.Err? {
        return Err(ok.error);
      }
      if !ok.value {
        return Ok(None);
      }
      var c := Collection(tblArg);
      if c.Err? {
        return Err(c.error);
      }
      r := Ok(Some(Insert(c.value, data)));
    }
  }
}
