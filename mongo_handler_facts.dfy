/** What the document-store handler guarantees, stated on the functions of
    module MongoHandlers. */
module MongoHandlerFacts {
  import opened Php
  import opened PatternLiterals
  import opened SqlFragments
  import opened SortOrders
  import opened Validators
  import opened MongoHandlers

  /** Lifting keeps every key and wraps every value. */
  lemma {:induction false} LiftLookup(c: PhpArray, k: Key)
    ensures Lookup(Lift(c), k) == if HasKey(c, k) then Some(Plain(Lookup(c, k).value)) else None
  {
    if c != [] {
      assert Lift(c)[1..] == Lift(c[1..]);
      LiftLookup(c[1..], k);
    }
  }

  /** Rewriting values keeps every key and rewrites what it reads. */
  lemma {:induction false} RegexedLookup(m: MongoCriteria, k: Key)
    ensures Lookup(Regexed(m), k) == if HasKey(m, k) then Some(AsRegex(Lookup(m, k).value)) else None
  {
    if m != [] {
      assert Regexed(m)[1..] == Regexed(m[1..]);
      RegexedLookup(m[1..], k);
    }
  }

  /** Key by key: a set 'id' is gone and '_id' holds an ObjectId of its
      value; every other key reads its old value, as a regular expression
      when it was a pattern literal. A null 'id' is not set, so it stays. */
  lemma NormalizedCriteriaLookup(c: PhpArray, k: Key)
    ensures Lookup(NormalizedCriteria(c), k) ==
            if IsSetIn(c, IdKey) && k == IdKey then None
            else if IsSetIn(c, IdKey) && k == ObjectIdKey then Some(ObjectId(Lookup(c, IdKey).value))
            else if HasKey(c, k) then Some(AsRegex(Plain(Lookup(c, k).value)))
            else None
  {
    var m := IdMoved(c);
    RegexedLookup(m, k);
    LiftLookup(c, k);
    if IsSetIn(c, IdKey) {
      var lifted := Assign(Lift(c), ObjectIdKey, ObjectId(Lookup(c, IdKey).value));
      UnsetLookup(lifted, IdKey, k);
      AssignLookup(Lift(c), ObjectIdKey, ObjectId(Lookup(c, IdKey).value), k);
    }
  }

  /** Normalizing never creates a second entry under a key. */
  lemma NormalizedCriteriaUnique(c: PhpArray)
    requires UniqueKeys(c)
    ensures UniqueKeys(NormalizedCriteria(c))
  {
    assert forall p :: 0 <= p < |c| ==> Lift(c)[p].0 == c[p].0;
    var m := IdMoved(c);
    if IsSetIn(c, IdKey) {
      var lifted := Assign(Lift(c), ObjectIdKey, ObjectId(Lookup(c, IdKey).value));
      AssignUnique(Lift(c), ObjectIdKey, ObjectId(Lookup(c, IdKey).value));
      UnsetUnique(lifted, IdKey);
    }
    assert forall p :: 0 <= p < |m| ==> Regexed(m)[p].0 == m[p].0;
  }

  /** Both backends treat the same values as patterns: a value becomes a
      regular expression here exactly when the relational WHERE compares it
      with LIKE, and the expression keeps the literal whole. */
  lemma RegexIffLike(v: Scalar, field: string, tag: string)
    ensures AsRegex(Plain(v)).Regex? <==> WhereClause(field, v, tag) != "(" + field + " = :" + tag + ")"
    ensures AsRegex(Plain(v)).Regex? <==> IsPatternLiteral(v)
    ensures AsRegex(Plain(v)).Regex? ==> AsRegex(Plain(v)) == Regex(v.s)
  {
    ClassifyMatchesTest(v);
    var eq := "(" + field + " = :" + tag + ")";
    if Classify(v) != NotPattern {
      assert |WhereClause(field, v, tag)| > |eq|;
    }
  }

  /** A find sorts only for a non-empty sort array, every direction then
      rewritten to 1 or -1 under the same key, and limits only for a truthy
      limit; a rejected direction aborts it. */
  lemma GetRequestShape(dbSelected: bool, coll: Option<Scalar>, criteria: PhpArray, projection: PhpArray,
                        sort: PhpArray, limit: Scalar, tblArg: Scalar)
    requires CollectionFor(dbSelected, coll, tblArg).Ok?
    ensures var r := GetRequest(dbSelected, coll, criteria, projection, sort, limit, tblArg);
            && (r.Ok? <==> forall i :: 0 <= i < |sort| ==> Direction(Document, sort[i].1).Ok?)
            && (r.Ok? ==>
                  && r.value.Find?
                  && r.value.coll == CollectionFor(dbSelected, coll, tblArg).value
                  && r.value.criteria == NormalizedCriteria(criteria)
                  && (r.value.sort.None? <==> sort == [])
                  && (r.value.sort.Some? ==>
                        |r.value.sort.value| == |sort| &&
                        forall i :: 0 <= i < |sort| ==>
                          r.value.sort.value[i].0 == sort[i].0 && r.value.sort.value[i].1 in {Int(1), Int(-1)})
                  && (r.value.limit.Some? <==> Truthy(limit)))
  {
    NormalizedSortShape(Document, sort);
  }

  /** The table argument, when truthy, names the collection (unlike the
      relational getOne); with neither it nor a default collection, every
      operation fails calling the driver on null. */
  lemma CollectionChoice(dbSelected: bool, coll: Option<Scalar>, criteria: PhpArray, projection: PhpArray,
                         data: PhpValue, tblArg: Scalar)
    ensures Truthy(tblArg) && dbSelected ==>
              GetOneRequest(dbSelected, coll, criteria, projection, tblArg) ==
              Ok(FindOne(tblArg, NormalizedCriteria(criteria), projection))
    ensures !Truthy(tblArg) && coll == None ==>
              && GetOneRequest(dbSelected, coll, criteria, projection, tblArg) == Err(CallOnNull)
              && UpdateRequest(dbSelected, coll, criteria, data, tblArg) == Err(CallOnNull)
              && DeleteRequest(dbSelected, coll, criteria, tblArg) == Err(CallOnNull)
    ensures !Truthy(tblArg) && coll.Some? ==>
              UpdateRequest(dbSelected, coll, criteria, data, tblArg) ==
              Ok(UpdateAll(coll.value, NormalizedCriteria(criteria), data))
  {
  }

  /** add inserts exactly when validation accepts and a collection is
      chosen, and then inserts the record unchanged; a rejection inserts
      nothing. The error log is the validation's. */
  lemma AddInserts(dbSelected: bool, coll: Option<Scalar>, mandatory: PhpArray, unique: PhpArray, errors: ErrorLog,
                   data: PhpValue, tblArg: Scalar, docFound: Request -> bool)
    ensures var a := AddOutcome(dbSelected, coll, mandatory, unique, errors, data, tblArg, docFound);
            var v := Validation(mandatory, unique, errors, data, Finder(dbSelected, coll, docFound));
            && a.1 == v.errors
            && (a.0.Ok? && a.0.value.Some? <==> v.result == Ok(true) && CollectionFor(dbSelected, coll, tblArg).Ok?)
            && (a.0.Ok? && a.0.value.Some? ==>
                  a.0.value.value == Insert(CollectionFor(dbSelected, coll, tblArg).value, data))
            && (v.result == Ok(false) ==> a.0 == Ok(None))
  {
  }

  /** The lookup during validation always uses the default collection:
      without one, add fails as soon as validation reaches the lookup, even
      when a table argument names a collection. */
  lemma AddLookupUsesDefault(dbSelected: bool, mandatory: PhpArray, unique: PhpArray, errors: ErrorLog,
                             data: PhpValue, tblArg: Scalar, docFound: Request -> bool)
    requires ReachesLookup(mandatory, unique, data)
    ensures AddOutcome(dbSelected, None, mandatory, unique, errors, data, tblArg, docFound) == (Err(CallOnNull), errors)
  {
    assert [data][1..] == [];
    assert AssocFailure([data]) == None;
    var criteria := RecordCriteria(unique, data.entries);
    assert Finder(dbSelected, None, docFound)(criteria) == Err(CallOnNull);
  }
}
