/** The pattern-literal test both handlers apply to criteria values
    (src/Handlers/MySQLHandler.php:133, src/Handlers/MongoDBHandler.php:78):
    a string that starts with '/' and ends with '/' (case-sensitive) or,
    failing that, ends with "/i" (case-insensitive). */
module PatternLiterals {
  import opened Php

  datatype PatternKind = NotPattern | CaseSensitive | CaseInsensitive

  /** Non-strings never qualify: their string form (`substr` casts them) never
      starts with '/'. */
  function Classify(v: Scalar): (k: PatternKind)
    ensures k != NotPattern ==> v.Str?
    ensures k == CaseInsensitive ==> |v.s| >= 2
  {
    match v
    case Str(s) =>
      if |s| > 0 && s[0] == '/' then
        if s[|s| - 1] == '/' then CaseSensitive
        else if |s| >= 2 && s[|s| - 2..] == "/i" then CaseInsensitive
        else NotPattern
      else NotPattern
    case _ => NotPattern
  }

  /** The test as one predicate: both handlers accept exactly the same values. */
  predicate IsPatternLiteral(v: Scalar)
  {
    v.Str? && |v.s| > 0 && v.s[0] == '/' &&
    (v.s[|v.s| - 1] == '/' || (|v.s| >= 2 && v.s[|v.s| - 2..] == "/i"))
  }

  lemma ClassifyMatchesTest(v: Scalar)
    ensures Classify(v) != NotPattern <==> IsPatternLiteral(v)
    ensures Classify(v) == CaseInsensitive <==> IsPatternLiteral(v) && v.s[|v.s| - 1] != '/'
  {
  }
}
