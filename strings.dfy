/** The PHP string functions the statement compiler uses (`implode`, `substr`
    with a negative length, `trim` with a character list, `str_replace`,
    `strtolower`), with the facts about them that the compiler's proofs need. */
module Strings {

  /** `implode(sep, parts)`. */
  function Join(parts: seq<string>, sep: string): string
  {
    if |parts| == 0 then ""
    else if |parts| == 1 then parts[0]
    else Join(parts[..|parts| - 1], sep) + sep + parts[|parts| - 1]
  }

  /** What a loop builds when it appends `sep + part` for every part. */
  function Prefixed(parts: seq<string>, sep: string): string
  {
    if parts == [] then ""
    else Prefixed(parts[..|parts| - 1], sep) + sep + parts[|parts| - 1]
  }

  /** What a loop builds when it appends `part + sep` for every part. */
  function Terminated(parts: seq<string>, sep: string): string
  {
    if parts == [] then ""
    else Terminated(parts[..|parts| - 1], sep) + parts[|parts| - 1] + sep
  }

  /** `substr(s, k)` for k >= 0 (PHP 8 gives "" past the end). */
  function DropFirst(s: string, k: nat): string
  {
    if k <= |s| then s[k..] else ""
  }

  /** `substr(s, 0, -k)` for k >= 0 (PHP 8 gives "" when s is shorter than k). */
  function DropLast(s: string, k: nat): string
  {
    if k <= |s| then s[..|s| - k] else ""
  }

  lemma {:induction false} PrefixedIsJoin(parts: seq<string>, sep: string)
    requires parts != []
    ensures |Prefixed(parts, sep)| >= |sep|
    ensures DropFirst(Prefixed(parts, sep), |sep|) == Join(parts, sep)
  {
    var n := |parts|;
    if n > 1 {
      PrefixedIsJoin(parts[..n - 1], sep);
      var front := Prefixed(parts[..n - 1], sep);
      assert Prefixed(parts, sep) == front + sep + parts[n - 1];
      assert (front + sep + parts[n - 1])[|sep|..] == front[|sep|..] + sep + parts[n - 1];
    }
  }

  lemma {:induction false} TerminatedIsJoin(parts: seq<string>, sep: string)
    ensures DropLast(Terminated(parts, sep), |sep|) == Join(parts, sep)
  {
    var n := |parts|;
    if n == 1 {
      assert parts[..0] == [];
    } else if n > 1 {
      TerminatedIsJoin(parts[..n - 1], sep);
      var front := Terminated(parts[..n - 1], sep);
      assert |front| >= |sep| by { TerminatedLength(parts[..n - 1], sep); }
      assert Terminated(parts, sep) == front + parts[n - 1] + sep;
      assert (front + parts[n - 1] + sep)[..|front| + |parts[n - 1]|] == front + parts[n - 1];
      assert front == front[..|front| - |sep|] + sep;
    }
  }

  lemma {:induction false} TerminatedLength(parts: seq<string>, sep: string)
    requires parts != []
    ensures |Terminated(parts, sep)| >= |sep|
  {
  }

  /** Appending one part to a prefixed or terminated list. */
  lemma AppendPart(parts: seq<string>, p: string, sep: string)
    ensures Prefixed(parts + [p], sep) == Prefixed(parts, sep) + sep + p
    ensures Terminated(parts + [p], sep) == Terminated(parts, sep) + p + sep
  {
    assert (parts + [p])[..|parts|] == parts;
  }

  // ---------------------------------------------------------------------------
  // strtolower (ASCII)

  predicate IsUpper(c: char)
  {
    'A' <= c <= 'Z'
  }

  function LowerChar(c: char): char
  {
    if IsUpper(c) then (c as int + 32) as char else c
  }

  /** `strtolower`: ASCII letters only, every other character unchanged. */
  function Lower(s: string): (r: string)
    ensures |r| == |s|
    ensures forall k :: 0 <= k < |s| ==> r[k] == LowerChar(s[k])
  {
    seq(|s|, k requires 0 <= k < |s| => LowerChar(s[k]))
  }

  lemma LowerHasNoUpper(s: string)
    ensures forall k :: 0 <= k < |s| ==> !IsUpper(Lower(s)[k])
    ensures Lower(Lower(s)) == Lower(s)
  {
  }

  // ---------------------------------------------------------------------------
  // trim($s, $chars)

  function TrimLeft(s: string, cs: set<char>): (r: string)
    ensures |r| <= |s| && r == s[|s| - |r|..]
    ensures r != [] ==> r[0] !in cs
  {
    if s != [] && s[0] in cs then TrimLeft(s[1..], cs) else s
  }

  function TrimRight(s: string, cs: set<char>): (r: string)
    ensures |r| <= |s| && r == s[..|r|]
    ensures r != [] ==> r[|r| - 1] !in cs
  {
    if s != [] && s[|s| - 1] in cs then TrimRight(s[..|s| - 1], cs) else s
  }

  /** `trim`: strip the listed characters from both ends. */
  function Trim(s: string, cs: set<char>): (r: string)
    ensures r != [] ==> r[0] !in cs && r[|r| - 1] !in cs
  {
    var left := TrimLeft(s, cs);
    var r := TrimRight(left, cs);
    assert r != [] ==> r[0] == left[0];
    r
  }

  /** `trim` removes exactly a leading run and a trailing run of listed
      characters around a core that starts and ends with unlisted ones. */
  lemma {:induction false} TrimLeftStrips(pre: string, rest: string, cs: set<char>)
    requires forall k :: 0 <= k < |pre| ==> pre[k] in cs
    requires rest != [] ==> rest[0] !in cs
    ensures TrimLeft(pre + rest, cs) == rest
  {
    if pre != [] {
      assert (pre + rest)[1..] == pre[1..] + rest;
      TrimLeftStrips(pre[1..], rest, cs);
    }
  }

  lemma {:induction false} TrimRightStrips(rest: string, post: string, cs: set<char>)
    requires forall k :: 0 <= k < |post| ==> post[k] in cs
    requires rest != [] ==> rest[|rest| - 1] !in cs
    ensures TrimRight(rest + post, cs) == rest
  {
    if post != [] {
      var n := |post| - 1;
      assert (rest + post)[..|rest + post| - 1] == rest + post[..n];
      TrimRightStrips(rest, post[..n], cs);
    } else {
      assert rest + post == rest;
    }
  }

  lemma TrimStrips(pre: string, core: string, post: string, cs: set<char>)
    requires forall k :: 0 <= k < |pre| ==> pre[k] in cs
    requires forall k :: 0 <= k < |post| ==> post[k] in cs
    requires core != [] && core[0] !in cs && core[|core| - 1] !in cs
    ensures Trim(pre + core + post, cs) == core
  {
    assert pre + core + post == pre + (core + post);
    TrimLeftStrips(pre, core + post, cs);
    TrimRightStrips(core, post, cs);
  }

  // ---------------------------------------------------------------------------
  // str_replace('.+', '%', $s): one left-to-right scan, matches do not overlap

  predicate HasDotPlus(s: string)
  {
    exists k :: 0 <= k < |s| - 1 && s[k] == '.' && s[k + 1] == '+'
  }

  function ReplaceDotPlus(s: string): string
  {
    if |s| < 2 then s
    else if s[0] == '.' && s[1] == '+' then "%" + ReplaceDotPlus(s[2..])
    else [s[0]] + ReplaceDotPlus(s[1..])
  }

  /** The first character of the rewritten string. */
  lemma ReplaceDotPlusHead(s: string)
    requires s != []
    ensures ReplaceDotPlus(s) != []
    ensures ReplaceDotPlus(s)[0] == if |s| >= 2 && s[0] == '.' && s[1] == '+' then '%' else s[0]
  {
  }

  /** The last character of the rewritten string is the original last one or '%'. */
  lemma {:induction false} ReplaceDotPlusLast(s: string)
    requires s != []
    ensures ReplaceDotPlus(s) != []
    ensures var r := ReplaceDotPlus(s); r[|r| - 1] == s[|s| - 1] || r[|r| - 1] == '%'
  {
    if |s| >= 2 {
      if s[0] == '.' && s[1] == '+' {
        if |s| > 2 { ReplaceDotPlusLast(s[2..]); }
      } else {
        ReplaceDotPlusLast(s[1..]);
      }
    }
  }

  /** Every character of the result is '%' or a character of the input. */
  lemma {:induction false} ReplaceDotPlusChars(s: string)
    ensures forall k :: 0 <= k < |ReplaceDotPlus(s)| ==> ReplaceDotPlus(s)[k] == '%' || ReplaceDotPlus(s)[k] in s
  {
    if |s| >= 2 {
      if s[0] == '.' && s[1] == '+' {
        ReplaceDotPlusChars(s[2..]);
      } else {
        ReplaceDotPlusChars(s[1..]);
      }
    }
  }

  /** No `.+` survives the replacement. */
  lemma {:induction false} ReplaceDotPlusComplete(s: string)
    ensures !HasDotPlus(ReplaceDotPlus(s))
  {
    if |s| >= 2 {
      if s[0] == '.' && s[1] == '+' {
        ReplaceDotPlusComplete(s[2..]);
        var t := ReplaceDotPlus(s[2..]);
        assert forall k :: 1 <= k < |t| ==> ("%" + t)[k] == t[k - 1];
      } else {
        ReplaceDotPlusComplete(s[1..]);
        ReplaceDotPlusHead(s[1..]);
        var t := ReplaceDotPlus(s[1..]);
        assert forall k :: 1 <= k < |t| + 1 ==> ([s[0]] + t)[k] == t[k - 1];
      }
    }
  }

  /** A string without `.+` is left as it is, so the replacement is idempotent. */
  lemma {:induction false} ReplaceDotPlusIdentity(s: string)
    requires !HasDotPlus(s)
    ensures ReplaceDotPlus(s) == s
  {
    if |s| >= 2 {
      assert !(s[0] == '.' && s[1] == '+');
      ReplaceDotPlusIdentity(s[1..]);
    }
  }

  // ---------------------------------------------------------------------------
  // str_replace('`', '``', $s) and its inverse

  function EscapeBackticks(s: string): string
  {
    if s == [] then []
    else (if s[0] == '`' then "``" else [s[0]]) + EscapeBackticks(s[1..])
  }

  /** Reads an escaped identifier back: "``" stands for one backtick. */
  function UnescapeBackticks(s: string): string
  {
    if |s| >= 2 && s[0] == '`' && s[1] == '`' then "`" + UnescapeBackticks(s[2..])
    else if s == [] then []
    else [s[0]] + UnescapeBackticks(s[1..])
  }

  /** Backticks in the escaped text come in pairs: a single one never appears. */
  predicate PairedBackticks(s: string)
  {
    if s == [] then true
    else if s[0] == '`' then |s| >= 2 && s[1] == '`' && PairedBackticks(s[2..])
    else PairedBackticks(s[1..])
  }

  lemma {:induction false} EscapeRoundTrip(s: string)
    ensures PairedBackticks(EscapeBackticks(s))
    ensures UnescapeBackticks(EscapeBackticks(s)) == s
  {
    if s != [] {
      EscapeRoundTrip(s[1..]);
      var rest := EscapeBackticks(s[1..]);
      if s[0] == '`' {
        assert EscapeBackticks(s) == "``" + rest;
        assert ("``" + rest)[2..] == rest;
      } else {
        assert EscapeBackticks(s) == [s[0]] + rest;
        assert ([s[0]] + rest)[1..] == rest;
      }
    }
  }
}
