/**
  The parts of java.lang.String and java.util.StringJoiner that the query
  builders rely on: ASCII case folding, literal substring search,
  replaceFirst/replaceAll with a literal pattern, and joining with a
  prefix, a delimiter and a suffix.
 */
module Strings {
  import opened Wrappers

  // ---------------------------------------------------------------------
  // Case folding (ASCII letters only)
  // ---------------------------------------------------------------------

  function UpperChar(c: char): char {
    if 'a' <= c <= 'z' then (c as int - 32) as char else c
  }

  function LowerChar(c: char): char {
    if 'A' <= c <= 'Z' then (c as int + 32) as char else c
  }

  /** String.toUpperCase, restricted to ASCII letters. */
  function ToUpper(s: string): (r: string)
    ensures |r| == |s|
    ensures forall i :: 0 <= i < |s| ==> r[i] == UpperChar(s[i])
  {
    if s == [] then [] else [UpperChar(s[0])] + ToUpper(s[1..])
  }

  /** String.toLowerCase, restricted to ASCII letters. */
  function ToLower(s: string): (r: string)
    ensures |r| == |s|
    ensures forall i :: 0 <= i < |s| ==> r[i] == LowerChar(s[i])
  {
    if s == [] then [] else [LowerChar(s[0])] + ToLower(s[1..])
  }

  /** String.equalsIgnoreCase, restricted to ASCII letters. */
  predicate EqualsIgnoreCase(a: string, b: string) {
    |a| == |b| && forall i :: 0 <= i < |a| ==> UpperChar(a[i]) == UpperChar(b[i])
  }

  // ---------------------------------------------------------------------
  // Literal substring search
  // ---------------------------------------------------------------------

  function Shift(o: Option<nat>, k: nat): Option<nat> {
    match o
    case None => None
    case Some(i) => Some(i + k)
  }

  /** p occurs in s at position j. */
  predicate MatchAt(s: string, p: string, j: nat) {
    j + |p| <= |s| && s[j..j + |p|] == p
  }

  /** String.indexOf: the first position at which p occurs in s. */
  function IndexOf(s: string, p: string): (r: Option<nat>)
    ensures r.Some? ==> MatchAt(s, p, r.value)
    ensures forall j: nat :: (r.None? || j < r.value) ==> !MatchAt(s, p, j)
    decreases |s|
  {
    if |s| < |p| then None
    else if s[..|p|] == p then
      assert MatchAt(s, p, 0);
      Some(0)
    else
      var r := Shift(IndexOf(s[1..], p), 1);
      assert forall j: nat :: 1 <= j ==> MatchAt(s, p, j) == MatchAt(s[1..], p, j - 1);
      assert !MatchAt(s, p, 0);
      r
  }

  /** String.contains */
  predicate Contains(s: string, p: string) {
    IndexOf(s, p).Some?
  }

  /** String.replaceFirst with a pattern that has no regular-expression meta-characters. */
  function ReplaceFirst(s: string, p: string, r: string): string {
    match IndexOf(s, p)
    case None => s
    case Some(k) => s[..k] + r + s[k + |p|..]
  }

  /**
    String.replaceAll with a pattern that has no regular-expression
    meta-characters and a replacement without '$' or '\': the occurrences
    of p are found from left to right and do not overlap.
   */
  function ReplaceAll(s: string, p: string, r: string): string
    requires |p| > 0
    decreases |s|
  {
    if |s| < |p| then s
    else if s[..|p|] == p then r + ReplaceAll(s[|p|..], p, r)
    else [s[0]] + ReplaceAll(s[1..], p, r)
  }

  // ---------------------------------------------------------------------
  // StringJoiner
  // ---------------------------------------------------------------------

  /** The elements of parts with sep between neighbours. */
  function JoinParts(parts: seq<string>, sep: string): string {
    if parts == [] then ""
    else if |parts| == 1 then parts[0]
    else parts[0] + sep + JoinParts(parts[1..], sep)
  }

  /** new StringJoiner(sep, prefix, suffix) after adding every element of parts. */
  function Join(parts: seq<string>, sep: string, prefix: string, suffix: string): string {
    prefix + JoinParts(parts, sep) + suffix
  }

  lemma {:induction false} JoinPartsSnoc(parts: seq<string>, x: string, sep: string)
    requires parts != []
    ensures JoinParts(parts + [x], sep) == JoinParts(parts, sep) + sep + x
  {
    if |parts| == 1 {
      assert parts + [x] == [parts[0], x];
    } else {
      assert (parts + [x])[1..] == parts[1..] + [x];
      JoinPartsSnoc(parts[1..], x, sep);
    }
  }

  // ---------------------------------------------------------------------
  // Decimal rendering of an index ("%d")
  // ---------------------------------------------------------------------

  function DigitChar(d: nat): char
    requires d < 10
  {
    ['0', '1', '2', '3', '4', '5', '6', '7', '8', '9'][d]
  }

  function NatToString(n: nat): (r: string)
    ensures |r| > 0
    ensures forall i :: 0 <= i < |r| ==> '0' <= r[i] <= '9'
  {
    if n < 10 then [DigitChar(n)] else NatToString(n / 10) + [DigitChar(n % 10)]
  }

  // ---------------------------------------------------------------------
  // Lemmas about search and replacement
  // ---------------------------------------------------------------------

  /** IndexOf is determined by its two postconditions. */
  lemma IndexOfUnique(s: string, p: string, o: Option<nat>)
    requires o.Some? ==> MatchAt(s, p, o.value)
    requires forall j: nat :: (o.None? || j < o.value) ==> !MatchAt(s, p, j)
    ensures IndexOf(s, p) == o
  {
  }

  lemma MatchAtLeft(a: string, b: string, p: string, j: nat)
    requires j + |p| <= |a|
    ensures MatchAt(a + b, p, j) == MatchAt(a, p, j)
  {
    assert (a + b)[j..j + |p|] == a[j..j + |p|];
  }

  lemma MatchAtRight(a: string, b: string, p: string, j: nat)
    requires |a| <= j
    ensures MatchAt(a + b, p, j) == MatchAt(b, p, j - |a|)
  {
    if j + |p| <= |a + b| {
      assert (a + b)[j..j + |p|] == b[j - |a|..j - |a| + |p|];
    }
  }

  /** Every character covered by an occurrence of p is a character of p. */
  lemma MatchAtCovers(s: string, p: string, j: nat, i: nat)
    requires MatchAt(s, p, j) && j <= i < j + |p|
    ensures s[i] == p[i - j] && s[i] in p
  {
    assert s[j..j + |p|][i - j] == s[i];
  }

  /** No occurrence in s means no occurrence in any suffix of s. */
  lemma NoMatchSuffix(s: string, p: string, k: nat)
    requires k <= |s|
    requires IndexOf(s, p).None?
    ensures IndexOf(s[k..], p).None?
  {
    var t := s[k..];
    assert s == s[..k] + t;
    if IndexOf(t, p).Some? {
      MatchAtRight(s[..k], t, p, k + IndexOf(t, p).value);
    }
  }

  /** Replacing a pattern that does not occur changes nothing. */
  lemma {:induction false} ReplaceAllNoMatch(s: string, p: string, r: string)
    requires |p| > 0
    requires IndexOf(s, p).None?
    ensures ReplaceAll(s, p, r) == s
    decreases |s|
  {
    if |s| >= |p| {
      assert !MatchAt(s, p, 0);
      NoMatchSuffix(s, p, 1);
      ReplaceAllNoMatch(s[1..], p, r);
    }
  }

  /** A pattern without a space cannot match across a space: replacement works on each side. */
  lemma {:induction false} ReplaceAllSplitAtSpace(a: string, b: string, p: string, r: string)
    requires |p| > 0 && ' ' !in p
    ensures ReplaceAll(a + " " + b, p, r) == ReplaceAll(a, p, r) + " " + ReplaceAll(b, p, r)
    decreases |a|
  {
    var s := a + " " + b;
    if |s| < |p| {
    } else if s[..|p|] == p {
      if |p| > |a| {
        MatchAtCovers(s, p, 0, |a|);
        assert false;
      }
      assert a[..|p|] == p;
      assert s[|p|..] == a[|p|..] + " " + b;
      ReplaceAllSplitAtSpace(a[|p|..], b, p, r);
      assert ReplaceAll(a, p, r) == r + ReplaceAll(a[|p|..], p, r);
    } else if a == [] {
      assert s[1..] == b;
    } else {
      assert s[1..] == a[1..] + " " + b;
      ReplaceAllSplitAtSpace(a[1..], b, p, r);
      if |a| >= |p| {
        assert a[..|p|] == s[..|p|];
      }
      assert ReplaceAll(a, p, r) == [a[0]] + ReplaceAll(a[1..], p, r);
    }
  }

  /** A pattern without a space cannot be found across a space. */
  lemma IndexOfSplitAtSpace(a: string, b: string, p: string)
    requires |p| > 0 && ' ' !in p
    ensures IndexOf(a + " " + b, p) ==
      if IndexOf(a, p).Some? then IndexOf(a, p) else Shift(IndexOf(b, p), |a| + 1)
  {
    var s := a + " " + b;
    assert s == a + (" " + b);
    assert s == (a + " ") + b;
    var o := if IndexOf(a, p).Some? then IndexOf(a, p) else Shift(IndexOf(b, p), |a| + 1);
    forall j: nat | j <= |a|
      ensures MatchAt(s, p, j) == MatchAt(a, p, j)
    {
      if j + |p| <= |a| {
        MatchAtLeft(a, " " + b, p, j);
      } else {
        if MatchAt(s, p, j) {
          MatchAtCovers(s, p, j, |a|);
        }
      }
    }
    forall j: nat | |a| + 1 <= j
      ensures MatchAt(s, p, j) == MatchAt(b, p, j - |a| - 1)
    {
      MatchAtRight(a + " ", b, p, j);
    }
    if IndexOf(a, p).None? && IndexOf(b, p).Some? {
      assert MatchAt(s, p, IndexOf(b, p).value + |a| + 1);
    }
    IndexOfUnique(s, p, o);
  }

  /** No proper suffix of q is a prefix of b: no occurrence of q can end inside b's start. */
  predicate NoSuffixBegins(q: string, b: string) {
    forall k: nat :: 1 <= k < |q| && |q| - k <= |b| ==> b[..|q| - k] != q[k..]
  }

  /** An occurrence of q that straddles the end of a leaves a suffix of q at the start of b. */
  lemma StraddleSuffix(a: string, b: string, q: string, j: nat)
    requires MatchAt(a + b, q, j)
    requires j < |a| < j + |q|
    ensures b[..|q| - (|a| - j)] == q[|a| - j..]
  {
    var s := a + b;
    assert b[..|q| - (|a| - j)] == s[|a|..j + |q|];
    assert s[|a|..j + |q|] == s[j..j + |q|][|a| - j..];
  }

  lemma NoStraddle(a: string, b: string, q: string, j: nat)
    requires NoSuffixBegins(q, b)
    requires j < |a| < j + |q|
    ensures !MatchAt(a + b, q, j)
  {
    if MatchAt(a + b, q, j) {
      StraddleSuffix(a, b, q, j);
      assert false;
    }
  }

  /**
    When no occurrence of q lies in a and no proper suffix of q begins b,
    the first occurrence in a + b is the first occurrence in b.
   */
  lemma IndexOfConcat(a: string, b: string, q: string)
    requires |q| > 0
    requires IndexOf(a, q).None?
    requires NoSuffixBegins(q, b)
    ensures IndexOf(a + b, q) == Shift(IndexOf(b, q), |a|)
  {
    var s := a + b;
    forall j: nat | j < |a|
      ensures !MatchAt(s, q, j)
    {
      if j + |q| <= |a| {
        MatchAtLeft(a, b, q, j);
      } else {
        NoStraddle(a, b, q, j);
      }
    }
    forall j: nat | |a| <= j
      ensures MatchAt(s, q, j) == MatchAt(b, q, j - |a|)
    {
      MatchAtRight(a, b, q, j);
    }
    var ib := IndexOf(b, q);
    if ib.Some? {
      assert MatchAt(s, q, ib.value + |a|);
    }
    IndexOfUnique(s, q, Shift(ib, |a|));
  }

  /** A text that q's first character does not occur in hides no occurrence of q, even at its edge. */
  lemma NoFirstCharPrefix(a: string, b: string, q: string)
    requires |q| > 0 && q[0] !in a
    requires IndexOf(b, q).None?
    ensures IndexOf(a + b, q).None?
  {
    var s := a + b;
    forall j: nat
      ensures !MatchAt(s, q, j)
    {
      if j < |a| {
        if MatchAt(s, q, j) {
          MatchAtCovers(s, q, j, j);
        }
      } else {
        MatchAtRight(a, b, q, j);
      }
    }
    IndexOfUnique(s, q, None);
  }

  /** An occurrence of p at the start becomes r, so a prefix q of the result begins with r's first character. */
  lemma ReplacedPrefix(y: string, p: string, r: string, q: string)
    requires |p| > 0 && |r| > 0 && |q| > 0
    requires |p| <= |y| && y[..|p|] == p
    requires |q| <= |ReplaceAll(y, p, r)| && ReplaceAll(y, p, r)[..|q|] == q
    ensures q[0] == r[0]
  {
    assert ReplaceAll(y, p, r)[..|q|][0] == ReplaceAll(y, p, r)[0];
  }

  /**
    If the replaced text begins with q, and q does not contain the first
    character of the replacement, the original text began with q.
   */
  lemma {:induction false} PrefixThroughReplace(y: string, p: string, r: string, q: string)
    requires |p| > 0 && |r| > 0 && r[0] !in q
    requires |q| <= |ReplaceAll(y, p, r)| && ReplaceAll(y, p, r)[..|q|] == q
    ensures |q| <= |y| && y[..|q|] == q
    decreases |y|
  {
    if q == [] {
    } else if |y| < |p| {
    } else if y[..|p|] == p {
      ReplacedPrefix(y, p, r, q);
      assert false;
    } else {
      var t := ReplaceAll(y[1..], p, r);
      assert ReplaceAll(y, p, r) == [y[0]] + t;
      assert t[..|q| - 1] == q[1..];
      PrefixThroughReplace(y[1..], p, r, q[1..]);
      assert y == [y[0]] + y[1..];
    }
  }

  /**
    Replacement creates no new occurrence of q when q does not begin with a
    character of the replacement and the replacement's first character is not in q.
   */
  lemma {:induction false} NoMatchPreserved(s: string, p: string, r: string, q: string)
    requires |p| > 0 && |r| > 0 && |q| > 0
    requires q[0] !in r && r[0] !in q
    requires IndexOf(s, q).None?
    ensures IndexOf(ReplaceAll(s, p, r), q).None?
    decreases |s|
  {
    var t := ReplaceAll(s, p, r);
    if |s| < |p| {
    } else if s[..|p|] == p {
      NoMatchSuffix(s, q, |p|);
      NoMatchPreserved(s[|p|..], p, r, q);
      NoFirstCharPrefix(r, ReplaceAll(s[|p|..], p, r), q);
    } else {
      var u := ReplaceAll(s[1..], p, r);
      NoMatchSuffix(s, q, 1);
      NoMatchPreserved(s[1..], p, r, q);
      assert t == [s[0]] + u;
      if MatchAt(t, q, 0) {
        assert u[..|q| - 1] == t[..|q|][1..] == q[1..];
        PrefixThroughReplace(s[1..], p, r, q[1..]);
        assert false;
      }
      forall j: nat
        ensures !MatchAt(t, q, j)
      {
        if j > 0 {
          MatchAtRight([s[0]], u, q, j);
        }
      }
      IndexOfUnique(t, q, None);
    }
  }

  /** Replacing a one-character pattern works on both halves of a concatenation independently. */
  lemma {:induction false} ReplaceAllCharConcat(x: string, y: string, d: char, r: string)
    ensures ReplaceAll(x + y, [d], r) == ReplaceAll(x, [d], r) + ReplaceAll(y, [d], r)
    decreases |x|
  {
    if x == [] {
      assert x + y == y;
    } else {
      assert (x + y)[1..] == x[1..] + y;
      assert (x + y)[..1] == x[..1];
      ReplaceAllCharConcat(x[1..], y, d, r);
    }
  }

  lemma ReplaceAllOneChar(c: char, d: char, r: string)
    ensures ReplaceAll([c], [d], r) == if c == d then r else [c]
  {
    assert [c][..1] == [c];
    assert [c][1..] == [];
  }

  /** A one-character pattern that does not occur leaves the text unchanged. */
  lemma {:induction false} ReplaceAllCharAbsent(s: string, d: char, r: string)
    requires d !in s
    ensures ReplaceAll(s, [d], r) == s
    decreases |s|
  {
    if s != [] {
      assert s[..1] == [s[0]];
      ReplaceAllCharAbsent(s[1..], d, r);
    }
  }

  /** A text that begins with p finds it at position 0. */
  lemma IndexOfAtStart(s: string, p: string)
    requires |p| <= |s| && s[..|p|] == p
    ensures IndexOf(s, p) == Some(0)
  {
    assert MatchAt(s, p, 0);
  }

  /** When q's first character does not occur in a, the first occurrence in a + b is the one in b. */
  lemma FirstCharAbsent(a: string, b: string, q: string)
    requires |q| > 0 && q[0] !in a
    ensures IndexOf(a + b, q) == Shift(IndexOf(b, q), |a|)
  {
    var s := a + b;
    forall j: nat | j < |a|
      ensures !MatchAt(s, q, j)
    {
      if MatchAt(s, q, j) {
        MatchAtCovers(s, q, j, j);
      }
    }
    forall j: nat | |a| <= j
      ensures MatchAt(s, q, j) == MatchAt(b, q, j - |a|)
    {
      MatchAtRight(a, b, q, j);
    }
    var ib := IndexOf(b, q);
    if ib.Some? {
      assert MatchAt(s, q, ib.value + |a|);
    }
    IndexOfUnique(s, q, Shift(ib, |a|));
  }

  /** A text beginning with a character that q has only at its start cannot begin with a proper suffix of q. */
  lemma NoSuffixBeginsFirstChar(q: string, b: string)
    requires |q| > 0 && |b| > 0 && b[0] !in q[1..]
    ensures NoSuffixBegins(q, b)
  {
    forall k: nat | 1 <= k < |q| && |q| - k <= |b|
      ensures b[..|q| - k] != q[k..]
    {
      assert q[k] == q[1..][k - 1];
      assert b[..|q| - k][0] == b[0];
      assert q[k..][0] == q[k];
    }
  }

  /**
    Replacing p by r and then r by p gives the text back, provided the text
    has no r of its own and r's first character does not recur in r.
   */
  lemma {:induction false} ReplaceAllRoundTrip(s: string, p: string, r: string)
    requires |p| > 0 && |r| > 0 && r[0] !in r[1..]
    requires IndexOf(s, r).None?
    ensures ReplaceAll(ReplaceAll(s, p, r), r, p) == s
    decreases |s|
  {
    if |s| < |p| {
      ReplaceAllNoMatch(s, r, p);
    } else if s[..|p|] == p {
      var t := ReplaceAll(s[|p|..], p, r);
      NoMatchSuffix(s, r, |p|);
      ReplaceAllRoundTrip(s[|p|..], p, r);
      assert (r + t)[..|r|] == r;
      assert (r + t)[|r|..] == t;
      assert s == p + s[|p|..];
    } else {
      var t := ReplaceAll(s[1..], p, r);
      var u := [s[0]] + t;
      assert ReplaceAll(s, p, r) == u;
      NoMatchSuffix(s, r, 1);
      ReplaceAllRoundTrip(s[1..], p, r);
      if |u| >= |r| && u[..|r|] == r {
        assert t[..|r| - 1] == u[..|r|][1..];
        PrefixThroughReplace(s[1..], p, r, r[1..]);
        assert false;
      }
      if |u| < |r| {
        assert |t| < |r|;
      } else {
        assert u[1..] == t;
      }
      assert s == [s[0]] + s[1..];
    }
  }

  /**
    After every p is replaced by r no p is left, provided p's first
    character is not in r and r's first character is not in the rest of p.
   */
  lemma {:induction false} ReplaceAllRemoves(s: string, p: string, r: string)
    requires |p| > 0 && |r| > 0 && p[0] !in r && r[0] !in p[1..]
    ensures IndexOf(ReplaceAll(s, p, r), p).None?
    decreases |s|
  {
    if |s| < |p| {
    } else if s[..|p|] == p {
      ReplaceAllRemoves(s[|p|..], p, r);
      NoFirstCharPrefix(r, ReplaceAll(s[|p|..], p, r), p);
    } else {
      var t := ReplaceAll(s[1..], p, r);
      var u := [s[0]] + t;
      assert ReplaceAll(s, p, r) == u;
      ReplaceAllRemoves(s[1..], p, r);
      if MatchAt(u, p, 0) {
        assert t[..|p| - 1] == u[..|p|][1..];
        PrefixThroughReplace(s[1..], p, r, p[1..]);
        assert false;
      }
      forall j: nat
        ensures !MatchAt(u, p, j)
      {
        if j > 0 {
          MatchAtRight([s[0]], t, p, j);
        }
      }
      IndexOfUnique(u, p, None);
    }
  }

  /** A single-character pattern is absent exactly when the character does not occur. */
  lemma CharAbsent(s: string, c: char)
    ensures IndexOf(s, [c]).None? <==> c !in s
  {
    if c in s {
      var i :| 0 <= i < |s| && s[i] == c;
      assert s[i..i + 1] == [c];
      assert MatchAt(s, [c], i);
    } else {
      FirstCharAbsent(s, "", [c]);
      assert s + "" == s;
    }
  }

  /** Replacing in a + b leaves a alone when p's first character does not occur in a. */
  lemma {:induction false} ReplaceAllPrefixUntouched(a: string, b: string, p: string, r: string)
    requires |p| > 0 && p[0] !in a
    ensures ReplaceAll(a + b, p, r) == a + ReplaceAll(b, p, r)
    decreases |a|
  {
    if a != [] {
      var s := a + b;
      assert s[0] == a[0];
      if |s| >= |p| {
        assert s[..|p|][0] == a[0];
        assert s[1..] == a[1..] + b;
        ReplaceAllPrefixUntouched(a[1..], b, p, r);
        assert a == [a[0]] + a[1..];
      } else {
        assert |b| < |p|;
      }
    } else {
      assert a + b == b;
    }
  }

  // ---------------------------------------------------------------------
  // String.length: UTF-16 code units
  // ---------------------------------------------------------------------

  /** A character outside the Basic Multilingual Plane takes two UTF-16 code units. */
  function CodeUnits(c: char): nat {
    if c as int > 0xFFFF then 2 else 1
  }

  /** String.length, which counts UTF-16 code units rather than characters. */
  function Utf16Length(s: string): (r: nat)
    ensures |s| <= r <= 2 * |s|
    ensures (forall i :: 0 <= i < |s| ==> s[i] as int <= 0xFFFF) ==> r == |s|
  {
    if s == [] then 0 else CodeUnits(s[0]) + Utf16Length(s[1..])
  }

  /** Replacing the first p where it first occurs right after a. */
  lemma ReplaceFirstAfter(a: string, p: string, c: string, r: string)
    requires |p| > 0 && p[0] !in a
    ensures ReplaceFirst(a + p + c, p, r) == a + r + c
  {
    IndexOfAtStart(p + c, p);
    FirstCharAbsent(a, p + c, p);
    assert a + p + c == a + (p + c);
    var s := a + p + c;
    assert s[..|a|] == a;
    assert s[|a| + |p|..] == c;
  }

  /** Text without the first character of p is left alone by replacing p. */
  lemma ReplaceAllUntouched(s: string, p: string, r: string)
    requires |p| > 0 && p[0] !in s
    ensures ReplaceAll(s, p, r) == s
  {
    ReplaceAllPrefixUntouched(s, "", p, r);
    assert s + "" == s;
  }

  /** p cannot occur in s when one of its characters is missing from s. */
  lemma PatternCharAbsent(s: string, p: string, k: nat)
    requires k < |p| && p[k] !in s
    ensures IndexOf(s, p).None?
  {
    forall j: nat | MatchAt(s, p, j)
      ensures false
    {
      MatchAtCovers(s, p, j, j + k);
    }
    IndexOfUnique(s, p, None);
  }
}
