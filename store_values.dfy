/**
  The column values a criteria query works on, as the store sees them:
  how LIKE matches a value against a pattern and how ORDER BY compares
  two values.

  LIKE is the SQL pattern match: '%' matches any run of characters, '_'
  any single character, every other character itself. Collation (case
  and accent folding) and the escape character belong to the store and
  are not modelled; the comparison is by character code. A value that
  is not text is matched through its text rendering; NULL matches no
  pattern.
 */
module StoreValues {
  import opened Wrappers
  import opened Strings
  import opened Entities

  datatype Value = Null | Number(n: int) | Text(s: string) | Fixed(d: Decimal) | Moment(t: DateTime)

  const MULTI_WILDCARD: char := '%'
  const SINGLE_WILDCARD: char := '_'

  // ---------------------------------------------------------------------
  // LIKE
  // ---------------------------------------------------------------------

  /** s LIKE p */
  predicate Like(s: string, p: string)
    decreases |p|, |s|
  {
    if p == [] then s == []
    else if p[0] == MULTI_WILDCARD then Like(s, p[1..]) || (s != [] && Like(s[1..], p))
    else s != [] && (p[0] == SINGLE_WILDCARD || p[0] == s[0]) && Like(s[1..], p[1..])
  }

  /** A search expression in which neither wildcard occurs. */
  predicate NoWildcards(e: string) {
    forall i :: 0 <= i < |e| ==> e[i] != MULTI_WILDCARD && e[i] != SINGLE_WILDCARD
  }

  /** The pattern extractPredicates builds around a search expression. */
  function ContainsPattern(e: string): (p: string)
    ensures |p| == |e| + 2 && p[0] == MULTI_WILDCARD && p[|p| - 1] == MULTI_WILDCARD
  {
    [MULTI_WILDCARD] + e + [MULTI_WILDCARD]
  }

  lemma {:induction false} LikeAnything(s: string)
    ensures Like(s, [MULTI_WILDCARD])
    decreases |s|
  {
    assert [MULTI_WILDCARD][1..] == [];
    if s != [] {
      LikeAnything(s[1..]);
    }
  }

  /** e followed by '%' matches exactly the strings that start with e. */
  lemma {:induction false} LikePrefix(s: string, e: string)
    requires NoWildcards(e)
    ensures Like(s, e + [MULTI_WILDCARD]) <==> e <= s
    decreases |e|
  {
    var p := e + [MULTI_WILDCARD];
    if e == [] {
      assert p == [MULTI_WILDCARD];
      LikeAnything(s);
    } else {
      assert p[0] == e[0] && p[1..] == e[1..] + [MULTI_WILDCARD];
      assert NoWildcards(e[1..]);
      if s != [] {
        LikePrefix(s[1..], e[1..]);
        assert e <= s <==> e[0] == s[0] && e[1..] <= s[1..];
      }
    }
  }

  /** '%' followed by q matches exactly the strings with a suffix that q matches. */
  lemma {:induction false} LikeAfterWildcard(s: string, q: string)
    ensures Like(s, [MULTI_WILDCARD] + q) <==> exists k :: 0 <= k <= |s| && Like(s[k..], q)
    decreases |s|
  {
    var p := [MULTI_WILDCARD] + q;
    assert p[0] == MULTI_WILDCARD && p[1..] == q;
    assert s[0..] == s;
    if s != [] {
      LikeAfterWildcard(s[1..], q);
      if Like(s[1..], p) {
        var k :| 0 <= k <= |s[1..]| && Like(s[1..][k..], q);
        assert s[1..][k..] == s[k + 1..];
      }
      if k :| 1 <= k <= |s| && Like(s[k..], q) {
        assert s[1..][k - 1..] == s[k..];
      }
    }
  }

  /** With no wildcards in e, the pattern "%e%" matches exactly the strings containing e. */
  lemma LikeContains(s: string, e: string)
    requires NoWildcards(e)
    ensures Like(s, ContainsPattern(e)) <==> Contains(s, e)
  {
    assert ContainsPattern(e) == [MULTI_WILDCARD] + (e + [MULTI_WILDCARD]);
    LikeAfterWildcard(s, e + [MULTI_WILDCARD]);
    if Like(s, ContainsPattern(e)) {
      var k :| 0 <= k <= |s| && Like(s[k..], e + [MULTI_WILDCARD]);
      LikePrefix(s[k..], e);
      assert MatchAt(s, e, k);
    }
    if Contains(s, e) {
      var k := IndexOf(s, e).value;
      LikePrefix(s[k..], e);
      assert e <= s[k..];
    }
  }

  /** An empty search expression gives "%%", which matches every string. */
  lemma LikeEmptyExpression(s: string)
    ensures Like(s, ContainsPattern(""))
  {
    assert ContainsPattern("") == [MULTI_WILDCARD] + [MULTI_WILDCARD];
    LikeAfterWildcard(s, [MULTI_WILDCARD]);
    assert s[0..] == s;
    LikeAnything(s);
  }

  // ---------------------------------------------------------------------
  // Text renderings of values that are not text
  // ---------------------------------------------------------------------

  function IntToString(n: int): string {
    if n < 0 then "-" + NatToString(-n) else NatToString(n)
  }

  /** s padded on the left with '0' to at least width characters. */
  function Pad(s: string, width: nat): (r: string)
    ensures |r| >= width && |r| >= |s|
  {
    if |s| >= width then s else seq(width - |s|, _ => '0') + s
  }

  /** A decimal in plain notation: sign, integer digits and, for a positive scale, the fraction. */
  function PlainString(d: Decimal): string {
    var sign := if d.unscaled < 0 then "-" else "";
    var digits := NatToString(if d.unscaled < 0 then -d.unscaled else d.unscaled);
    if d.scale <= 0 then sign + digits + (if d.unscaled == 0 then "" else seq(-d.scale, _ => '0'))
    else
      var padded := Pad(digits, d.scale + 1);
      var point := |padded| - d.scale;
      sign + padded[..point] + "." + padded[point..]
  }

  /** A date-time as yyyy-MM-dd HH:mm:ss; the fraction of a second is dropped. */
  function DateTimeString(t: DateTime): string {
    Pad(IntToString(t.year), 4) + "-" + Pad(IntToString(t.month), 2) + "-" + Pad(IntToString(t.day), 2) + " " +
    Pad(IntToString(t.hour), 2) + ":" + Pad(IntToString(t.minute), 2) + ":" + Pad(IntToString(t.second), 2)
  }

  /** The text LIKE sees for a value; NULL has none. */
  function TextOf(v: Value): Option<string> {
    match v
    case Null => None
    case Number(n) => Some(IntToString(n))
    case Text(s) => Some(s)
    case Fixed(d) => Some(PlainString(d))
    case Moment(t) => Some(DateTimeString(t))
  }

  /** value LIKE pattern holds; NULL LIKE anything is unknown, which a WHERE treats as false. */
  predicate LikeValue(v: Value, pattern: string) {
    TextOf(v).Some? && Like(TextOf(v).value, pattern)
  }

  // ---------------------------------------------------------------------
  // Ordering
  // ---------------------------------------------------------------------

  function Sign(x: int): (r: int)
    ensures r == -1 || r == 0 || r == 1
    ensures r < 0 <==> x < 0
    ensures r > 0 <==> x > 0
  {
    if x < 0 then -1 else if x > 0 then 1 else 0
  }

  /** Lexicographic comparison by character code. */
  function CompareText(a: string, b: string): (r: int)
    ensures r == -1 || r == 0 || r == 1
  {
    if a == [] || b == [] then Sign(|a| - |b|)
    else if a[0] != b[0] then Sign(a[0] as int - b[0] as int)
    else CompareText(a[1..], b[1..])
  }

  /** Lexicographic comparison of integer tuples. */
  function CompareInts(a: seq<int>, b: seq<int>): (r: int)
    ensures r == -1 || r == 0 || r == 1
  {
    if a == [] || b == [] then Sign(|a| - |b|)
    else if a[0] != b[0] then Sign(a[0] - b[0])
    else CompareInts(a[1..], b[1..])
  }

  function Max(a: int, b: int): int {
    if a < b then b else a
  }

  /** Numeric comparison of two decimals, whatever their scales. */
  function CompareDecimals(a: Decimal, b: Decimal): (r: int)
    ensures r == -1 || r == 0 || r == 1
  {
    var s := Max(a.scale, b.scale);
    Sign(a.unscaled * Pow10(s - a.scale) - b.unscaled * Pow10(s - b.scale))
  }

  function DateTimeFields(t: DateTime): seq<int> {
    [t.year, t.month, t.day, t.hour, t.minute, t.second, t.nano]
  }

  /** NULL sorts first; values of one attribute share a kind, and kinds are ranked so that any two values compare. */
  function Rank(v: Value): int {
    match v
    case Null => 0
    case Number(_) => 1
    case Fixed(_) => 2
    case Text(_) => 3
    case Moment(_) => 4
  }

  /** The sign of u - v in the store's ascending order. */
  function CompareValues(u: Value, v: Value): (r: int)
    ensures r == -1 || r == 0 || r == 1
  {
    if Rank(u) != Rank(v) then Sign(Rank(u) - Rank(v))
    else
      match u
      case Null => 0
      case Number(m) => Sign(m - v.n)
      case Fixed(d) => CompareDecimals(d, v.d)
      case Text(s) => CompareText(s, v.s)
      case Moment(t) => CompareInts(DateTimeFields(t), DateTimeFields(v.t))
  }

  lemma {:induction false} CompareTextAntisymmetric(a: string, b: string)
    ensures CompareText(a, b) == -CompareText(b, a)
    ensures CompareText(a, b) == 0 <==> a == b
    decreases |a|
  {
    if a != [] && b != [] && a[0] == b[0] {
      CompareTextAntisymmetric(a[1..], b[1..]);
      assert a == [a[0]] + a[1..] && b == [b[0]] + b[1..];
    }
  }

  lemma {:induction false} CompareIntsAntisymmetric(a: seq<int>, b: seq<int>)
    ensures CompareInts(a, b) == -CompareInts(b, a)
    decreases |a|
  {
    if a != [] && b != [] && a[0] == b[0] {
      CompareIntsAntisymmetric(a[1..], b[1..]);
    }
  }

  /** Swapping the operands flips the comparison, so any two values are ordered one way or the other. */
  lemma CompareValuesAntisymmetric(u: Value, v: Value)
    ensures CompareValues(u, v) == -CompareValues(v, u)
  {
    if Rank(u) == Rank(v) {
      match u
      case Null =>
      case Number(_) =>
      case Fixed(d) =>
      case Text(s) => CompareTextAntisymmetric(s, v.s);
      case Moment(t) => CompareIntsAntisymmetric(DateTimeFields(t), DateTimeFields(v.t));
    }
  }

  /** Texts compare equal only when they are equal. */
  lemma TextOrderIsStrict(a: string, b: string)
    ensures CompareValues(Text(a), Text(b)) == 0 <==> a == b
  {
    CompareTextAntisymmetric(a, b);
  }

  /** NULL sorts before every other value. */
  lemma NullFirst(v: Value)
    ensures v != Null ==> CompareValues(Null, v) < 0
  {
  }

  /** Decimals compare by value: 1.0 and 1.00 are equal, 0.9 is less than 1. */
  lemma DecimalOrderExamples()
    ensures CompareValues(Fixed(Decimal(10, 1)), Fixed(Decimal(100, 2))) == 0
    ensures CompareValues(Fixed(Decimal(9, 1)), Fixed(Decimal(1, 0))) < 0
  {
    assert Pow10(1) == 10;
  }
}
