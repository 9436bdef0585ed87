/**
  SqlGiftCertificateDaoImpl.constructCorrectSql: a customizer's tail is
  spliced into a base query that already has its own WHERE. Every "WHERE"
  of the base query is hidden as "TEMP_VALUE", the customizer appends its
  clauses, the first remaining "WHERE" (the customizer's) becomes "AND (",
  a ")" closes the bracket before the first "ORDER BY" (or at the end),
  and the hidden words are restored.
 */
module SqlGiftCertificateDao {
  import opened Wrappers
  import opened Strings
  import opened QueryCustomization

  const WHERE: string := "WHERE"
  const TEMP_VALUE: string := "TEMP_VALUE"
  const AND_WITH_BRACKET: string := "AND ("
  const ORDER_BY: string := "ORDER BY"
  const ORDER_BY_WITH_BRACKET: string := ") ORDER BY"
  const RIGHT_BRACKET: string := ")"
  const LEFT_BRACKET: string := "("

  /** findByTagName's statement, in pieces short enough to check one at a time. */
  const QUERY_1: string := "SELECT gc.id, gc.name, "
  const QUERY_2: string := "description, price, "
  const QUERY_3: string := "durationInDays, "
  const QUERY_4: string := "create_date, "
  const QUERY_5: string := "last_update_date FROM "
  const QUERY_6: string := "gift_certificate gc INNER "
  const QUERY_7: string := "JOIN "
  const QUERY_8: string := "gift_certificate_has_tag "
  const QUERY_9: string := "gcht on gc.id = "
  const QUERY_10: string := "gcht.gift_certificate_id "
  const QUERY_11: string := "INNER JOIN tag t on "
  const QUERY_12: string := "gcht.tag_id = t.id WHERE "
  const QUERY_13: string := "t.name = ?"

  const FIND_BY_TAG_NAME_QUERY: string :=
    QUERY_1 + QUERY_2 + QUERY_3 + QUERY_4 + QUERY_5 +
    QUERY_6 + QUERY_7 + QUERY_8 + QUERY_9 + QUERY_10 +
    QUERY_11 + QUERY_12 + QUERY_13

  function Hide(sql: string): string {
    ReplaceAll(sql, WHERE, TEMP_VALUE)
  }

  function Restore(sql: string): string {
    ReplaceAll(sql, TEMP_VALUE, WHERE)
  }

  /** The customizer's WHERE becomes "AND (" and a ")" closes the bracket before ORDER BY or at the end. */
  function Bracket(prepared: string): string {
    var withAnd := ReplaceFirst(prepared, WHERE, AND_WITH_BRACKET);
    if Contains(withAnd, LEFT_BRACKET) then
      if Contains(withAnd, ORDER_BY) then ReplaceFirst(withAnd, ORDER_BY, ORDER_BY_WITH_BRACKET)
      else withAnd + RIGHT_BRACKET
    else withAnd
  }

  /** The rewriting steps of constructCorrectSql, given the customizer's two clauses. */
  function CorrectSql(sql: string, searchOperation: string, sortOperation: string): string {
    Restore(Bracket(Hide(sql) + " " + searchOperation + " " + sortOperation))
  }

  /** constructCorrectSql over a customizer object: the local query text is rewritten step by step. */
  method ConstructCorrectSql(sql: string, queryCustomizer: QueryCustomizer) returns (r: string)
    ensures r == CorrectSql(sql, SearchOperation(queryCustomizer.searchUnits), SortOperation(queryCustomizer.sortUnits))
  {
    r := ReplaceAll(sql, WHERE, TEMP_VALUE);
    r := queryCustomizer.PrepareQuery(r);
    r := ReplaceFirst(r, WHERE, AND_WITH_BRACKET);
    if Contains(r, LEFT_BRACKET) {
      if Contains(r, ORDER_BY) {
        r := ReplaceFirst(r, ORDER_BY, ORDER_BY_WITH_BRACKET);
      } else {
        r := r + RIGHT_BRACKET;
      }
    }
    r := ReplaceAll(r, TEMP_VALUE, WHERE);
  }

  /**
    findByTagName: the statement text comes from the constant query and the
    customizer alone; the tag name travels as the single bound parameter.
   */
  method FindByTagNameStatement(tagName: string, queryCustomizer: QueryCustomizer)
    returns (statement: string, parameters: seq<string>)
    ensures parameters == [tagName]
    ensures statement == CorrectSql(FIND_BY_TAG_NAME_QUERY,
      SearchOperation(queryCustomizer.searchUnits), SortOperation(queryCustomizer.sortUnits))
  {
    statement := ConstructCorrectSql(FIND_BY_TAG_NAME_QUERY, queryCustomizer);
    parameters := [tagName];
  }

  /** What the customizer's clauses become once spliced: the conditions bracketed after AND. */
  function Spliced(sql: string, conditions: Option<string>, sortKeys: Option<string>): string {
    match (conditions, sortKeys)
    case (None, None) => sql + "  "
    case (Some(x), None) => sql + " AND ( " + x + " )"
    case (None, Some(y)) => sql + "  ORDER BY " + y
    case (Some(x), Some(y)) => sql + " AND ( " + x + " ) ORDER BY " + y
  }

  function WhereClause(conditions: Option<string>): string {
    if conditions.None? then "" else "WHERE " + conditions.value
  }

  function OrderByClause(sortKeys: Option<string>): string {
    if sortKeys.None? then "" else "ORDER BY " + sortKeys.value
  }

  predicate Absent(s: string, p: string) {
    IndexOf(s, p).None?
  }

  // ---------------------------------------------------------------------
  // Hiding and restoring the base query's WHERE
  // ---------------------------------------------------------------------

  /** Restoring undoes hiding when the text has no TEMP_VALUE of its own. */
  lemma HideRestore(sql: string)
    requires Absent(sql, TEMP_VALUE)
    ensures Restore(Hide(sql)) == sql
  {
    ReplaceAllRoundTrip(sql, WHERE, TEMP_VALUE);
  }

  /** Hiding leaves no WHERE, and creates no "(" and no ORDER BY. */
  lemma HideFacts(sql: string)
    ensures Absent(Hide(sql), WHERE)
    ensures Absent(sql, LEFT_BRACKET) ==> Absent(Hide(sql), LEFT_BRACKET)
    ensures Absent(sql, ORDER_BY) ==> Absent(Hide(sql), ORDER_BY)
  {
    ReplaceAllRemoves(sql, WHERE, TEMP_VALUE);
    if Absent(sql, LEFT_BRACKET) {
      NoMatchPreserved(sql, WHERE, TEMP_VALUE, LEFT_BRACKET);
    }
    if Absent(sql, ORDER_BY) {
      NoMatchPreserved(sql, WHERE, TEMP_VALUE, ORDER_BY);
    }
  }

  // ---------------------------------------------------------------------
  // Steps of the splice
  // ---------------------------------------------------------------------

  /** A text starting with a space, not followed by 'B', cannot begin with a proper suffix of ORDER BY. */
  lemma OrderByNotAfterSpace(b: string)
    requires |b| >= 1 && b[0] == ' ' && (|b| >= 2 ==> b[1] != 'B')
    ensures NoSuffixBegins(ORDER_BY, b)
  {
    forall k: nat | 1 <= k < |ORDER_BY| && |ORDER_BY| - k <= |b|
      ensures b[..|ORDER_BY| - k] != ORDER_BY[k..]
    {
      if k == 5 {
        assert b[..3][1] == b[1];
        assert ORDER_BY[5..][1] == 'B';
      } else {
        assert b[..|ORDER_BY| - k][0] == ' ';
        assert ORDER_BY[k..][0] == ORDER_BY[k];
      }
    }
  }

  /** No ORDER BY in the base and the conditions means none before the sort clause either. */
  lemma OrderByAbsentInCondition(h: string, x: string)
    requires Absent(h, ORDER_BY) && Absent(x, ORDER_BY)
    ensures Absent(h + " AND ( " + x + " ", ORDER_BY)
  {
    OrderByNotAfterSpace(" ");
    IndexOfConcat(x, " ", ORDER_BY);
    FirstCharAbsent(" AND ( ", x + " ", ORDER_BY);
    var b := " AND ( " + (x + " ");
    OrderByNotAfterSpace(b);
    IndexOfConcat(h, b, ORDER_BY);
    assert h + " AND ( " + x + " " == h + b;
  }

  /** Restoring a text made of pieces joined by a space restores each piece. */
  lemma RestoreSplit(a: string, b: string)
    ensures Restore(a + " " + b) == Restore(a) + " " + Restore(b)
  {
    ReplaceAllSplitAtSpace(a, b, TEMP_VALUE, WHERE);
  }

  lemma RestorePlain(s: string)
    requires Absent(s, TEMP_VALUE)
    ensures Restore(s) == s
  {
    ReplaceAllNoMatch(s, TEMP_VALUE, WHERE);
  }

  /** Restoring leaves alone a leading piece without the letter T. */
  lemma RestoreAfter(a: string, b: string)
    requires 'T' !in a
    ensures Restore(a + b) == a + Restore(b)
  {
    ReplaceAllPrefixUntouched(a, b, TEMP_VALUE, WHERE);
  }

  /** The first WHERE of the prepared text is the customizer's, right after the hidden base and a space. */
  lemma OpenBracket(h: string, x: string, rest: string)
    requires Absent(h, WHERE)
    ensures ReplaceFirst(h + " " + ("WHERE " + x) + rest, WHERE, AND_WITH_BRACKET) ==
      h + " AND ( " + x + rest
  {
    var s := h + " " + ("WHERE " + x) + rest;
    var tail := " " + x + rest;
    assert s == h + " " + (WHERE + tail);
    IndexOfAtStart(WHERE + tail, WHERE);
    IndexOfSplitAtSpace(h, WHERE + tail, WHERE);
    var k := |h| + 1;
    assert s[..k] == h + " ";
    assert s[k + |WHERE|..] == tail;
  }

  /** Nothing after the base query opens the bracket: the WHERE search finds nothing. */
  lemma NoWhereAfterBase(h: string, b: string)
    requires Absent(h, WHERE) && Absent(b, WHERE) && |b| > 0 && b[0] == ' '
    ensures Absent(h + b, WHERE)
  {
    NoSuffixBeginsFirstChar(WHERE, b);
    IndexOfConcat(h, b, WHERE);
  }

  // ---------------------------------------------------------------------
  // The four shapes of the result
  // ---------------------------------------------------------------------

  lemma BracketNeither(h: string)
    requires Absent(h, WHERE) && Absent(h, LEFT_BRACKET)
    ensures Bracket(h + " " + "" + " " + "") == h + "  "
  {
    var prepared := h + " " + "" + " " + "";
    assert prepared == h + "  ";
    FirstCharAbsent("  ", "", WHERE);
    assert "  " + "" == "  ";
    NoWhereAfterBase(h, "  ");
    CharAbsent(h, '(');
    CharAbsent(prepared, '(');
  }

  lemma BracketSearchOnly(h: string, x: string)
    requires Absent(h, WHERE) && Absent(h, ORDER_BY) && Absent(x, ORDER_BY)
    ensures Bracket(h + " " + ("WHERE " + x) + " " + "") == h + " AND ( " + x + " )"
  {
    var prepared := h + " " + ("WHERE " + x) + " " + "";
    assert prepared == h + " " + ("WHERE " + x) + " ";
    OpenBracket(h, x, " ");
    var withAnd := h + " AND ( " + x + " ";
    assert withAnd[|h| + 5] == '(';
    CharAbsent(withAnd, '(');
    OrderByAbsentInCondition(h, x);
  }

  lemma BracketSortOnly(h: string, y: string)
    requires Absent(h, WHERE) && Absent(h, LEFT_BRACKET)
    requires Absent(y, LEFT_BRACKET) && Absent(y, WHERE)
    ensures Bracket(h + " " + "" + " " + ("ORDER BY " + y)) == h + "  ORDER BY " + y
  {
    var b := "  ORDER BY " + y;
    PreparedSortOnly(h, y);
    FirstCharAbsent("  ORDER BY ", y, WHERE);
    NoWhereAfterBase(h, b);
    NoLeftBracketAfter(h, "  ORDER BY ", y);
  }

  /** The prepared text with the sort clause alone, regrouped as the base and its tail. */
  lemma PreparedSortOnly(h: string, y: string)
    ensures h + " " + "" + " " + ("ORDER BY " + y) == h + ("  ORDER BY " + y)
    ensures h + "  ORDER BY " + y == h + ("  ORDER BY " + y)
  {
  }

  /** No "(" in three pieces, the middle one without '(', means none in the whole. */
  lemma NoLeftBracketAfter(h: string, m: string, y: string)
    requires Absent(h, LEFT_BRACKET) && Absent(y, LEFT_BRACKET) && '(' !in m
    ensures Absent(h + (m + y), LEFT_BRACKET)
  {
    CharAbsent(h, '(');
    CharAbsent(y, '(');
    CharAbsent(h + (m + y), '(');
  }

  /** The first ORDER BY is the sort clause's when the text before it has none. */
  lemma CloseBeforeOrderBy(a: string, y: string)
    requires Absent(a, ORDER_BY)
    ensures ReplaceFirst(a + ("ORDER BY " + y), ORDER_BY, ORDER_BY_WITH_BRACKET) == a + ") ORDER BY " + y
  {
    var b := "ORDER BY " + y;
    var s := a + b;
    NoSuffixBeginsFirstChar(ORDER_BY, b);
    IndexOfAtStart(b, ORDER_BY);
    IndexOfConcat(a, b, ORDER_BY);
    assert s[..|a|] == a;
    assert s[|a| + |ORDER_BY|..] == " " + y;
  }

  /** Once the bracket is open and the sort clause follows, ")" goes in front of its ORDER BY. */
  lemma BracketBeforeSort(prepared: string, a: string, y: string)
    requires ReplaceFirst(prepared, WHERE, AND_WITH_BRACKET) == a + ("ORDER BY " + y)
    requires '(' in a && Absent(a, ORDER_BY)
    ensures Bracket(prepared) == a + ") ORDER BY " + y
  {
    CharAbsent(a + ("ORDER BY " + y), '(');
    CloseBeforeOrderBy(a, y);
  }

  lemma OpenBeforeSort(h: string, x: string, y: string)
    requires Absent(h, WHERE)
    ensures ReplaceFirst(h + " " + ("WHERE " + x) + " " + ("ORDER BY " + y), WHERE, AND_WITH_BRACKET) ==
      (h + " AND ( " + x + " ") + ("ORDER BY " + y)
  {
    var prepared := h + " " + ("WHERE " + x) + " " + ("ORDER BY " + y);
    assert prepared == h + " " + ("WHERE " + x) + (" " + ("ORDER BY " + y));
    OpenBracket(h, x, " " + ("ORDER BY " + y));
    assert h + " AND ( " + x + (" " + ("ORDER BY " + y)) == (h + " AND ( " + x + " ") + ("ORDER BY " + y);
  }

  /** After the opening, the text before the sort clause holds the "(" and no ORDER BY. */
  lemma OpenedCondition(h: string, x: string)
    requires Absent(h, ORDER_BY) && Absent(x, ORDER_BY)
    ensures '(' in h + " AND ( " + x + " " && Absent(h + " AND ( " + x + " ", ORDER_BY)
  {
    var a := h + " AND ( " + x + " ";
    assert a[|h| + 5] == '(';
    OrderByAbsentInCondition(h, x);
  }

  lemma ClosedShape(h: string, x: string, y: string)
    ensures (h + " AND ( " + x + " ") + ") ORDER BY " + y == h + " AND ( " + x + " ) ORDER BY " + y
  {
  }

  lemma BracketBoth(h: string, x: string, y: string)
    requires Absent(h, WHERE) && Absent(h, ORDER_BY) && Absent(x, ORDER_BY)
    ensures Bracket(h + " " + ("WHERE " + x) + " " + ("ORDER BY " + y)) == h + " AND ( " + x + " ) ORDER BY " + y
  {
    OpenBeforeSort(h, x, y);
    OpenedCondition(h, x);
    BracketBeforeSort(h + " " + ("WHERE " + x) + " " + ("ORDER BY " + y), h + " AND ( " + x + " ", y);
    ClosedShape(h, x, y);
  }

  lemma RestoreNeither(h: string)
    ensures Restore(h + "  ") == Restore(h) + "  "
  {
    assert h + "  " == h + " " + " ";
    RestoreSplit(h, " ");
    RestoreAfter(" ", "");
  }

  lemma RestoreSearchOnly(h: string, x: string)
    requires Absent(x, TEMP_VALUE)
    ensures Restore(h + " AND ( " + x + " )") == Restore(h) + " AND ( " + x + " )"
  {
    var tail := x + " " + ")";
    assert h + " AND ( " + x + " )" == h + " " + ("AND ( " + tail);
    RestoreSplit(h, "AND ( " + tail);
    RestoreAfter("AND ( ", tail);
    RestoreSplit(x, ")");
    RestoreAfter(")", "");
    RestorePlain(x);
  }

  /** The spliced text of the sort clause alone is the base, a space and the tail. */
  lemma ShapeSortOnly(h: string, y: string)
    ensures h + "  ORDER BY " + y == h + " " + (" ORDER BY " + y)
  {
  }

  lemma RestoreSortOnly(h: string, y: string)
    requires Absent(y, TEMP_VALUE)
    ensures Restore(h + "  ORDER BY " + y) == Restore(h) + "  ORDER BY " + y
  {
    RestoreAfter(" ORDER BY ", y);
    RestorePlain(y);
    RestoreAfterBase(h, " ORDER BY " + y);
    ShapeSortOnly(h, y);
    ShapeSortOnly(Restore(h), y);
  }

  lemma RestoreClosedOrderBy(x: string, y: string)
    requires Absent(x, TEMP_VALUE) && Absent(y, TEMP_VALUE)
    ensures Restore(x + " ) ORDER BY " + y) == x + " ) ORDER BY " + y
  {
    assert x + " ) ORDER BY " + y == x + " " + (") ORDER BY " + y);
    RestoreSplit(x, ") ORDER BY " + y);
    RestoreAfter(") ORDER BY ", y);
    RestorePlain(x);
    RestorePlain(y);
  }

  lemma RestoreTailBoth(x: string, y: string)
    requires Absent(x, TEMP_VALUE) && Absent(y, TEMP_VALUE)
    ensures Restore("AND ( " + x + " ) ORDER BY " + y) == "AND ( " + x + " ) ORDER BY " + y
  {
    var tail := x + " ) ORDER BY " + y;
    assert "AND ( " + x + " ) ORDER BY " + y == "AND ( " + tail;
    RestoreAfter("AND ( ", tail);
    RestoreClosedOrderBy(x, y);
  }

  /** Restoring a base followed by a space and a text that restoring leaves alone. */
  lemma RestoreAfterBase(h: string, t: string)
    requires Restore(t) == t
    ensures Restore(h + " " + t) == Restore(h) + " " + t
  {
    RestoreSplit(h, t);
  }

  /** The spliced text of both clauses is the base, a space and the tail. */
  lemma ShapeBoth(h: string, x: string, y: string)
    ensures h + " AND ( " + x + " ) ORDER BY " + y == h + " " + ("AND ( " + x + " ) ORDER BY " + y)
  {
  }

  lemma RestoreBoth(h: string, x: string, y: string)
    requires Absent(x, TEMP_VALUE) && Absent(y, TEMP_VALUE)
    ensures Restore(h + " AND ( " + x + " ) ORDER BY " + y) == Restore(h) + " AND ( " + x + " ) ORDER BY " + y
  {
    RestoreTailBoth(x, y);
    RestoreAfterBase(h, "AND ( " + x + " ) ORDER BY " + y);
    ShapeBoth(h, x, y);
    ShapeBoth(Restore(h), x, y);
  }

  lemma SpliceNeither(sql: string)
    requires Absent(sql, TEMP_VALUE) && Absent(sql, LEFT_BRACKET)
    ensures CorrectSql(sql, "", "") == sql + "  "
  {
    HideFacts(sql);
    BracketNeither(Hide(sql));
    RestoreNeither(Hide(sql));
    HideRestore(sql);
  }

  lemma SpliceSearchOnly(sql: string, x: string)
    requires Absent(sql, TEMP_VALUE) && Absent(sql, ORDER_BY)
    requires Absent(x, TEMP_VALUE) && Absent(x, ORDER_BY)
    ensures CorrectSql(sql, "WHERE " + x, "") == sql + " AND ( " + x + " )"
  {
    HideFacts(sql);
    BracketSearchOnly(Hide(sql), x);
    RestoreSearchOnly(Hide(sql), x);
    HideRestore(sql);
  }

  lemma SpliceSortOnly(sql: string, y: string)
    requires Absent(sql, TEMP_VALUE) && Absent(sql, LEFT_BRACKET)
    requires Absent(y, TEMP_VALUE) && Absent(y, LEFT_BRACKET) && Absent(y, WHERE)
    ensures CorrectSql(sql, "", "ORDER BY " + y) == sql + "  ORDER BY " + y
  {
    HideFacts(sql);
    BracketSortOnly(Hide(sql), y);
    RestoreSortOnly(Hide(sql), y);
    HideRestore(sql);
  }

  lemma SpliceBoth(sql: string, x: string, y: string)
    requires Absent(sql, TEMP_VALUE) && Absent(sql, ORDER_BY)
    requires Absent(x, TEMP_VALUE) && Absent(x, ORDER_BY)
    requires Absent(y, TEMP_VALUE)
    ensures CorrectSql(sql, "WHERE " + x, "ORDER BY " + y) == sql + " AND ( " + x + " ) ORDER BY " + y
  {
    HideFacts(sql);
    BracketBoth(Hide(sql), x, y);
    RestoreBoth(Hide(sql), x, y);
    HideRestore(sql);
  }

  /**
    The splice in all four cases, for a base query with no TEMP_VALUE, no
    "(" and no ORDER BY, conditions with no TEMP_VALUE and no ORDER BY, and
    sort keys with no TEMP_VALUE, no "(" and no WHERE.
   */
  lemma CorrectSqlSplices(sql: string, conditions: Option<string>, sortKeys: Option<string>)
    requires Absent(sql, TEMP_VALUE) && Absent(sql, LEFT_BRACKET) && Absent(sql, ORDER_BY)
    requires conditions.Some? ==> Absent(conditions.value, TEMP_VALUE) && Absent(conditions.value, ORDER_BY)
    requires sortKeys.Some? ==>
      Absent(sortKeys.value, TEMP_VALUE) && Absent(sortKeys.value, LEFT_BRACKET) && Absent(sortKeys.value, WHERE)
    ensures CorrectSql(sql, WhereClause(conditions), OrderByClause(sortKeys)) == Spliced(sql, conditions, sortKeys)
  {
    match (conditions, sortKeys)
    case (None, None) => SpliceNeither(sql);
    case (Some(x), None) => SpliceSearchOnly(sql, x);
    case (None, Some(y)) => SpliceSortOnly(sql, y);
    case (Some(x), Some(y)) => SpliceBoth(sql, x, y);
  }

  /** The same splice stated for a customizer's own units. */
  lemma CustomizerSplice(sql: string, sortUnits: Option<seq<Units.TypedSortUnit>>, searchUnits: Option<seq<Units.SearchUnit>>)
    requires Absent(sql, TEMP_VALUE) && Absent(sql, LEFT_BRACKET) && Absent(sql, ORDER_BY)
    requires SearchConditions(searchUnits).Some? ==>
      Absent(SearchConditions(searchUnits).value, TEMP_VALUE) && Absent(SearchConditions(searchUnits).value, ORDER_BY)
    requires SortKeys(sortUnits).Some? ==>
      Absent(SortKeys(sortUnits).value, TEMP_VALUE) && Absent(SortKeys(sortUnits).value, LEFT_BRACKET) &&
      Absent(SortKeys(sortUnits).value, WHERE)
    ensures CorrectSql(sql, SearchOperation(searchUnits), SortOperation(sortUnits)) ==
      Spliced(sql, SearchConditions(searchUnits), SortKeys(sortUnits))
  {
    OperationsShape(sortUnits, searchUnits);
    CorrectSqlSplices(sql, SearchConditions(searchUnits), SortKeys(sortUnits));
  }

  /** The bracket step when the first ORDER BY follows the customizer's WHERE. */
  lemma BracketBeforeOrderBy(a: string, c: string, d: string)
    requires 'W' !in a && 'O' !in a && 'O' !in c
    ensures Bracket(a + WHERE + c + ORDER_BY + d) == a + AND_WITH_BRACKET + c + ORDER_BY_WITH_BRACKET + d
  {
    var w := a + AND_WITH_BRACKET + c;
    WhereFirstReplaced(a, c, d);
    assert w[|a| + 4] == '(';
    CharAbsent(w + ORDER_BY + d, '(');
    OrderByFirstReplaced(w, d);
  }

  lemma WhereFirstReplaced(a: string, c: string, d: string)
    requires 'W' !in a
    ensures ReplaceFirst(a + WHERE + c + ORDER_BY + d, WHERE, AND_WITH_BRACKET) == a + AND_WITH_BRACKET + c + ORDER_BY + d
  {
    assert a + WHERE + c + ORDER_BY + d == a + WHERE + (c + ORDER_BY + d);
    ReplaceFirstAfter(a, WHERE, c + ORDER_BY + d, AND_WITH_BRACKET);
    assert a + AND_WITH_BRACKET + (c + ORDER_BY + d) == a + AND_WITH_BRACKET + c + ORDER_BY + d;
  }

  lemma OrderByFirstReplaced(w: string, d: string)
    requires 'O' !in w
    ensures Contains(w + ORDER_BY + d, ORDER_BY)
    ensures ReplaceFirst(w + ORDER_BY + d, ORDER_BY, ORDER_BY_WITH_BRACKET) == w + ORDER_BY_WITH_BRACKET + d
  {
    ReplaceFirstAfter(w, ORDER_BY, d, ORDER_BY_WITH_BRACKET);
    IndexOfAtStart(ORDER_BY + d, ORDER_BY);
    FirstCharAbsent(w, ORDER_BY + d, ORDER_BY);
    assert w + ORDER_BY + d == w + (ORDER_BY + d);
  }

  /** The bracket step when no ORDER BY follows the customizer's WHERE. */
  lemma BracketClosedAtEnd(a: string, c: string)
    requires 'W' !in a && 'O' !in a && 'O' !in c
    ensures Bracket(a + WHERE + c) == a + AND_WITH_BRACKET + c + RIGHT_BRACKET
  {
    ReplaceFirstAfter(a, WHERE, c, AND_WITH_BRACKET);
    var w := a + AND_WITH_BRACKET + c;
    assert w[|a| + 4] == '(';
    CharAbsent(w, '(');
    NoFirstCharPrefix(w, "", ORDER_BY);
    assert w + "" == w;
  }

  /** Restoring replaces a TEMP_VALUE that follows a text without 'T'. */
  lemma RestorePlaceholder(h: string, t: string)
    requires 'T' !in h && 'T' !in t
    ensures Restore(h + TEMP_VALUE + t) == h + WHERE + t
  {
    ReplaceAllPrefixUntouched(h, TEMP_VALUE + t, TEMP_VALUE, WHERE);
    ReplaceAllUntouched(t, TEMP_VALUE, WHERE);
    assert (TEMP_VALUE + t)[..|TEMP_VALUE|] == TEMP_VALUE;
    assert (TEMP_VALUE + t)[|TEMP_VALUE|..] == t;
    assert h + TEMP_VALUE + t == h + (TEMP_VALUE + t);
  }

  /** The statement before the bracket step, for a base without WHERE and conditions only. */
  lemma PreparedConditions(sql: string, x: string)
    requires 'W' !in sql
    ensures Hide(sql) + " " + WhereClause(Some(x)) + " " + OrderByClause(None) == sql + " " + WHERE + (" " + x + " ")
  {
    ReplaceAllUntouched(sql, WHERE, TEMP_VALUE);
  }

  /**
    As written, the splice needs the conditions' text free of "ORDER BY".
    Conditions carrying "ORDER BY" (a search expression "ORDER BY" gives
    n LIKE '%ORDER BY%') get the closing bracket inside them, before their
    own ORDER BY, and none after them.
   */
  lemma OrderByInConditions(sql: string, u: string, v: string)
    requires 'W' !in sql && 'O' !in sql && 'T' !in sql
    requires 'O' !in u && 'T' !in u && 'T' !in v
    ensures CorrectSql(sql, WhereClause(Some(u + ORDER_BY + v)), OrderByClause(None)) ==
      sql + " AND ( " + u + ") ORDER BY" + v + " "
    ensures CorrectSql(sql, WhereClause(Some(u + ORDER_BY + v)), OrderByClause(None)) !=
      Spliced(sql, Some(u + ORDER_BY + v), None)
  {
    var x := u + ORDER_BY + v;
    PreparedConditions(sql, x);
    BracketOrderByInside(sql, u, v);
    RestoreOrderByInside(sql, u, v);
    OrderByInsideDiffers(sql, u, v);
  }

  /** The bracket step for conditions carrying ORDER BY. */
  lemma BracketOrderByInside(sql: string, u: string, v: string)
    requires 'W' !in sql && 'O' !in sql && 'O' !in u
    ensures Bracket(sql + " " + WHERE + (" " + (u + ORDER_BY + v) + " ")) ==
      sql + " AND ( " + u + ") ORDER BY" + v + " "
  {
    var a, c, d := sql + " ", " " + u, v + " ";
    OrderByInsideShape(sql, u, v);
    BracketBeforeOrderBy(a, c, d);
  }

  lemma OrderByInsideShape(sql: string, u: string, v: string)
    ensures sql + " " + WHERE + (" " + (u + ORDER_BY + v) + " ") == (sql + " ") + WHERE + (" " + u) + ORDER_BY + (v + " ")
    ensures (sql + " ") + AND_WITH_BRACKET + (" " + u) + ORDER_BY_WITH_BRACKET + (v + " ") ==
      sql + " AND ( " + u + ") ORDER BY" + v + " "
  {
  }

  lemma RestoreOrderByInside(sql: string, u: string, v: string)
    requires 'T' !in sql && 'T' !in u && 'T' !in v
    ensures Restore(sql + " AND ( " + u + ") ORDER BY" + v + " ") == sql + " AND ( " + u + ") ORDER BY" + v + " "
  {
    assert 'T' !in " AND ( " && 'T' !in ") ORDER BY" && 'T' !in " ";
    ReplaceAllUntouched(sql + " AND ( " + u + ") ORDER BY" + v + " ", TEMP_VALUE, WHERE);
  }

  lemma OrderByInsideDiffers(sql: string, u: string, v: string)
    ensures sql + " AND ( " + u + ") ORDER BY" + v + " " != Spliced(sql, Some(u + ORDER_BY + v), None)
  {
    var out := sql + " AND ( " + u + ") ORDER BY" + v + " ";
    var spliced := sql + " AND ( " + (u + ORDER_BY + v) + " )";
    assert out[|sql| + 7 + |u|] == ')';
    assert spliced[|sql| + 7 + |u|] == 'O';
  }

  /** The bracket step for conditions with no ORDER BY, closed at the end. */
  lemma BracketPlaceholder(sql: string, u: string, v: string)
    requires 'W' !in sql && 'O' !in sql && 'O' !in u && 'O' !in v
    ensures Bracket(sql + " " + WHERE + (" " + (u + TEMP_VALUE + v) + " ")) ==
      sql + " AND ( " + u + TEMP_VALUE + (v + " )")
  {
    var a, c := sql + " ", " " + (u + TEMP_VALUE + v) + " ";
    PlaceholderShape(sql, u, v);
    assert 'O' !in " " && 'O' !in TEMP_VALUE;
    assert 'O' !in c;
    BracketClosedAtEnd(a, c);
  }

  lemma PlaceholderShape(sql: string, u: string, v: string)
    ensures sql + " " + WHERE + (" " + (u + TEMP_VALUE + v) + " ") == (sql + " ") + WHERE + (" " + (u + TEMP_VALUE + v) + " ")
    ensures (sql + " ") + AND_WITH_BRACKET + (" " + (u + TEMP_VALUE + v) + " ") + RIGHT_BRACKET ==
      sql + " AND ( " + u + TEMP_VALUE + (v + " )")
    ensures sql + " AND ( " + u + WHERE + (v + " )") == sql + " AND ( " + u + WHERE + v + " )"
  {
  }

  lemma PlaceholderDiffers(sql: string, u: string, v: string)
    ensures sql + " AND ( " + u + WHERE + v + " )" != Spliced(sql, Some(u + TEMP_VALUE + v), None)
  {
    var out := sql + " AND ( " + u + WHERE + v + " )";
    assert |out| == |sql| + |u| + |v| + 14;
    var spliced := sql + " AND ( " + (u + TEMP_VALUE + v) + " )";
    assert |spliced| == |sql| + |u| + |v| + 19;
  }

  /**
    As written, the splice needs the conditions' text free of TEMP_VALUE.
    Conditions carrying the placeholder TEMP_VALUE (a search expression
    "TEMP_VALUE") have it turned into WHERE when the base's WHERE clauses
    are restored.
   */
  lemma PlaceholderInConditions(sql: string, u: string, v: string)
    requires 'W' !in sql && 'O' !in sql && 'T' !in sql
    requires 'O' !in u && 'T' !in u && 'O' !in v && 'T' !in v
    ensures CorrectSql(sql, WhereClause(Some(u + TEMP_VALUE + v)), OrderByClause(None)) ==
      sql + " AND ( " + u + WHERE + v + " )"
    ensures CorrectSql(sql, WhereClause(Some(u + TEMP_VALUE + v)), OrderByClause(None)) !=
      Spliced(sql, Some(u + TEMP_VALUE + v), None)
  {
    var x := u + TEMP_VALUE + v;
    PreparedConditions(sql, x);
    BracketPlaceholder(sql, u, v);
    PlaceholderShape(sql, u, v);
    assert 'T' !in " AND ( " && 'T' !in " )";
    RestorePlaceholder(sql + " AND ( " + u, v + " )");
    PlaceholderDiffers(sql, u, v);
  }

  /** No 'P' (as in TEMP_VALUE), no "(" and no 'B' (as in ORDER BY). */
  predicate Unmarked(s: string) {
    'P' !in s && '(' !in s && 'B' !in s
  }


  lemma Query1Unmarked() ensures Unmarked(QUERY_1) { }
  lemma Query2Unmarked() ensures Unmarked(QUERY_2) { }
  lemma Query3Unmarked() ensures Unmarked(QUERY_3) { }
  lemma Query4Unmarked() ensures Unmarked(QUERY_4) { }
  lemma Query5Unmarked() ensures Unmarked(QUERY_5) { }
  lemma Query6Unmarked() ensures Unmarked(QUERY_6) { }
  lemma Query7Unmarked() ensures Unmarked(QUERY_7) { }
  lemma Query8Unmarked() ensures Unmarked(QUERY_8) { }
  lemma Query9Unmarked() ensures Unmarked(QUERY_9) { }
  lemma Query10Unmarked() ensures Unmarked(QUERY_10) { }
  lemma Query11Unmarked() ensures Unmarked(QUERY_11) { }
  lemma Query12Unmarked() ensures Unmarked(QUERY_12) { }
  lemma Query13Unmarked() ensures Unmarked(QUERY_13) { }

  /** The find-by-tag-name statement has no TEMP_VALUE, no "(" and no ORDER BY of its own. */
  lemma FindByTagNameQueryPlain()
    ensures Absent(FIND_BY_TAG_NAME_QUERY, TEMP_VALUE)
    ensures Absent(FIND_BY_TAG_NAME_QUERY, LEFT_BRACKET)
    ensures Absent(FIND_BY_TAG_NAME_QUERY, ORDER_BY)
  {
    Query1Unmarked(); Query2Unmarked(); Query3Unmarked(); Query4Unmarked(); Query5Unmarked();
    Query6Unmarked(); Query7Unmarked(); Query8Unmarked(); Query9Unmarked(); Query10Unmarked();
    Query11Unmarked(); Query12Unmarked(); Query13Unmarked();
    assert Unmarked(FIND_BY_TAG_NAME_QUERY);
    assert TEMP_VALUE[3] == 'P' && ORDER_BY[6] == 'B';
    PatternCharAbsent(FIND_BY_TAG_NAME_QUERY, TEMP_VALUE, 3);
    PatternCharAbsent(FIND_BY_TAG_NAME_QUERY, LEFT_BRACKET, 0);
    PatternCharAbsent(FIND_BY_TAG_NAME_QUERY, ORDER_BY, 6);
  }

  /**
    findByTagName's statement is the fixed query with the customizer's
    conditions bracketed after its WHERE and its ORDER BY last, whenever
    the generated text is free of the words the splice rewrites.
   */
  lemma FindByTagNameSplice(sortUnits: Option<seq<Units.TypedSortUnit>>, searchUnits: Option<seq<Units.SearchUnit>>)
    requires SearchConditions(searchUnits).Some? ==>
      Absent(SearchConditions(searchUnits).value, TEMP_VALUE) && Absent(SearchConditions(searchUnits).value, ORDER_BY)
    requires SortKeys(sortUnits).Some? ==>
      Absent(SortKeys(sortUnits).value, TEMP_VALUE) && Absent(SortKeys(sortUnits).value, LEFT_BRACKET) &&
      Absent(SortKeys(sortUnits).value, WHERE)
    ensures CorrectSql(FIND_BY_TAG_NAME_QUERY, SearchOperation(searchUnits), SortOperation(sortUnits)) ==
      Spliced(FIND_BY_TAG_NAME_QUERY, SearchConditions(searchUnits), SortKeys(sortUnits))
  {
    FindByTagNameQueryPlain();
    CustomizerSplice(FIND_BY_TAG_NAME_QUERY, sortUnits, searchUnits);
  }
}
