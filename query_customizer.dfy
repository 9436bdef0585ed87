/**
  QueryCustomizer (string-building generation): sort and search units are
  kept in two optional fields and rendered as an SQL tail,
  `sql + " " + whereClause + " " + orderByClause`.
 */
module QueryCustomization {
  import opened Wrappers
  import opened Strings
  import opened Units
  import opened StringJoining

  const COMMA_DELIMITER: string := ", "
  const ORDER_BY_PREFIX: string := "ORDER BY "
  const EMPTY_SUFFIX: string := ""
  const ASC: string := "ASC"
  const WHERE_PREFIX: string := "WHERE "
  const OR_DELIMITER: string := " OR "

  const BACKSPACE: char := '\U{8}'
  const CONTROL_Z: char := '\U{1A}'
  const NUL: char := '\0'

  // ---------------------------------------------------------------------
  // Escaping
  // ---------------------------------------------------------------------

  /**
    How String.replaceAll reads its replacement argument: a backslash
    makes the character after it literal. Group references ('$') and a
    trailing lone backslash are not modelled; none of the replacement
    constants below contains either.
   */
  function ReplacementText(r: string): string
    decreases |r|
  {
    if |r| >= 2 && r[0] == '\\' then [r[1]] + ReplacementText(r[2..])
    else if r == [] then []
    else [r[0]] + ReplacementText(r[1..])
  }

  /**
    escapeStringForMySQL as written: nine successive replaceAll calls, each
    with a pattern that matches one character. The replacement constants
    are the Java strings `\\\\`, `\b`, `\n`, `\r`, `\t`, `\Z`, `\0`, `\'`
    and `\"`.
   */
  function EscapeStringForMySql(s: string): string {
    var s1 := ReplaceAll(s, "\\", ReplacementText("\\\\\\\\"));
    var s2 := ReplaceAll(s1, [BACKSPACE], ReplacementText("\\b"));
    var s3 := ReplaceAll(s2, "\n", ReplacementText("\\n"));
    var s4 := ReplaceAll(s3, "\r", ReplacementText("\\r"));
    var s5 := ReplaceAll(s4, "\t", ReplacementText("\\t"));
    var s6 := ReplaceAll(s5, [CONTROL_Z], ReplacementText("\\Z"));
    var s7 := ReplaceAll(s6, [NUL], ReplacementText("\\0"));
    var s8 := ReplaceAll(s7, "'", ReplacementText("\\'"));
    ReplaceAll(s8, "\"", ReplacementText("\\\""))
  }

  /** What escaping does to a single character. */
  function EscapeChar(c: char): string {
    if c == '\\' then "\\\\"
    else if c == BACKSPACE then "b"
    else if c == '\n' then "n"
    else if c == '\r' then "r"
    else if c == '\t' then "t"
    else if c == CONTROL_Z then "Z"
    else if c == NUL then "0"
    else [c]
  }

  /** Character-by-character escaping: the reference the replaceAll chain is proved equal to. */
  function EscapeChars(s: string): string {
    if s == [] then [] else EscapeChar(s[0]) + EscapeChars(s[1..])
  }

  predicate IsEscaped(c: char) {
    c == '\\' || c == BACKSPACE || c == '\n' || c == '\r' || c == '\t' || c == CONTROL_Z || c == NUL
  }

  lemma ReplacementTexts()
    ensures ReplacementText("\\\\\\\\") == "\\\\"
    ensures ReplacementText("\\b") == "b" && ReplacementText("\\n") == "n"
    ensures ReplacementText("\\r") == "r" && ReplacementText("\\t") == "t"
    ensures ReplacementText("\\Z") == "Z" && ReplacementText("\\0") == "0"
    ensures ReplacementText("\\'") == "'" && ReplacementText("\\\"") == "\""
  {
    assert ReplacementText("\\\\\\\\") == "\\" + ReplacementText("\\\\");
  }

  /** Escaping works on both halves of a concatenation independently. */
  lemma EscapeConcat(a: string, b: string)
    ensures EscapeStringForMySql(a + b) == EscapeStringForMySql(a) + EscapeStringForMySql(b)
  {
    ReplacementTexts();
    var a1, b1 := ReplaceAll(a, "\\", "\\\\"), ReplaceAll(b, "\\", "\\\\");
    ReplaceAllCharConcat(a, b, '\\', "\\\\");
    var a2, b2 := ReplaceAll(a1, [BACKSPACE], "b"), ReplaceAll(b1, [BACKSPACE], "b");
    ReplaceAllCharConcat(a1, b1, BACKSPACE, "b");
    var a3, b3 := ReplaceAll(a2, "\n", "n"), ReplaceAll(b2, "\n", "n");
    ReplaceAllCharConcat(a2, b2, '\n', "n");
    var a4, b4 := ReplaceAll(a3, "\r", "r"), ReplaceAll(b3, "\r", "r");
    ReplaceAllCharConcat(a3, b3, '\r', "r");
    var a5, b5 := ReplaceAll(a4, "\t", "t"), ReplaceAll(b4, "\t", "t");
    ReplaceAllCharConcat(a4, b4, '\t', "t");
    var a6, b6 := ReplaceAll(a5, [CONTROL_Z], "Z"), ReplaceAll(b5, [CONTROL_Z], "Z");
    ReplaceAllCharConcat(a5, b5, CONTROL_Z, "Z");
    var a7, b7 := ReplaceAll(a6, [NUL], "0"), ReplaceAll(b6, [NUL], "0");
    ReplaceAllCharConcat(a6, b6, NUL, "0");
    var a8, b8 := ReplaceAll(a7, "'", "'"), ReplaceAll(b7, "'", "'");
    ReplaceAllCharConcat(a7, b7, '\'', "'");
    ReplaceAllCharConcat(a8, b8, '"', "\"");
  }

  /** Escaping a one-character string yields that character's escape. */
  lemma EscapeSingle(c: char)
    ensures EscapeStringForMySql([c]) == EscapeChar(c)
  {
    ReplacementTexts();
    ReplaceAllOneChar(c, '\\', "\\\\");
    if c == '\\' {
      var t := "\\\\";
      ReplaceAllCharAbsent(t, BACKSPACE, "b");
      ReplaceAllCharAbsent(t, '\n', "n");
      ReplaceAllCharAbsent(t, '\r', "r");
      ReplaceAllCharAbsent(t, '\t', "t");
      ReplaceAllCharAbsent(t, CONTROL_Z, "Z");
      ReplaceAllCharAbsent(t, NUL, "0");
      ReplaceAllCharAbsent(t, '\'', "'");
      ReplaceAllCharAbsent(t, '"', "\"");
    } else {
      var c2 := if c == BACKSPACE then 'b' else c;
      ReplaceAllOneChar(c, BACKSPACE, "b");
      var c3 := if c2 == '\n' then 'n' else c2;
      ReplaceAllOneChar(c2, '\n', "n");
      var c4 := if c3 == '\r' then 'r' else c3;
      ReplaceAllOneChar(c3, '\r', "r");
      var c5 := if c4 == '\t' then 't' else c4;
      ReplaceAllOneChar(c4, '\t', "t");
      var c6 := if c5 == CONTROL_Z then 'Z' else c5;
      ReplaceAllOneChar(c5, CONTROL_Z, "Z");
      var c7 := if c6 == NUL then '0' else c6;
      ReplaceAllOneChar(c6, NUL, "0");
      ReplaceAllOneChar(c7, '\'', "'");
      ReplaceAllOneChar(c7, '"', "\"");
    }
  }

  lemma EscapeEmpty()
    ensures EscapeStringForMySql("") == ""
  {
    ReplacementTexts();
  }

  /** The replaceAll chain is character-wise escaping. */
  lemma {:induction false} EscapeIsCharwise(s: string)
    ensures EscapeStringForMySql(s) == EscapeChars(s)
    decreases |s|
  {
    if s == [] {
      EscapeEmpty();
    } else {
      assert s == [s[0]] + s[1..];
      EscapeConcat([s[0]], s[1..]);
      EscapeSingle(s[0]);
      EscapeIsCharwise(s[1..]);
    }
  }

  /** Text with none of the seven escaped characters passes through unchanged. */
  lemma {:induction false} EscapePlain(s: string)
    requires forall i :: 0 <= i < |s| ==> !IsEscaped(s[i])
    ensures EscapeStringForMySql(s) == s
    decreases |s|
  {
    if s == [] {
      EscapeEmpty();
    } else {
      assert s == [s[0]] + s[1..];
      EscapeConcat([s[0]], s[1..]);
      EscapeSingle(s[0]);
      EscapePlain(s[1..]);
    }
  }

  /** Only backslashes gain a backslash. */
  lemma EscapeBackslash()
    ensures EscapeStringForMySql("\\") == "\\\\"
  {
    EscapeSingle('\\');
  }

  /**
    Backspace, LF, CR, TAB, control-Z and NUL become the bare letters
    b, n, r, t, Z and 0: the backslash in each replacement string only
    quotes the letter that follows it.
   */
  lemma EscapeControlCharacter(c: char)
    requires c == BACKSPACE || c == '\n' || c == '\r' || c == '\t' || c == CONTROL_Z || c == NUL
    ensures EscapeStringForMySql([c]) ==
      if c == BACKSPACE then "b"
      else if c == '\n' then "n"
      else if c == '\r' then "r"
      else if c == '\t' then "t"
      else if c == CONTROL_Z then "Z"
      else "0"
  {
    EscapeSingle(c);
  }

  /** Both quote characters stay as they are, for the same reason. */
  lemma EscapeQuotes()
    ensures EscapeStringForMySql("'") == "'"
    ensures EscapeStringForMySql("\"") == "\""
  {
    EscapeUnlisted('\'');
    EscapeUnlisted('"');
  }

  /** A character outside the seven escaped ones passes through on its own. */
  lemma EscapeUnlisted(c: char)
    requires !IsEscaped(c)
    ensures EscapeStringForMySql([c]) == [c]
  {
    EscapeSingle(c);
  }

  // ---------------------------------------------------------------------
  // Rendering units as SQL
  // ---------------------------------------------------------------------

  /** "field TYPE", both escaped, the type upper-cased first. */
  function SortPart(u: TypedSortUnit): string {
    EscapeStringForMySql(u.fieldName) + " " + EscapeStringForMySql(ToUpper(u.sortType))
  }

  /** "field LIKE '%expression%'", the field and the quoted pattern escaped. */
  function SearchPart(u: SearchUnit): string {
    EscapeStringForMySql(u.searchFieldName) + " LIKE " + EscapeStringForMySql("'%" + u.searchExpression + "%'")
  }

  function SortParts(units: seq<TypedSortUnit>): (r: seq<string>)
    ensures |r| == |units| && forall i :: 0 <= i < |units| ==> r[i] == SortPart(units[i])
  {
    if units == [] then [] else [SortPart(units[0])] + SortParts(units[1..])
  }

  function SearchParts(units: seq<SearchUnit>): (r: seq<string>)
    ensures |r| == |units| && forall i :: 0 <= i < |units| ==> r[i] == SearchPart(units[i])
  {
    if units == [] then [] else [SearchPart(units[0])] + SearchParts(units[1..])
  }

  /** The ORDER BY clause: empty when there are no sort units at all. */
  function SortOperation(sortUnits: Option<seq<TypedSortUnit>>): string {
    match sortUnits
    case None => ""
    case Some(units) => Join(SortParts(units), COMMA_DELIMITER, ORDER_BY_PREFIX, EMPTY_SUFFIX)
  }

  /** The WHERE clause: empty when there are no search units. */
  function SearchOperation(searchUnits: Option<seq<SearchUnit>>): string {
    match searchUnits
    case None => ""
    case Some(units) =>
      if units == [] then "" else Join(SearchParts(units), OR_DELIMITER, WHERE_PREFIX, EMPTY_SUFFIX)
  }

  /** The text the ORDER BY clause continues with, when there is one. */
  function SortKeys(sortUnits: Option<seq<TypedSortUnit>>): Option<string> {
    match sortUnits
    case None => None
    case Some(units) => Some(JoinParts(SortParts(units), COMMA_DELIMITER))
  }

  /** The conditions the WHERE clause continues with, when there is one. */
  function SearchConditions(searchUnits: Option<seq<SearchUnit>>): Option<string> {
    match searchUnits
    case None => None
    case Some(units) => if units == [] then None else Some(JoinParts(SearchParts(units), OR_DELIMITER))
  }

  /** Each clause is its keyword followed by its text, or empty. */
  lemma {:induction false} OperationsShape(sortUnits: Option<seq<TypedSortUnit>>, searchUnits: Option<seq<SearchUnit>>)
    ensures SortOperation(sortUnits) ==
      if SortKeys(sortUnits).None? then "" else "ORDER BY " + SortKeys(sortUnits).value
    ensures SearchOperation(searchUnits) ==
      if SearchConditions(searchUnits).None? then "" else "WHERE " + SearchConditions(searchUnits).value
    ensures SortKeys(sortUnits).None? <==> sortUnits.None?
    ensures SearchConditions(searchUnits).None? <==> searchUnits.None? || searchUnits.value == []
  {
  }

  predicate SortUnitsFrom(units: seq<TypedSortUnit>, sortFields: seq<string>, sortTypes: Option<seq<string>>) {
    |units| == |sortFields| &&
    forall i :: 0 <= i < |units| ==>
      units[i] == TypedSortUnit(sortFields[i],
        if sortTypes.Some? && i < |sortTypes.value| then sortTypes.value[i] else ASC)
  }

  predicate SearchUnitsFrom(units: seq<SearchUnit>, fields: seq<string>, expressions: seq<string>) {
    |units| == Min(|fields|, |expressions|) &&
    forall i :: 0 <= i < |units| ==>
      i < |fields| && i < |expressions| && units[i] == SearchUnit(fields[i], expressions[i])
  }

  class QueryCustomizer {
    var sortUnits: Option<seq<TypedSortUnit>>
    var searchUnits: Option<seq<SearchUnit>>

    /** The no-argument constructor: no unit of either kind. */
    constructor Empty()
      ensures sortUnits == None && searchUnits == None
    {
      sortUnits := None;
      searchUnits := None;
    }

    /**
      Sort units exist only when some sort field is given: one per field,
      typed by the matching sort type or "ASC". Search units exist only
      when both search lists are given: their zip, surplus entries dropped.
     */
    constructor (sortFields: Option<seq<string>>, sortTypes: Option<seq<string>>,
                 searchFields: Option<seq<string>>, searchExpressions: Option<seq<string>>)
      ensures sortUnits.None? <==> sortFields.None? || sortFields.value == []
      ensures sortUnits.Some? ==> SortUnitsFrom(sortUnits.value, sortFields.value, sortTypes)
      ensures searchUnits.None? <==> searchFields.None? || searchExpressions.None?
      ensures searchUnits.Some? ==>
        SearchUnitsFrom(searchUnits.value, searchFields.value, searchExpressions.value)
    {
      sortUnits := None;
      searchUnits := None;
      new;
      PrepareSortFields(sortFields, sortTypes);
      PrepareSearchFields(searchFields, searchExpressions);
    }

    method PrepareSortFields(sortFields: Option<seq<string>>, sortTypes: Option<seq<string>>)
      modifies this`sortUnits
      ensures sortFields.None? || sortFields.value == [] ==> sortUnits == old(sortUnits)
      ensures sortFields.Some? && sortFields.value != [] ==>
        sortUnits.Some? && SortUnitsFrom(sortUnits.value, sortFields.value, sortTypes)
    {
      if sortFields.None? || |sortFields.value| == 0 {
        return;
      }
      var fields := sortFields.value;
      var types := if sortTypes.None? then [] else sortTypes.value;
      var units: seq<TypedSortUnit> := [];
      var size := |fields|;
      for i := 0 to size
        invariant |units| == i
        invariant forall k :: 0 <= k < i ==>
          units[k] == TypedSortUnit(fields[k], if k < |types| then types[k] else ASC)
      {
        var sortUnit;
        if i < |types| {
          sortUnit := TypedSortUnit(fields[i], types[i]);
        } else {
          sortUnit := TypedSortUnit(fields[i], ASC);
        }
        units := units + [sortUnit];
      }
      sortUnits := Some(units);
    }

    method PrepareSearchFields(searchFields: Option<seq<string>>, searchExpressions: Option<seq<string>>)
      modifies this`searchUnits
      ensures searchFields.None? || searchExpressions.None? ==> searchUnits == old(searchUnits)
      ensures searchFields.Some? && searchExpressions.Some? ==>
        searchUnits.Some? && SearchUnitsFrom(searchUnits.value, searchFields.value, searchExpressions.value)
    {
      if searchFields.None? || searchExpressions.None? {
        return;
      }
      var fields, expressions := searchFields.value, searchExpressions.value;
      var units: seq<SearchUnit> := [];
      var size := |fields|;
      for i := 0 to size
        invariant |units| == Min(i, |expressions|)
        invariant forall k :: 0 <= k < |units| ==>
          k < |expressions| && units[k] == SearchUnit(fields[k], expressions[k])
      {
        if i < |expressions| {
          units := units + [SearchUnit(fields[i], expressions[i])];
        }
      }
      searchUnits := Some(units);
    }

    /** generateSortOperation: the sort parts added one by one to a joiner. */
    method GenerateSortOperation() returns (s: string)
      ensures s == SortOperation(sortUnits)
    {
      if sortUnits.None? {
        return "";
      }
      var units := sortUnits.value;
      var joiner := new StringJoiner(COMMA_DELIMITER, ORDER_BY_PREFIX, EMPTY_SUFFIX);
      for i := 0 to |units|
        invariant joiner.elements == SortParts(units[..i])
      {
        SortPartsStep(units, i);
        joiner.Add(SortPart(units[i]));
      }
      assert units[..|units|] == units;
      s := joiner.ToString();
    }

    /** generateSearchOperation: the search parts added one by one to a joiner. */
    method GenerateSearchOperation() returns (s: string)
      ensures s == SearchOperation(searchUnits)
    {
      if searchUnits.None? || |searchUnits.value| == 0 {
        return "";
      }
      var units := searchUnits.value;
      var joiner := new StringJoiner(OR_DELIMITER, WHERE_PREFIX, EMPTY_SUFFIX);
      for i := 0 to |units|
        invariant joiner.elements == SearchParts(units[..i])
      {
        SearchPartsStep(units, i);
        joiner.Add(SearchPart(units[i]));
      }
      assert units[..|units|] == units;
      s := joiner.ToString();
    }

    /**
      prepareQuery: `String.format("%s %s %s", sql, where, orderBy)`, so the
      two separating spaces remain when a clause is empty.
     */
    method PrepareQuery(sql: string) returns (r: string)
      ensures r == sql + " " + SearchOperation(searchUnits) + " " + SortOperation(sortUnits)
      ensures searchUnits.None? && sortUnits.None? ==> r == sql + "  "
    {
      var searchOperation := GenerateSearchOperation();
      var sortOperation := GenerateSortOperation();
      r := sql + " " + searchOperation + " " + sortOperation;
    }
  }

  /** One unit more adds that unit's part. */
  lemma SortPartsStep(units: seq<TypedSortUnit>, i: nat)
    requires i < |units|
    ensures SortParts(units[..i + 1]) == SortParts(units[..i]) + [SortPart(units[i])]
  {
    assert units[..i + 1] == units[..i] + [units[i]];
  }

  /** One unit more adds that unit's part. */
  lemma SearchPartsStep(units: seq<SearchUnit>, i: nat)
    requires i < |units|
    ensures SearchParts(units[..i + 1]) == SearchParts(units[..i]) + [SearchPart(units[i])]
  {
    assert units[..i + 1] == units[..i] + [units[i]];
  }
}
