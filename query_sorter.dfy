/**
  QuerySorter: an optional list of typed sort units rendered as
  `sql + " " + "ORDER BY " + parts joined by ", " + ";"`. Field names and
  types are inserted verbatim; only the type is upper-cased.
 */
module QuerySorting {
  import opened Wrappers
  import opened Strings
  import opened Units
  import opened StringJoining

  const DELIMITER: string := ", "
  const PREFIX: string := "ORDER BY "
  const SUFFIX: string := ";"
  const SORT_FIELD: string := "sortField"
  const SORT_TYPE: string := "sortType"
  const ASC: string := "ASC"

  /** "field TYPE", no escaping. */
  function OrderPart(u: TypedSortUnit): string {
    u.fieldName + " " + ToUpper(u.sortType)
  }

  function OrderParts(units: seq<TypedSortUnit>): (r: seq<string>)
    ensures |r| == |units| && forall i :: 0 <= i < |units| ==> r[i] == OrderPart(units[i])
  {
    if units == [] then [] else [OrderPart(units[0])] + OrderParts(units[1..])
  }

  /** The text prepareQuery appends for a present list of units. */
  function OrderByClause(units: seq<TypedSortUnit>): string {
    Join(OrderParts(units), DELIMITER, PREFIX, SUFFIX)
  }

  /** A present but empty list still yields the keyword and the semicolon. */
  lemma EmptyOrderByClause()
    ensures OrderByClause([]) == "ORDER BY ;"
  {
  }

  /** A single unit is rendered verbatim, with only its type upper-cased. */
  lemma SingleOrderByClause(field: string, sortType: string)
    ensures OrderByClause([TypedSortUnit(field, sortType)]) == "ORDER BY " + field + " " + ToUpper(sortType) + ";"
  {
    assert OrderParts([TypedSortUnit(field, sortType)]) == [field + " " + ToUpper(sortType)];
  }

  /** Each further unit adds ", field TYPE" before the semicolon. */
  lemma OrderByClauseSnoc(units: seq<TypedSortUnit>, u: TypedSortUnit)
    requires units != []
    ensures OrderByClause(units + [u]) ==
      PREFIX + JoinParts(OrderParts(units), DELIMITER) + ", " + OrderPart(u) + SUFFIX
  {
    OrderPartsSnoc(units, u);
    JoinPartsSnoc(OrderParts(units), OrderPart(u), DELIMITER);
    Regroup(PREFIX, JoinParts(OrderParts(units), DELIMITER), DELIMITER, OrderPart(u), SUFFIX);
  }

  lemma OrderPartsSnoc(units: seq<TypedSortUnit>, u: TypedSortUnit)
    ensures OrderParts(units + [u]) == OrderParts(units) + [OrderPart(u)]
  {
  }

  lemma Regroup(a: string, b: string, c: string, d: string, e: string)
    ensures a + (b + c + d) + e == a + b + c + d + e
  {
  }

  class QuerySorter {
    var sortUnitList: Option<seq<TypedSortUnit>>

    /** No units: prepareQuery leaves the query unchanged. */
    constructor ()
      ensures sortUnitList == None
    {
      sortUnitList := None;
    }

    /** The given list is stored as it is. */
    constructor FromList(sortUnitList: Option<seq<TypedSortUnit>>)
      ensures this.sortUnitList == sortUnitList
    {
      this.sortUnitList := sortUnitList;
    }

    /**
      From the request's multi-value map: nothing unless the map and both
      its "sortField" and "sortType" entries are present; then one unit
      per sort field, typed by the matching sort type or "ASC".
     */
    constructor FromMap(sortMap: Option<map<string, seq<string>>>)
      ensures sortMap.None? || SORT_FIELD !in sortMap.value || SORT_TYPE !in sortMap.value ==>
        sortUnitList == None
      ensures sortMap.Some? && SORT_FIELD in sortMap.value && SORT_TYPE in sortMap.value ==>
        var fields, types := sortMap.value[SORT_FIELD], sortMap.value[SORT_TYPE];
        sortUnitList.Some? && |sortUnitList.value| == |fields| &&
        forall i :: 0 <= i < |fields| ==>
          sortUnitList.value[i] == TypedSortUnit(fields[i], if i < |types| then types[i] else ASC)
    {
      var result: Option<seq<TypedSortUnit>> := None;
      if sortMap.Some? && SORT_FIELD in sortMap.value && SORT_TYPE in sortMap.value {
        var sortFields, sortTypes := sortMap.value[SORT_FIELD], sortMap.value[SORT_TYPE];
        var sortUnits: seq<TypedSortUnit> := [];
        var size := |sortFields|;
        for i := 0 to size
          invariant |sortUnits| == i
          invariant forall k :: 0 <= k < i ==>
            sortUnits[k] == TypedSortUnit(sortFields[k], if k < |sortTypes| then sortTypes[k] else ASC)
        {
          var sortUnit;
          if i < |sortTypes| {
            sortUnit := TypedSortUnit(sortFields[i], sortTypes[i]);
          } else {
            sortUnit := TypedSortUnit(sortFields[i], ASC);
          }
          sortUnits := sortUnits + [sortUnit];
        }
        result := Some(sortUnits);
      }
      sortUnitList := result;
    }

    /**
      prepareQuery: the query unchanged when there is no list, otherwise
      the query, a space and the ORDER BY clause ending in ";".
     */
    method PrepareQuery(sql: string) returns (r: string)
      ensures sortUnitList.None? ==> r == sql
      ensures sortUnitList.Some? ==> r == sql + " " + OrderByClause(sortUnitList.value)
    {
      if sortUnitList.None? {
        return sql;
      }
      var units := sortUnitList.value;
      var stringJoiner := new StringJoiner(DELIMITER, PREFIX, SUFFIX);
      for i := 0 to |units|
        invariant stringJoiner.delimiter == DELIMITER && stringJoiner.prefix == PREFIX
        invariant stringJoiner.suffix == SUFFIX
        invariant stringJoiner.elements == OrderParts(units[..i])
      {
        assert units[..i + 1] == units[..i] + [units[i]];
        assert OrderParts(units[..i + 1]) == OrderParts(units[..i]) + [OrderPart(units[i])];
        stringJoiner.Add(OrderPart(units[i]));
      }
      assert units[..|units|] == units;
      r := sql + " " + stringJoiner.ToString();
    }
  }
}
