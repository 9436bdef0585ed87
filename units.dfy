/**
  The criteria units that travel from the service layer to the data layer.

  Two shapes of sort unit exist side by side: the criteria generation uses
  SortUnit (a field and a direction flag that defaults to ascending), the
  string-building generation uses TypedSortUnit (a field and a direction
  written as text, such as "ASC" or "desc").
 */
module Units {

  function Min(a: nat, b: nat): nat {
    if a < b then a else b
  }

  /** One "field LIKE expression" request. */
  datatype SearchUnit = SearchUnit(searchFieldName: string, searchExpression: string)

  /** One ordering request of the criteria generation. */
  datatype SortUnit = SortUnit(sortField: string, isAscending: bool)

  /** One ordering request of the string-building generation. */
  datatype TypedSortUnit = TypedSortUnit(fieldName: string, sortType: string)

  /** A sort unit as `new SortUnit()` followed by `setSortField` leaves it: ascending. */
  function DefaultSortUnit(sortField: string): (u: SortUnit)
    ensures u.sortField == sortField && u.isAscending
  {
    SortUnit(sortField, true)
  }
}
