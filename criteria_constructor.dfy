/**
  CriteriaConstructor: the caller's parallel request lists become search and
  sort criteria. Missing lists (Java null) are None; list elements are
  present strings.
 */
module CriteriaConstructor {
  import opened Wrappers
  import opened Strings
  import opened Units

  const DESC: string := "DESC"

  /** The search units for the two lists: the zip of both, or none when either is missing. */
  function SearchCriteria(searchFields: Option<seq<string>>, searchExpressions: Option<seq<string>>): seq<SearchUnit> {
    if searchFields.None? || searchExpressions.None? then []
    else
      var fields, expressions := searchFields.value, searchExpressions.value;
      seq(Min(|fields|, |expressions|), i requires 0 <= i < Min(|fields|, |expressions|) =>
        SearchUnit(fields[i], expressions[i]))
  }

  /** Whether sort unit i is ascending: only a "DESC" at position i, in any case, makes it descending. */
  predicate AscendingAt(sortTypes: Option<seq<string>>, i: nat) {
    !(sortTypes.Some? && i < |sortTypes.value| && EqualsIgnoreCase(sortTypes.value[i], DESC))
  }

  /** The sort units for the two lists: one per field. */
  function SortCriteria(sortFields: Option<seq<string>>, sortTypes: Option<seq<string>>): seq<SortUnit> {
    if sortFields.None? then []
    else
      var fields := sortFields.value;
      seq(|fields|, i requires 0 <= i < |fields| => SortUnit(fields[i], AscendingAt(sortTypes, i)))
  }

  /**
    Zips the field list with the expression list. Nothing is built when
    either list is missing; otherwise surplus fields and surplus
    expressions are dropped.
   */
  method ConvertListsToSearchCriteria(searchFields: Option<seq<string>>, searchExpressions: Option<seq<string>>)
    returns (searchCriteria: seq<SearchUnit>)
    ensures searchCriteria == SearchCriteria(searchFields, searchExpressions)
    ensures searchFields.None? || searchExpressions.None? ==> searchCriteria == []
    ensures searchFields.Some? && searchExpressions.Some? ==>
      |searchCriteria| == Min(|searchFields.value|, |searchExpressions.value|)
    ensures forall i :: 0 <= i < |searchCriteria| ==>
      searchFields.Some? && searchExpressions.Some? &&
      i < |searchFields.value| && i < |searchExpressions.value| &&
      searchCriteria[i] == SearchUnit(searchFields.value[i], searchExpressions.value[i])
  {
    searchCriteria := [];
    if searchFields.None? || searchExpressions.None? {
      return;
    }
    var fields, expressions := searchFields.value, searchExpressions.value;
    var size := |fields|;
    for i := 0 to size
      invariant |searchCriteria| == Min(i, |expressions|)
      invariant forall k :: 0 <= k < |searchCriteria| ==>
        k < |expressions| && searchCriteria[k] == SearchUnit(fields[k], expressions[k])
    {
      if i < |expressions| {
        var searchUnit := SearchUnit(fields[i], expressions[i]);
        searchCriteria := searchCriteria + [searchUnit];
      }
    }
  }

  /**
    One sort unit per sort field, in input order. Unit i is descending
    exactly when a direction is given at position i and it equals "DESC"
    ignoring case; every other direction, and a missing one, leaves the
    unit ascending. No sort field at all yields no units.
   */
  method ConvertListsToSortCriteria(sortFields: Option<seq<string>>, sortTypes: Option<seq<string>>)
    returns (sortCriteria: seq<SortUnit>)
    ensures sortCriteria == SortCriteria(sortFields, sortTypes)
    ensures sortFields.None? ==> sortCriteria == []
    ensures sortFields.Some? ==> |sortCriteria| == |sortFields.value|
    ensures forall i :: 0 <= i < |sortCriteria| ==>
      sortFields.Some? && i < |sortFields.value| && sortCriteria[i].sortField == sortFields.value[i]
    ensures forall i :: 0 <= i < |sortCriteria| ==>
      (!sortCriteria[i].isAscending <==>
        sortTypes.Some? && i < |sortTypes.value| && EqualsIgnoreCase(sortTypes.value[i], DESC))
  {
    sortCriteria := [];
    if sortFields.None? || |sortFields.value| == 0 {
      return;
    }
    var fields := sortFields.value;
    var types := if sortTypes.None? then [] else sortTypes.value;
    var size := |fields|;
    for i := 0 to size
      invariant |sortCriteria| == i
      invariant forall k :: 0 <= k < i ==> sortCriteria[k].sortField == fields[k]
      invariant forall k :: 0 <= k < i ==>
        (!sortCriteria[k].isAscending <==> k < |types| && EqualsIgnoreCase(types[k], DESC))
    {
      var sortUnit := DefaultSortUnit(fields[i]);
      if i < |types| {
        if EqualsIgnoreCase(types[i], DESC) {
          sortUnit := sortUnit.(isAscending := false);
        }
      }
      sortCriteria := sortCriteria + [sortUnit];
    }
  }
}
