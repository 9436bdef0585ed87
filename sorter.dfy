/**
  Sorter: a mutable single-field ORDER BY. A fresh Sorter has no field and
  is ascending; prepareQuery reads the state and changes nothing.
 */
module Sorting {
  import opened Wrappers
  import opened Strings

  const ASC: string := "ASC"
  const DESC: string := "DESC"

  /** `String.format("%s ORDER BY %s %s", ...)`, or the query itself while no field is set. */
  function SortedQuery(sql: string, fieldName: Option<string>, isAscending: bool): string {
    match fieldName
    case None => sql
    case Some(f) => sql + " ORDER BY " + f + " " + (if isAscending then ASC else DESC)
  }

  predicate EndsWith(s: string, t: string) {
    |t| <= |s| && s[|s| - |t|..] == t
  }

  /** With a field set, the query ends in " DESC" exactly when the direction is descending, and in " ASC" otherwise. */
  lemma DirectionSuffix(sql: string, f: string, isAscending: bool)
    ensures EndsWith(SortedQuery(sql, Some(f), isAscending), " DESC") <==> !isAscending
    ensures EndsWith(SortedQuery(sql, Some(f), isAscending), " ASC") <==> isAscending
  {
    var r := SortedQuery(sql, Some(f), isAscending);
    var head := sql + " ORDER BY " + f;
    if isAscending {
      assert r == head + " ASC";
      assert r[|r| - 4..] == " ASC";
      assert r[|r| - 4] == ' ';
    } else {
      assert r == head + " DESC";
      assert r[|r| - 5..] == " DESC";
      assert r[|r| - 3] == 'E';
    }
  }

  class Sorter {
    var fieldName: Option<string>
    var isAscending: bool

    constructor ()
      ensures fieldName == None && isAscending
    {
      fieldName := None;
      isAscending := true;
    }

    constructor WithField(fieldName: Option<string>)
      ensures this.fieldName == fieldName && isAscending
    {
      this.fieldName := fieldName;
      isAscending := true;
    }

    /** Changes only the field; the direction is kept. */
    method SetFieldName(fieldName: Option<string>)
      modifies this`fieldName
      ensures this.fieldName == fieldName
    {
      this.fieldName := fieldName;
    }

    method SetAscending()
      modifies this`isAscending
      ensures isAscending
      ensures forall sql :: fieldName.Some? ==> EndsWith(PrepareQuery(sql), " ASC")
    {
      isAscending := true;
      forall sql | fieldName.Some? {
        DirectionSuffix(sql, fieldName.value, isAscending);
      }
    }

    method SetDescending()
      modifies this`isAscending
      ensures !isAscending
      ensures forall sql :: fieldName.Some? ==> EndsWith(PrepareQuery(sql), " DESC")
    {
      isAscending := false;
      forall sql | fieldName.Some? {
        DirectionSuffix(sql, fieldName.value, isAscending);
      }
    }

    /** prepareQuery reads the field and the direction; being a function it changes nothing. */
    function PrepareQuery(sql: string): (r: string)
      reads this
      ensures fieldName.None? ==> r == sql
      ensures fieldName.Some? ==> r == sql + " ORDER BY " + fieldName.value + " " + (if isAscending then ASC else DESC)
    {
      SortedQuery(sql, fieldName, isAscending)
    }
  }
}
