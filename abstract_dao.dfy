/**
  AbstractDao: the generic data-access object over one entity class.
  The entity manager is modelled as the list of stored entities, in the
  order the store returns them, and the next generated id.

  extractOrderList and extractPredicates turn the criteria units into an
  order list and LIKE predicates; root.get fails with an
  IllegalArgumentException for a name that is not an attribute of the
  class, which the model reports as IllegalAttribute. setFirstResult and
  setMaxResults refuse negative arguments.
 */
module AbstractDao {
  import opened Wrappers
  import opened Units
  import opened Entities
  import opened StoreValues
  import opened Persistence

  const NOT_FOUND: string := "message.exception.dao.not_found"

  datatype DaoError =
    | IllegalAttribute(name: string)
    | NegativeFirstResult
    | NegativeMaxResults
    | DetachedEntity
    | NotFound(messageKey: string)

  // ---------------------------------------------------------------------
  // Criteria to orders and predicates
  // ---------------------------------------------------------------------

  /** The index of the first path that is not an attribute of the class. */
  function FirstUnknown(clazz: EntityClass, paths: seq<string>): (r: Option<nat>)
    ensures r.Some? ==> r.value < |paths| && paths[r.value] !in AttributeNames(clazz)
    ensures forall j :: 0 <= j < |paths| && (r.None? || j < r.value) ==> paths[j] in AttributeNames(clazz)
  {
    if paths == [] then None
    else if paths[0] !in AttributeNames(clazz) then Some(0)
    else
      var r := FirstUnknown(clazz, paths[1..]);
      if r.Some? then Some(r.value + 1) else None
  }

  function SortPaths(sortCriteria: seq<SortUnit>): (paths: seq<string>)
    ensures |paths| == |sortCriteria|
    ensures forall i :: 0 <= i < |paths| ==> paths[i] == sortCriteria[i].sortField
  {
    seq(|sortCriteria|, i requires 0 <= i < |sortCriteria| => sortCriteria[i].sortField)
  }

  function SearchPaths(searchCriteria: seq<SearchUnit>): (paths: seq<string>)
    ensures |paths| == |searchCriteria|
    ensures forall i :: 0 <= i < |paths| ==> paths[i] == searchCriteria[i].searchFieldName
  {
    seq(|searchCriteria|, i requires 0 <= i < |searchCriteria| => searchCriteria[i].searchFieldName)
  }

  /** criteriaBuilder.asc or .desc on the unit's field. */
  function OrderFor(unit: SortUnit): (o: QueryOrder)
    ensures o.path == unit.sortField && (o.Ascending? <==> unit.isAscending)
  {
    if unit.isAscending then Ascending(unit.sortField) else Descending(unit.sortField)
  }

  /** criteriaBuilder.like on the unit's field with "%" + expression + "%". */
  function PredicateFor(unit: SearchUnit): (p: LikePredicate)
    ensures p.path == unit.searchFieldName && p.pattern == ContainsPattern(unit.searchExpression)
  {
    LikePredicate(unit.searchFieldName, ContainsPattern(unit.searchExpression))
  }

  /** The result of extractOrderList: one order per sort unit, or the first attribute root.get refuses. */
  function OrderList(clazz: EntityClass, sortCriteria: seq<SortUnit>): Result<seq<QueryOrder>, DaoError> {
    var unknown := FirstUnknown(clazz, SortPaths(sortCriteria));
    if unknown.Some? then Failure(IllegalAttribute(sortCriteria[unknown.value].sortField))
    else Success(seq(|sortCriteria|, i requires 0 <= i < |sortCriteria| => OrderFor(sortCriteria[i])))
  }

  /** The result of extractPredicates: one LIKE predicate per search unit, or the first attribute root.get refuses. */
  function PredicateList(clazz: EntityClass, searchCriteria: seq<SearchUnit>): Result<seq<LikePredicate>, DaoError> {
    var unknown := FirstUnknown(clazz, SearchPaths(searchCriteria));
    if unknown.Some? then Failure(IllegalAttribute(searchCriteria[unknown.value].searchFieldName))
    else Success(seq(|searchCriteria|, i requires 0 <= i < |searchCriteria| => PredicateFor(searchCriteria[i])))
  }

  /** The first path missing from the class is the one reported. */
  lemma FirstUnknownAt(clazz: EntityClass, paths: seq<string>, i: nat)
    requires i < |paths| && paths[i] !in AttributeNames(clazz)
    requires forall j :: 0 <= j < i ==> paths[j] in AttributeNames(clazz)
    ensures FirstUnknown(clazz, paths) == Some(i)
  {
  }

  /** No path is reported when every path is an attribute. */
  lemma FirstUnknownNone(clazz: EntityClass, paths: seq<string>)
    requires forall j :: 0 <= j < |paths| ==> paths[j] in AttributeNames(clazz)
    ensures FirstUnknown(clazz, paths).None?
  {
  }

  method ExtractOrderList(clazz: EntityClass, sortCriteria: seq<SortUnit>) returns (r: Result<seq<QueryOrder>, DaoError>)
    ensures r == OrderList(clazz, sortCriteria)
  {
    var orderList: seq<QueryOrder> := [];
    for i := 0 to |sortCriteria|
      invariant |orderList| == i
      invariant forall j :: 0 <= j < i ==> sortCriteria[j].sortField in AttributeNames(clazz)
      invariant forall j :: 0 <= j < i ==> orderList[j] == OrderFor(sortCriteria[j])
    {
      var sortCriterion := sortCriteria[i];
      if sortCriterion.sortField !in AttributeNames(clazz) {
        FirstUnknownAt(clazz, SortPaths(sortCriteria), i);
        return Failure(IllegalAttribute(sortCriterion.sortField));
      }
      if sortCriterion.isAscending {
        orderList := orderList + [Ascending(sortCriterion.sortField)];
      } else {
        orderList := orderList + [Descending(sortCriterion.sortField)];
      }
    }
    FirstUnknownNone(clazz, SortPaths(sortCriteria));
    assert orderList == seq(|sortCriteria|, i requires 0 <= i < |sortCriteria| => OrderFor(sortCriteria[i]));
    return Success(orderList);
  }

  method ExtractPredicates(clazz: EntityClass, searchCriteria: seq<SearchUnit>) returns (r: Result<seq<LikePredicate>, DaoError>)
    ensures r == PredicateList(clazz, searchCriteria)
  {
    var predicates: seq<LikePredicate> := [];
    for i := 0 to |searchCriteria|
      invariant |predicates| == i
      invariant forall j :: 0 <= j < i ==> searchCriteria[j].searchFieldName in AttributeNames(clazz)
      invariant forall j :: 0 <= j < i ==> predicates[j] == PredicateFor(searchCriteria[j])
    {
      var searchCriterion := searchCriteria[i];
      if searchCriterion.searchFieldName !in AttributeNames(clazz) {
        FirstUnknownAt(clazz, SearchPaths(searchCriteria), i);
        return Failure(IllegalAttribute(searchCriterion.searchFieldName));
      }
      predicates := predicates + [LikePredicate(searchCriterion.searchFieldName,
        [MULTI_WILDCARD] + searchCriterion.searchExpression + [MULTI_WILDCARD])];
    }
    FirstUnknownNone(clazz, SearchPaths(searchCriteria));
    assert predicates == seq(|searchCriteria|, i requires 0 <= i < |searchCriteria| => PredicateFor(searchCriteria[i]));
    return Success(predicates);
  }

  /** One order per sort unit, in order, on the unit's field, ascending exactly when the unit is. */
  lemma OrderListMeaning(clazz: EntityClass, sortCriteria: seq<SortUnit>)
    ensures OrderList(clazz, sortCriteria).Success? <==>
      forall i :: 0 <= i < |sortCriteria| ==> sortCriteria[i].sortField in AttributeNames(clazz)
    ensures OrderList(clazz, sortCriteria).Success? ==>
      var orders := OrderList(clazz, sortCriteria).value;
      |orders| == |sortCriteria| &&
      forall i :: 0 <= i < |orders| ==>
        orders[i].path == sortCriteria[i].sortField && (orders[i].Ascending? <==> sortCriteria[i].isAscending)
  {
  }

  /** One "%e%" predicate per search unit, in order, on the unit's field. */
  lemma PredicateListMeaning(clazz: EntityClass, searchCriteria: seq<SearchUnit>)
    ensures PredicateList(clazz, searchCriteria).Success? <==>
      forall i :: 0 <= i < |searchCriteria| ==> searchCriteria[i].searchFieldName in AttributeNames(clazz)
    ensures PredicateList(clazz, searchCriteria).Success? ==>
      var predicates := PredicateList(clazz, searchCriteria).value;
      |predicates| == |searchCriteria| &&
      forall i :: 0 <= i < |predicates| ==>
        predicates[i].path == searchCriteria[i].searchFieldName &&
        predicates[i].pattern == [MULTI_WILDCARD] + searchCriteria[i].searchExpression + [MULTI_WILDCARD]
  {
  }

  // ---------------------------------------------------------------------
  // Queries over the stored rows
  // ---------------------------------------------------------------------

  /** createQuery(...).setFirstResult(offset).setMaxResults(limit) over the given rows. */
  function Paged(rows: seq<Entity>, offset: int, limit: int): Result<seq<Entity>, DaoError> {
    if offset < 0 then Failure(NegativeFirstResult)
    else if limit < 0 then Failure(NegativeMaxResults)
    else Success(Page(rows, offset, limit))
  }

  /** findAll with criteria: LIKE predicates ANDed, the order list, then the page. */
  function CriteriaQuery(clazz: EntityClass, rows: seq<Entity>, searchCriteria: seq<SearchUnit>,
                         sortCriteria: seq<SortUnit>, offset: int, limit: int): Result<seq<Entity>, DaoError> {
    match PredicateList(clazz, searchCriteria)
    case Failure(e) => Failure(e)
    case Success(predicates) =>
      match OrderList(clazz, sortCriteria)
      case Failure(e) => Failure(e)
      case Success(orders) => Paged(SortRows(orders, Filter(rows, predicates)), offset, limit)
  }

  /** A row matches every search unit: its field's text contains the expression, in the LIKE sense. */
  predicate MatchesAll(e: Entity, searchCriteria: seq<SearchUnit>) {
    forall i :: 0 <= i < |searchCriteria| ==>
      LikeValue(Attribute(e, searchCriteria[i].searchFieldName), ContainsPattern(searchCriteria[i].searchExpression))
  }

  lemma MatchesAllIsSatisfies(clazz: EntityClass, e: Entity, searchCriteria: seq<SearchUnit>)
    requires PredicateList(clazz, searchCriteria).Success?
    ensures Satisfies(e, PredicateList(clazz, searchCriteria).value) <==> MatchesAll(e, searchCriteria)
  {
    var predicates := PredicateList(clazz, searchCriteria).value;
    if MatchesAll(e, searchCriteria) {
      forall i | 0 <= i < |predicates|
        ensures LikeValue(Attribute(e, predicates[i].path), predicates[i].pattern)
      {
        assert predicates[i] == PredicateFor(searchCriteria[i]);
      }
    }
    if Satisfies(e, predicates) {
      forall i | 0 <= i < |searchCriteria|
        ensures LikeValue(Attribute(e, searchCriteria[i].searchFieldName), ContainsPattern(searchCriteria[i].searchExpression))
      {
        assert predicates[i] == PredicateFor(searchCriteria[i]);
      }
    }
  }

  /**
    What findAll with criteria returns: an error exactly when a field is
    unknown or a paging argument negative; otherwise at most limit rows,
    each a stored row matching every search unit, in the order the sort
    units ask for, no row more often than it is stored; and with a
    window that ends inside the matches, exactly limit rows.
   */
  lemma CriteriaQueryMeaning(clazz: EntityClass, rows: seq<Entity>, searchCriteria: seq<SearchUnit>,
                             sortCriteria: seq<SortUnit>, offset: int, limit: int)
    ensures CriteriaQuery(clazz, rows, searchCriteria, sortCriteria, offset, limit).Success? <==>
      PredicateList(clazz, searchCriteria).Success? && OrderList(clazz, sortCriteria).Success? && offset >= 0 && limit >= 0
    ensures CriteriaQuery(clazz, rows, searchCriteria, sortCriteria, offset, limit).Success? ==>
      var r := CriteriaQuery(clazz, rows, searchCriteria, sortCriteria, offset, limit).value;
      |r| <= limit &&
      (forall e :: e in r ==> e in rows && MatchesAll(e, searchCriteria)) &&
      Sorted(OrderList(clazz, sortCriteria).value, r) &&
      multiset(r) <= multiset(rows) &&
      (|r| == limit || offset + |r| >= |Filter(rows, PredicateList(clazz, searchCriteria).value)|)
  {
    var pl := PredicateList(clazz, searchCriteria);
    var ol := OrderList(clazz, sortCriteria);
    if pl.Success? && ol.Success? && offset >= 0 && limit >= 0 {
      var r := Page(SortRows(ol.value, Filter(rows, pl.value)), offset, limit);
      FilterSortPage(rows, pl.value, ol.value, offset, limit);
      FilterSortPageFull(rows, pl.value, ol.value, offset, limit);
      forall e | e in r
        ensures MatchesAll(e, searchCriteria)
      {
        MatchesAllIsSatisfies(clazz, e, searchCriteria);
      }
    }
  }

  /** Every row a criteria query returns is a stored row. */
  lemma CriteriaQueryFromStore(clazz: EntityClass, rows: seq<Entity>, searchCriteria: seq<SearchUnit>,
                               sortCriteria: seq<SortUnit>, offset: int, limit: int)
    ensures CriteriaQuery(clazz, rows, searchCriteria, sortCriteria, offset, limit).Success? ==>
      forall e :: e in CriteriaQuery(clazz, rows, searchCriteria, sortCriteria, offset, limit).value ==> e in rows
  {
    var pl := PredicateList(clazz, searchCriteria);
    var ol := OrderList(clazz, sortCriteria);
    if pl.Success? && ol.Success? && offset >= 0 && limit >= 0 {
      FilterSortPage(rows, pl.value, ol.value, offset, limit);
    }
  }


  /** A page from the start that is large enough is everything. */
  lemma WholePage(rows: seq<Entity>, limit: nat)
    requires |rows| <= limit
    ensures Page(rows, 0, limit) == rows
  {
  }

  /** With the whole store in one page, a row is returned exactly when it is stored and matches every search unit. */
  lemma CriteriaQueryComplete(clazz: EntityClass, rows: seq<Entity>, searchCriteria: seq<SearchUnit>,
                              sortCriteria: seq<SortUnit>, limit: int)
    requires limit >= |rows|
    requires PredicateList(clazz, searchCriteria).Success? && OrderList(clazz, sortCriteria).Success?
    ensures CriteriaQuery(clazz, rows, searchCriteria, sortCriteria, 0, limit).Success?
    ensures forall e :: e in CriteriaQuery(clazz, rows, searchCriteria, sortCriteria, 0, limit).value <==>
      e in rows && MatchesAll(e, searchCriteria)
  {
    var pl := PredicateList(clazz, searchCriteria).value;
    var ol := OrderList(clazz, sortCriteria).value;
    var matching := Filter(rows, pl);
    var sorted := SortRows(ol, matching);
    assert |sorted| == |matching| by {
      assert |multiset(sorted)| == |multiset(matching)|;
    }
    WholePage(sorted, limit);
    forall e
      ensures e in sorted <==> e in rows && MatchesAll(e, searchCriteria)
    {
      assert e in sorted <==> e in multiset(matching);
      MatchesAllIsSatisfies(clazz, e, searchCriteria);
    }
  }

  /** With no search units every stored row takes part, and with no sort units they keep store order. */
  lemma CriteriaQueryWithoutCriteria(clazz: EntityClass, rows: seq<Entity>, offset: int, limit: int)
    ensures CriteriaQuery(clazz, rows, [], [], offset, limit) == Paged(rows, offset, limit)
  {
    FirstUnknownNone(clazz, SortPaths([]));
    FirstUnknownNone(clazz, SearchPaths([]));
    assert PredicateList(clazz, []).Success? && |PredicateList(clazz, []).value| == 0;
    assert OrderList(clazz, []).Success? && |OrderList(clazz, []).value| == 0;
    FilterNothing(rows);
    SortWithoutOrders(rows);
  }

  lemma {:induction false} FilterNothing(rows: seq<Entity>)
    ensures Filter(rows, []) == rows
  {
    if rows != [] {
      assert Satisfies(rows[0], []);
      FilterNothing(rows[1..]);
      assert Filter(rows, []) == [rows[0]] + Filter(rows[1..], []);
    }
  }

  // ---------------------------------------------------------------------
  // Rows and their ids
  // ---------------------------------------------------------------------

  /** Every stored row has a generated id, and no two share one. */
  predicate UniqueIds(rows: seq<Entity>, nextId: int) {
    (forall i :: 0 <= i < |rows| ==> IdOf(rows[i]).Some? && 1 <= IdOf(rows[i]).value < nextId) &&
    (forall i, j :: 0 <= i < j < |rows| ==> IdOf(rows[i]) != IdOf(rows[j]))
  }

  /** The position of the row with the given id. */
  function IdIndex(rows: seq<Entity>, id: int): (r: Option<nat>)
    ensures r.Some? ==> r.value < |rows| && IdOf(rows[r.value]) == Some(id)
    ensures forall j :: 0 <= j < |rows| && (r.None? || j < r.value) ==> IdOf(rows[j]) != Some(id)
  {
    if rows == [] then None
    else if IdOf(rows[0]) == Some(id) then Some(0)
    else
      var r := IdIndex(rows[1..], id);
      if r.Some? then Some(r.value + 1) else None
  }

  /** Rows with distinct ids are distinct: each occurs once. */
  lemma UniqueIdsOnce(rows: seq<Entity>, nextId: int)
    requires UniqueIds(rows, nextId)
    ensures forall x :: multiset(rows)[x] <= 1
  {
    forall x | multiset(rows)[x] > 1
      ensures false
    {
      var i, j := DuplicatePositions(rows, x);
    }
  }

  /** An element counted twice sits at two positions. */
  lemma DuplicatePositions(s: seq<Entity>, x: Entity) returns (i: nat, j: nat)
    requires multiset(s)[x] >= 2
    ensures i < j < |s| && s[i] == x && s[j] == x
  {
    assert x in multiset(s);
    var k :| 0 <= k < |s| && s[k] == x;
    assert s == s[..k] + [x] + s[k + 1..];
    var rest := s[..k] + s[k + 1..];
    assert multiset(s) == multiset(rest) + multiset{x};
    assert x in multiset(rest);
    var m :| 0 <= m < |rest| && rest[m] == x;
    if m < k {
      assert s[m] == rest[m];
      i, j := m, k;
    } else {
      assert s[m + 1] == rest[m];
      i, j := k, m + 1;
    }
  }

  /** The rows without the one at position k. */
  function RemoveAt(rows: seq<Entity>, k: nat): (r: seq<Entity>)
    requires k < |rows|
    ensures |r| == |rows| - 1
    ensures forall i :: 0 <= i < |r| ==> r[i] == if i < k then rows[i] else rows[i + 1]
  {
    rows[..k] + rows[k + 1..]
  }

  // ---------------------------------------------------------------------
  // The data-access object
  // ---------------------------------------------------------------------

  class Dao {
    const clazz: EntityClass
    var entities: seq<Entity>
    var nextId: int

    ghost predicate Valid()
      reads this
    {
      (forall i :: 0 <= i < |entities| ==> ClassOf(entities[i]) == clazz) &&
      nextId >= 1 && UniqueIds(entities, nextId)
    }

    constructor(clazz: EntityClass)
      ensures Valid() && this.clazz == clazz && entities == [] && nextId == 1
    {
      this.clazz := clazz;
      entities := [];
      nextId := 1;
    }

    /** entityManager.find: the stored entity with that id, if any. */
    function FindById(id: int): (r: Option<Entity>)
      reads this
      ensures r.Some? ==> r.value in entities && IdOf(r.value) == Some(id)
      ensures r.None? <==> forall e :: e in entities ==> IdOf(e) != Some(id)
    {
      var k := IdIndex(entities, id);
      if k.Some? then Some(entities[k.value]) else None
    }

    /** findAll(offset, limit): the stored entities, offset skipped, at most limit. */
    function FindAll(offset: int, limit: int): (r: Result<seq<Entity>, DaoError>)
      reads this
      ensures r.Success? <==> offset >= 0 && limit >= 0
      ensures offset < 0 ==> r == Failure(NegativeFirstResult)
      ensures r.Success? ==>
        |r.value| <= limit && (|r.value| == limit || offset + |r.value| >= |entities|) &&
        forall i :: 0 <= i < |r.value| ==> offset + i < |entities| && r.value[i] == entities[offset + i]
    {
      Paged(entities, offset, limit)
    }

    /** findAll with criteria over the stored entities. */
    method FindAllByCriteria(searchCriteria: seq<SearchUnit>, sortCriteria: seq<SortUnit>, offset: int, limit: int)
      returns (r: Result<seq<Entity>, DaoError>)
      ensures r == CriteriaQuery(clazz, entities, searchCriteria, sortCriteria, offset, limit)
    {
      var predicates := ExtractPredicates(clazz, searchCriteria);
      if predicates.Failure? {
        return Failure(predicates.error);
      }
      var orderList := ExtractOrderList(clazz, sortCriteria);
      if orderList.Failure? {
        return Failure(orderList.error);
      }
      return Paged(SortRows(orderList.value, Filter(entities, predicates.value)), offset, limit);
    }

    /** persist: a new entity gets the next generated id; one that already has an id is refused. */
    method Add(entity: Entity) returns (r: Result<Entity, DaoError>)
      requires Valid() && ClassOf(entity) == clazz
      modifies this
      ensures Valid()
      ensures IdOf(entity).Some? ==> r == Failure(DetachedEntity) && unchanged(this)
      ensures IdOf(entity).None? ==>
        r == Success(WithId(entity, Some(old(nextId)))) &&
        entities == old(entities) + [r.value] && nextId == old(nextId) + 1
    {
      if IdOf(entity).Some? {
        return Failure(DetachedEntity);
      }
      var stored := WithId(entity, Some(nextId));
      entities := entities + [stored];
      nextId := nextId + 1;
      return Success(stored);
    }

    /**
      merge: an entity whose id is stored replaces the stored state; any
      other entity is inserted as new, with the next generated id.
     */
    method Update(entity: Entity) returns (r: Entity)
      requires Valid() && ClassOf(entity) == clazz
      modifies this
      ensures Valid()
      ensures IdOf(entity).Some? && old(FindById(IdOf(entity).value)).Some? ==>
        r == entity && nextId == old(nextId) &&
        entities == old(entities)[old(IdIndex(entities, IdOf(entity).value)).value := entity]
      ensures !(IdOf(entity).Some? && old(FindById(IdOf(entity).value)).Some?) ==>
        r == WithId(entity, Some(old(nextId))) && entities == old(entities) + [r] && nextId == old(nextId) + 1
    {
      if IdOf(entity).Some? {
        var k := IdIndex(entities, IdOf(entity).value);
        if k.Some? {
          entities := entities[k.value := entity];
          return entity;
        }
      }
      r := WithId(entity, Some(nextId));
      entities := entities + [r];
      nextId := nextId + 1;
    }

    /** delete(id): the stored entity is removed and returned; a missing id raises the not-found DaoException. */
    method Delete(id: int) returns (r: Result<Entity, DaoError>)
      requires Valid()
      modifies this`entities
      ensures Valid()
      ensures old(FindById(id)).None? ==> r == Failure(NotFound(NOT_FOUND)) && entities == old(entities)
      ensures old(FindById(id)).Some? ==>
        r == Success(old(FindById(id)).value) &&
        entities == RemoveAt(old(entities), old(IdIndex(entities, id)).value)
    {
      var k := IdIndex(entities, id);
      if k.None? {
        return Failure(NotFound(NOT_FOUND));
      }
      var entity := entities[k.value];
      entities := RemoveAt(entities, k.value);
      return Success(entity);
    }
  }

  /** After delete, no stored entity has the id, and every other entity is still stored. */
  lemma DeleteRemovesOnlyThatId(rows: seq<Entity>, nextId: int, id: int)
    requires UniqueIds(rows, nextId)
    requires IdIndex(rows, id).Some?
    ensures var rest := RemoveAt(rows, IdIndex(rows, id).value);
      (forall e :: e in rest ==> IdOf(e) != Some(id)) &&
      (forall e :: e in rows && IdOf(e) != Some(id) ==> e in rest)
  {
    var k := IdIndex(rows, id).value;
    var rest := RemoveAt(rows, k);
    forall e | e in rows && IdOf(e) != Some(id)
      ensures e in rest
    {
      var i :| 0 <= i < |rows| && rows[i] == e;
      if i < k {
        assert rest[i] == e;
      } else {
        assert i > k && rest[i - 1] == e;
      }
    }
  }
}
