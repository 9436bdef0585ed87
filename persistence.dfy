/**
  What the persistence layer knows of the entities: their class, their
  generated id and the values of their basic attributes; and what a
  criteria query does with a list of rows: keep the rows every LIKE
  predicate accepts, order them by the order list, and cut out the page
  between setFirstResult and setMaxResults.
 */
module Persistence {
  import opened Wrappers
  import opened Units
  import opened Entities
  import opened StoreValues

  /** An entity of one of the mapped classes. */
  datatype Entity =
    | TagEntity(tag: Tag)
    | CertificateEntity(certificate: GiftCertificate)
    | UserEntity(user: User)
    | OrderEntity(order: Order)

  function ClassOf(e: Entity): EntityClass {
    match e
    case TagEntity(_) => TagClass
    case CertificateEntity(_) => GiftCertificateClass
    case UserEntity(_) => UserClass
    case OrderEntity(_) => OrderClass
  }

  function IdOf(e: Entity): Option<int> {
    match e
    case TagEntity(t) => t.id
    case CertificateEntity(c) => c.id
    case UserEntity(u) => u.id
    case OrderEntity(o) => o.id
  }

  /** The entity with its id field set, as the store does when it generates one. */
  function WithId(e: Entity, id: Option<int>): (r: Entity)
    ensures IdOf(r) == id && ClassOf(r) == ClassOf(e)
  {
    match e
    case TagEntity(t) => TagEntity(t.(id := id))
    case CertificateEntity(c) => CertificateEntity(c.(id := id))
    case UserEntity(u) => UserEntity(u.(id := id))
    case OrderEntity(o) => OrderEntity(o.(id := id))
  }

  /** The basic attributes root.get accepts for each class. */
  function AttributeNames(clazz: EntityClass): set<string> {
    match clazz
    case TagClass => {"id", "name"}
    case GiftCertificateClass => {"id", "name", "description", "price", "duration", "createDate", "lastUpdateDate"}
    case UserClass => {"id", "email", "password", "name", "surname", "registrationDate", "role", "status"}
    case OrderClass => {"id", "cost", "orderDate"}
    case ObjectClass => {}
  }

  function IdValue(id: Option<int>): Value {
    if id.Some? then Number(id.value) else Null
  }

  function TextValue(s: Option<string>): Value {
    if s.Some? then Text(s.value) else Null
  }

  function DecimalValue(d: Option<Decimal>): Value {
    if d.Some? then Fixed(d.value) else Null
  }

  function DateValue(t: Option<DateTime>): Value {
    if t.Some? then Moment(t.value) else Null
  }

  function RoleValue(r: Option<Role>): Value {
    match r
    case None => Null
    case Some(USER) => Text("USER")
    case Some(OtherRole(name)) => Text(name)
  }

  function StatusValue(s: Option<Status>): Value {
    match s
    case None => Null
    case Some(ACTIVE) => Text("ACTIVE")
    case Some(OtherStatus(name)) => Text(name)
  }

  /** The column value of a basic attribute; NULL for a name the class lacks. */
  function Attribute(e: Entity, name: string): Value {
    match e
    case TagEntity(t) =>
      if name == "id" then IdValue(t.id) else if name == "name" then TextValue(t.name) else Null
    case CertificateEntity(c) => CertificateAttribute(c, name)
    case UserEntity(u) => UserAttribute(u, name)
    case OrderEntity(o) =>
      if name == "id" then IdValue(o.id)
      else if name == "cost" then DecimalValue(o.cost)
      else if name == "orderDate" then Moment(o.orderDate)
      else Null
  }

  function CertificateAttribute(c: GiftCertificate, name: string): Value {
    if name == "id" then IdValue(c.id)
    else if name == "name" then TextValue(c.name)
    else if name == "description" then TextValue(c.description)
    else if name == "price" then DecimalValue(c.price)
    else if name == "duration" then IdValue(c.duration)
    else if name == "createDate" then DateValue(c.createDate)
    else if name == "lastUpdateDate" then DateValue(c.lastUpdateDate)
    else Null
  }

  function UserAttribute(u: User, name: string): Value {
    if name == "id" then IdValue(u.id)
    else if name == "email" then TextValue(u.email)
    else if name == "password" then TextValue(u.password)
    else if name == "name" then TextValue(u.name)
    else if name == "surname" then TextValue(u.surname)
    else if name == "registrationDate" then DateValue(u.registrationDate)
    else if name == "role" then RoleValue(u.role)
    else if name == "status" then StatusValue(u.status)
    else Null
  }

  // ---------------------------------------------------------------------
  // The criteria a query is built from
  // ---------------------------------------------------------------------

  /** criteriaBuilder.asc(root.get(path)) or criteriaBuilder.desc(root.get(path)) */
  datatype QueryOrder = Ascending(path: string) | Descending(path: string)

  /** criteriaBuilder.like(root.get(path), pattern) */
  datatype LikePredicate = LikePredicate(path: string, pattern: string)

  /** The conjunction of the predicates holds for the row (an empty conjunction holds). */
  predicate Satisfies(e: Entity, predicates: seq<LikePredicate>) {
    forall i :: 0 <= i < |predicates| ==> LikeValue(Attribute(e, predicates[i].path), predicates[i].pattern)
  }

  /** The rows the WHERE clause keeps, in store order. */
  function Filter(rows: seq<Entity>, predicates: seq<LikePredicate>): (r: seq<Entity>)
    ensures |r| <= |rows|
    ensures forall e :: e in r <==> e in rows && Satisfies(e, predicates)
    ensures forall e :: multiset(r)[e] == if Satisfies(e, predicates) then multiset(rows)[e] else 0
  {
    if rows == [] then []
    else
      var rest := Filter(rows[1..], predicates);
      assert rows == [rows[0]] + rows[1..];
      if Satisfies(rows[0], predicates) then [rows[0]] + rest else rest
  }

  // ---------------------------------------------------------------------
  // ORDER BY
  // ---------------------------------------------------------------------

  /** a may come before b: the first order on which they differ decides, and a tie on all of them allows either. */
  predicate InOrder(orders: seq<QueryOrder>, a: Entity, b: Entity) {
    if orders == [] then true
    else
      var c := CompareValues(Attribute(a, orders[0].path), Attribute(b, orders[0].path));
      if c == 0 then InOrder(orders[1..], a, b)
      else if orders[0].Ascending? then c < 0
      else c > 0
  }

  /** Any two rows can be ordered. */
  lemma {:induction false} InOrderTotal(orders: seq<QueryOrder>, a: Entity, b: Entity)
    ensures InOrder(orders, a, b) || InOrder(orders, b, a)
  {
    if orders != [] {
      CompareValuesAntisymmetric(Attribute(a, orders[0].path), Attribute(b, orders[0].path));
      InOrderTotal(orders[1..], a, b);
    }
  }

  /** Each row is in order with the next. */
  predicate Sorted(orders: seq<QueryOrder>, rows: seq<Entity>) {
    forall i :: 0 <= i < |rows| - 1 ==> InOrder(orders, rows[i], rows[i + 1])
  }

  /** x placed before the first row it may precede. */
  function Insert(orders: seq<QueryOrder>, x: Entity, rows: seq<Entity>): (r: seq<Entity>)
    ensures multiset(r) == multiset(rows) + multiset{x}
    ensures r != [] && (r[0] == x || (rows != [] && r[0] == rows[0]))
    ensures Sorted(orders, rows) ==> Sorted(orders, r)
  {
    if rows == [] || InOrder(orders, x, rows[0]) then [x] + rows
    else
      var rest := Insert(orders, x, rows[1..]);
      assert rows == [rows[0]] + rows[1..];
      InOrderTotal(orders, x, rows[0]);
      [rows[0]] + rest
  }

  /** The rows in the order the order list asks for; rows that tie keep their store order. */
  function SortRows(orders: seq<QueryOrder>, rows: seq<Entity>): (r: seq<Entity>)
    ensures Sorted(orders, r)
    ensures multiset(r) == multiset(rows)
  {
    if rows == [] then []
    else
      assert rows == [rows[0]] + rows[1..];
      Insert(orders, rows[0], SortRows(orders, rows[1..]))
  }

  /** With no order list, the rows keep their store order. */
  lemma {:induction false} SortWithoutOrders(rows: seq<Entity>)
    ensures SortRows([], rows) == rows
  {
    if rows != [] {
      SortWithoutOrders(rows[1..]);
      assert rows == [rows[0]] + rows[1..];
    }
  }

  // ---------------------------------------------------------------------
  // setFirstResult / setMaxResults
  // ---------------------------------------------------------------------

  /** offset rows skipped, then at most limit rows. */
  function Page(rows: seq<Entity>, offset: nat, limit: nat): (r: seq<Entity>)
    ensures |r| <= limit
    ensures forall i :: 0 <= i < |r| ==> offset + i < |rows| && r[i] == rows[offset + i]
    ensures |r| == limit || offset + |r| >= |rows|
  {
    if offset >= |rows| then []
    else rows[offset..offset + Min(limit, |rows| - offset)]
  }

  /** A page holds no row more often than the whole list. */
  lemma PageWithin(rows: seq<Entity>, offset: nat, limit: nat)
    ensures multiset(Page(rows, offset, limit)) <= multiset(rows)
  {
    if offset < |rows| {
      var end := offset + Min(limit, |rows| - offset);
      assert rows == rows[..offset] + rows[offset..end] + rows[end..];
    }
  }

  /** A page cut from sorted rows is sorted. */
  lemma PageSorted(orders: seq<QueryOrder>, rows: seq<Entity>, offset: nat, limit: nat)
    requires Sorted(orders, rows)
    ensures Sorted(orders, Page(rows, offset, limit))
  {
    var r := Page(rows, offset, limit);
    forall i | 0 <= i < |r| - 1
      ensures InOrder(orders, r[i], r[i + 1])
    {
      assert r[i] == rows[offset + i] && r[i + 1] == rows[offset + i + 1];
    }
  }

  /**
    The rows a query keeps, ordered and cut to a page: at most limit rows,
    each a stored row the predicates accept, in order, and none more often
    than it is stored.
   */
  lemma FilterSortPage(rows: seq<Entity>, predicates: seq<LikePredicate>, orders: seq<QueryOrder>, offset: nat, limit: nat)
    ensures var r := Page(SortRows(orders, Filter(rows, predicates)), offset, limit);
      |r| <= limit &&
      (forall e :: e in r ==> e in rows && Satisfies(e, predicates)) &&
      Sorted(orders, r) &&
      multiset(r) <= multiset(rows)
  {
    var sorted := SortRows(orders, Filter(rows, predicates));
    var r := Page(sorted, offset, limit);
    PageWithin(sorted, offset, limit);
    forall e | e in r
      ensures e in rows && Satisfies(e, predicates)
    {
      assert e in multiset(sorted);
    }
    PageSorted(orders, sorted, offset, limit);
  }

  /** Sorting keeps the number of rows. */
  lemma SortKeepsLength(orders: seq<QueryOrder>, rows: seq<Entity>)
    ensures |SortRows(orders, rows)| == |rows|
  {
    assert |multiset(SortRows(orders, rows))| == |multiset(rows)|;
  }

  /** The page of accepted rows is short of limit only where the accepted rows run out. */
  lemma FilterSortPageFull(rows: seq<Entity>, predicates: seq<LikePredicate>, orders: seq<QueryOrder>, offset: nat, limit: nat)
    ensures var r := Page(SortRows(orders, Filter(rows, predicates)), offset, limit);
      |r| == limit || offset + |r| >= |Filter(rows, predicates)|
  {
    SortKeepsLength(orders, Filter(rows, predicates));
  }
}
