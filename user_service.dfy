/**
  UserServiceImpl: the guards in front of the user, order and certificate
  DAOs. Orders are made from a stored user and a stored certificate, at
  the certificate's price; registration builds an active USER, validates
  it, refuses an email already stored in lower case and stores the user
  with the encoded password.

  The clock and the password encoder are parameters: the encoder is a
  function the service is built with.
 */
module UserServiceImpl {
  import opened Wrappers
  import opened Strings
  import opened Units
  import opened Entities
  import opened ValidationErrors
  import opened Persistence
  import opened AbstractDao
  import opened ServiceGuards
  import EntityValidator
  import CriteriaConstructor
  import UserValidation

  /** The rows a list of users is stored as. */
  function UserEntities(users: seq<User>): seq<Entity> {
    seq(|users|, i requires 0 <= i < |users| => UserEntity(users[i]))
  }

  /** The users held by rows that are all user rows. */
  function Users(rows: seq<Entity>): (r: seq<User>)
    requires forall e :: e in rows ==> e.UserEntity?
    ensures UserEntities(r) == rows
  {
    var r := seq(|rows|, i requires 0 <= i < |rows| => rows[i].user);
    assert forall i :: 0 <= i < |rows| ==> rows[i] in rows && UserEntities(r)[i] == rows[i];
    r
  }

  /** The rows a list of orders is stored as. */
  function OrderEntities(orders: seq<Order>): seq<Entity> {
    seq(|orders|, i requires 0 <= i < |orders| => OrderEntity(orders[i]))
  }

  /** The orders held by rows that are all order rows. */
  function Orders(rows: seq<Entity>): (r: seq<Order>)
    requires forall e :: e in rows ==> e.OrderEntity?
    ensures OrderEntities(r) == rows
  {
    var r := seq(|rows|, i requires 0 <= i < |rows| => rows[i].order);
    assert forall i :: 0 <= i < |rows| ==> rows[i] in rows && OrderEntities(r)[i] == rows[i];
    r
  }

  // ---------------------------------------------------------------------
  // What the user DAO answers
  // ---------------------------------------------------------------------

  /** The stored orders whose user has the given id, in store order. */
  function OrdersOf(rows: seq<Entity>, id: int): (r: seq<Entity>)
    ensures |r| <= |rows|
    ensures forall e :: e in r <==> e in rows && e.OrderEntity? && e.order.user.id == Some(id)
  {
    if rows == [] then []
    else
      var rest := OrdersOf(rows[1..], id);
      assert rows == [rows[0]] + rows[1..];
      if rows[0].OrderEntity? && rows[0].order.user.id == Some(id) then [rows[0]] + rest else rest
  }

  /** An order appended to the store is the last of its user's orders, and no other user's. */
  lemma {:induction false} OrdersOfAppend(rows: seq<Entity>, order: Order, id: int)
    ensures OrdersOf(rows + [OrderEntity(order)], id) ==
            if order.user.id == Some(id) then OrdersOf(rows, id) + [OrderEntity(order)] else OrdersOf(rows, id)
  {
    if rows != [] {
      assert (rows + [OrderEntity(order)])[1..] == rows[1..] + [OrderEntity(order)];
      OrdersOfAppend(rows[1..], order, id);
    }
  }

  /**
    findOrdersOfUser of the user DAO: a user nobody has raises the
    not-found DaoException; otherwise the orders referencing that user,
    paged.
   */
  function FindOrdersOfUserInStore(users: seq<Entity>, orders: seq<Entity>, id: int, offset: int, limit: int)
    : Result<seq<Entity>, DaoError>
  {
    if IdIndex(users, id).None? then Failure(NotFound(NOT_FOUND))
    else Paged(OrdersOf(orders, id), offset, limit)
  }

  /**
    The error exactly when the user is missing or a paging argument is
    negative; otherwise at most limit stored orders, all of that user, and
    with offset 0 and a limit no smaller than the store, all of them.
   */
  lemma FindOrdersOfUserMeaning(users: seq<Entity>, orders: seq<Entity>, id: int, offset: int, limit: int)
    ensures FindOrdersOfUserInStore(users, orders, id, offset, limit).Success? <==>
      (exists e :: e in users && IdOf(e) == Some(id)) && offset >= 0 && limit >= 0
    ensures IdIndex(users, id).None? ==> FindOrdersOfUserInStore(users, orders, id, offset, limit) == Failure(NotFound(NOT_FOUND))
    ensures FindOrdersOfUserInStore(users, orders, id, offset, limit).Success? ==>
      var r := FindOrdersOfUserInStore(users, orders, id, offset, limit).value;
      |r| <= limit &&
      (forall e :: e in r ==> e in orders && e.OrderEntity? && e.order.user.id == Some(id)) &&
      (offset == 0 && limit >= |orders| ==> r == OrdersOf(orders, id))
  {
    var k := IdIndex(users, id);
    if k.Some? {
      assert users[k.value] in users;
      if offset >= 0 && limit >= 0 {
        var r := Page(OrdersOf(orders, id), offset, limit);
        forall e | e in r
          ensures e in OrdersOf(orders, id)
        {
          var i :| 0 <= i < |r| && r[i] == e;
        }
        if offset == 0 && limit >= |orders| {
          WholePage(OrdersOf(orders, id), limit);
        }
      }
    }
  }

  /** findByEmail of the user DAO: the first stored user with exactly that email. */
  function UserWithEmail(rows: seq<Entity>, email: string): (r: Option<User>)
    ensures r.Some? ==> UserEntity(r.value) in rows && r.value.email == Some(email)
    ensures r.None? <==> forall e :: e in rows && e.UserEntity? ==> e.user.email != Some(email)
  {
    if rows == [] then None
    else if rows[0].UserEntity? && rows[0].user.email == Some(email) then Some(rows[0].user)
    else
      assert rows == [rows[0]] + rows[1..];
      UserWithEmail(rows[1..], email)
  }

  // ---------------------------------------------------------------------
  // Registration
  // ---------------------------------------------------------------------

  /** The user register builds: the given fields, registered now, role USER and status ACTIVE. */
  function NewUser(email: string, password: string, name: string, surname: string, now: DateTime): User {
    User(None, Some(email), Some(password), Some(name), Some(surname), Some(now), Some(USER), Some(ACTIVE))
  }

  /** The field errors the DataBinder of register collects. */
  function RegisterErrors(email: string, password: string, name: string, surname: string, now: DateTime): seq<FieldError> {
    UserValidation.UserErrors(NewUser(email, password, name, surname, now), "")
  }

  /**
    Registration passes validation exactly when the email is a non-empty
    address of at most 100 UTF-16 units and the name, surname and raw
    password are each non-empty and at most 100 units long; the clock
    plays no part.
   */
  lemma RegisterErrorsEmptyIff(email: string, password: string, name: string, surname: string, now: DateTime)
    ensures RegisterErrors(email, password, name, surname, now) == [] <==>
      email != "" && Utf16Length(email) <= UserValidation.MAX_LENGTH && UserValidation.MatchesEmailPattern(email) &&
      password != "" && Utf16Length(password) <= UserValidation.MAX_LENGTH &&
      name != "" && Utf16Length(name) <= UserValidation.MAX_LENGTH &&
      surname != "" && Utf16Length(surname) <= UserValidation.MAX_LENGTH
  {
    UserValidation.UserErrorsEmptyIff(NewUser(email, password, name, surname, now), "");
  }

  /**
    The duplicate check looks the lower-cased email up, and stored emails
    keep their case: a stored "a@b.c" blocks "A@B.C", but a stored "A@b.c"
    does not block "A@b.c" itself.
   */
  lemma DuplicateCheckExamples(registered: DateTime)
    ensures UserWithEmail([UserEntity(NewUser("a@b.c", "p", "n", "s", registered).(id := Some(1)))], ToLower("A@B.C")).Some?
    ensures UserWithEmail([UserEntity(NewUser("A@b.c", "p", "n", "s", registered).(id := Some(1)))], ToLower("A@b.c")).None?
  {
    assert ToLower("A@B.C") == "a@b.c";
    assert ToLower("A@b.c") == "a@b.c";
  }

  /** The rows a criteria query returns from a store of user rows are user rows. */
  lemma QueryRowsAreUsers(rows: seq<Entity>, searchCriteria: seq<SearchUnit>, sortCriteria: seq<SortUnit>, offset: int, limit: int)
    requires forall i :: 0 <= i < |rows| ==> ClassOf(rows[i]) == UserClass
    ensures CriteriaQuery(UserClass, rows, searchCriteria, sortCriteria, offset, limit).Success? ==>
      forall e :: e in CriteriaQuery(UserClass, rows, searchCriteria, sortCriteria, offset, limit).value ==> e.UserEntity?
  {
    CriteriaQueryFromStore(UserClass, rows, searchCriteria, sortCriteria, offset, limit);
  }

  // ---------------------------------------------------------------------
  // The service
  // ---------------------------------------------------------------------

  class UserService {
    const userDao: Dao
    const orderDao: Dao
    const giftCertificateDao: Dao
    /** passwordEncoder.encode */
    const encode: string -> string

    ghost predicate Valid()
      reads this, userDao, orderDao, giftCertificateDao
    {
      userDao != orderDao && userDao != giftCertificateDao && orderDao != giftCertificateDao &&
      userDao.clazz == UserClass && orderDao.clazz == OrderClass && giftCertificateDao.clazz == GiftCertificateClass &&
      userDao.Valid() && orderDao.Valid() && giftCertificateDao.Valid()
    }

    constructor(userDao: Dao, orderDao: Dao, giftCertificateDao: Dao, encode: string -> string)
      requires userDao != orderDao && userDao != giftCertificateDao && orderDao != giftCertificateDao
      requires userDao.clazz == UserClass && orderDao.clazz == OrderClass && giftCertificateDao.clazz == GiftCertificateClass
      requires userDao.Valid() && orderDao.Valid() && giftCertificateDao.Valid()
      ensures Valid()
      ensures this.userDao == userDao && this.orderDao == orderDao && this.giftCertificateDao == giftCertificateDao
      ensures this.encode == encode
    {
      this.userDao := userDao;
      this.orderDao := orderDao;
      this.giftCertificateDao := giftCertificateDao;
      this.encode := encode;
    }

    /** findById: a non-positive id is refused; otherwise the stored user with that id, if any. */
    function FindById(id: int): (r: Result<Option<User>, ServiceError>)
      requires Valid()
      reads this, userDao, orderDao, giftCertificateDao
      ensures !EntityValidator.IsIdValid(id) <==> r == Failure(IllegalArgument)
      ensures r.Success? ==>
        (r.value.None? <==> forall e :: e in userDao.entities ==> IdOf(e) != Some(id)) &&
        (r.value.Some? ==> UserEntity(r.value.value) in userDao.entities && r.value.value.id == Some(id))
    {
      if !EntityValidator.IsIdValid(id) then Failure(IllegalArgument)
      else
        var found := userDao.FindById(id);
        if found.Some? && found.value.UserEntity? then Success(Some(found.value.user))
        else Success(None)
    }

    /** findAll: the paging arguments are checked, then the criteria query runs over the stored users. */
    method FindAll(sortField: Option<seq<string>>, sortType: Option<seq<string>>,
                   searchField: Option<seq<string>>, searchExpression: Option<seq<string>>,
                   offset: int, limit: int)
      returns (r: Result<seq<User>, ServiceError>)
      requires Valid()
      ensures !PagingValid(offset, limit) ==> r == Failure(IllegalArgument)
      ensures PagingValid(offset, limit) ==>
        var q := CriteriaQuery(UserClass, userDao.entities,
                               CriteriaConstructor.SearchCriteria(searchField, searchExpression),
                               CriteriaConstructor.SortCriteria(sortField, sortType), offset, limit);
        (q.Failure? ==> r == Failure(Rethrow(q.error))) &&
        (q.Success? ==> r.Success? && UserEntities(r.value) == q.value)
    {
      if !PagingValid(offset, limit) {
        return Failure(IllegalArgument);
      }
      var searchCriteria := CriteriaConstructor.ConvertListsToSearchCriteria(searchField, searchExpression);
      var sortCriteria := CriteriaConstructor.ConvertListsToSortCriteria(sortField, sortType);
      var found := userDao.FindAllByCriteria(searchCriteria, sortCriteria, offset, limit);
      if found.Failure? {
        return Failure(Rethrow(found.error));
      }
      QueryRowsAreUsers(userDao.entities, searchCriteria, sortCriteria, offset, limit);
      return Success(Users(found.value));
    }

    /**
      findOrdersOfUser: the id and then the paging arguments are checked;
      a user nobody has is a ServiceException around the DAO's not-found
      error; otherwise at most limit stored orders, all of that user.
     */
    function FindOrdersOfUser(id: int, offset: int, limit: int): (r: Result<seq<Order>, ServiceError>)
      requires Valid()
      reads this, userDao, orderDao, giftCertificateDao
      ensures !EntityValidator.IsIdValid(id) || !PagingValid(offset, limit) <==> r == Failure(IllegalArgument)
      ensures EntityValidator.IsIdValid(id) && PagingValid(offset, limit) ==>
        (r.Failure? <==> forall e :: e in userDao.entities ==> IdOf(e) != Some(id)) &&
        (r.Failure? ==> r.error == Wrapped(NotFound(NOT_FOUND)))
      ensures r.Success? ==>
        |r.value| <= limit &&
        (forall o :: o in r.value ==> OrderEntity(o) in orderDao.entities && o.user.id == Some(id)) &&
        OrderEntities(r.value) == FindOrdersOfUserInStore(userDao.entities, orderDao.entities, id, offset, limit).value
    {
      if !EntityValidator.IsIdValid(id) || !PagingValid(offset, limit) then Failure(IllegalArgument)
      else
        var found := FindOrdersOfUserInStore(userDao.entities, orderDao.entities, id, offset, limit);
        FindOrdersOfUserMeaning(userDao.entities, orderDao.entities, id, offset, limit);
        if found.Failure? then Failure(Rethrow(found.error))
        else
          var orders := Orders(found.value);
          assert forall o :: o in orders ==> OrderEntity(o) in found.value by {
            forall o | o in orders
              ensures OrderEntity(o) in found.value
            {
              var i :| 0 <= i < |orders| && orders[i] == o;
              assert OrderEntities(orders)[i] == found.value[i];
            }
          }
          Success(orders)
    }

    /**
      makeOrderOnGiftCertificate: both ids must be positive, and a missing
      user or certificate is a ServiceException; the order made now for
      that user and that certificate costs the certificate's price and is
      stored with the next generated id.
     */
    method MakeOrderOnGiftCertificate(userId: int, giftCertificateId: int, now: DateTime)
      returns (r: Result<Order, ServiceError>)
      requires Valid()
      modifies orderDao
      ensures Valid()
      ensures !EntityValidator.IsIdValid(userId) || !EntityValidator.IsIdValid(giftCertificateId) ==>
        r == Failure(IllegalArgument) && unchanged(orderDao)
      ensures EntityValidator.IsIdValid(userId) && EntityValidator.IsIdValid(giftCertificateId) ==>
        var u := IdIndex(userDao.entities, userId);
        var c := IdIndex(giftCertificateDao.entities, giftCertificateId);
        (u.None? ==> r == Failure(Missing(UserClass, userId)) && unchanged(orderDao)) &&
        (u.Some? && c.None? ==> r == Failure(Missing(GiftCertificateClass, giftCertificateId)) && unchanged(orderDao)) &&
        (u.Some? && c.Some? ==>
          userDao.entities[u.value].UserEntity? && giftCertificateDao.entities[c.value].CertificateEntity? &&
          r == Success(Order(Some(old(orderDao.nextId)), userDao.entities[u.value].user,
                             giftCertificateDao.entities[c.value].certificate,
                             giftCertificateDao.entities[c.value].certificate.price, now)) &&
          orderDao.entities == old(orderDao.entities) + [OrderEntity(r.value)] &&
          orderDao.nextId == old(orderDao.nextId) + 1)
    {
      if !EntityValidator.IsIdValid(userId) || !EntityValidator.IsIdValid(giftCertificateId) {
        return Failure(IllegalArgument);
      }
      var user := userDao.FindById(userId);
      if user.None? {
        return Failure(Missing(UserClass, userId));
      }
      var giftCertificate := giftCertificateDao.FindById(giftCertificateId);
      if giftCertificate.None? {
        return Failure(Missing(GiftCertificateClass, giftCertificateId));
      }
      assert ClassOf(user.value) == UserClass && ClassOf(giftCertificate.value) == GiftCertificateClass;
      var order := Order(None, user.value.user, giftCertificate.value.certificate, giftCertificate.value.certificate.price, now);
      var added := orderDao.Add(OrderEntity(order));
      return Success(added.value.order);
    }

    /** findByEmail: a null email is refused; otherwise the stored user with exactly that email, if any. */
    function FindByEmail(email: Option<string>): (r: Result<Option<User>, ServiceError>)
      requires Valid()
      reads this, userDao, orderDao, giftCertificateDao
      ensures email.None? <==> r == Failure(IllegalArgument)
      ensures r.Success? ==>
        (r.value.None? <==> forall e :: e in userDao.entities && e.UserEntity? ==> e.user.email != email) &&
        (r.value.Some? ==> UserEntity(r.value.value) in userDao.entities && r.value.value.email == email)
    {
      if email.None? then Failure(IllegalArgument)
      else Success(UserWithEmail(userDao.entities, email.value))
    }

    /**
      register: every argument is required; the new user must pass the
      user validator; a user stored under the lower-cased email makes the
      call answer false and store nothing; otherwise the user is stored
      with the encoded password, under the email as given, and the call
      answers true.
     */
    method Register(email: Option<string>, password: Option<string>, name: Option<string>, surname: Option<string>,
                    now: DateTime)
      returns (r: Result<bool, ServiceError>)
      requires Valid()
      modifies userDao
      ensures Valid()
      ensures email.None? || password.None? || name.None? || surname.None? ==>
        r == Failure(IllegalArgument) && unchanged(userDao)
      ensures email.Some? && password.Some? && name.Some? && surname.Some? ==>
        var errors := RegisterErrors(email.value, password.value, name.value, surname.value, now);
        (errors != [] ==> r == Failure(InvalidEntity(errors[0].field)) && unchanged(userDao)) &&
        (errors == [] && UserWithEmail(old(userDao.entities), ToLower(email.value)).Some? ==>
          r == Success(false) && unchanged(userDao)) &&
        (errors == [] && UserWithEmail(old(userDao.entities), ToLower(email.value)).None? ==>
          r == Success(true) &&
          userDao.entities == old(userDao.entities) +
            [UserEntity(NewUser(email.value, encode(password.value), name.value, surname.value, now).(id := Some(old(userDao.nextId))))] &&
          userDao.nextId == old(userDao.nextId) + 1)
    {
      if email.None? || password.None? || name.None? || surname.None? {
        return Failure(IllegalArgument);
      }
      var user := NewUser(email.value, password.value, name.value, surname.value, now);
      var errors := new Errors();
      UserValidation.Validate(user, errors);
      assert errors.fieldErrors == RegisterErrors(email.value, password.value, name.value, surname.value, now);
      if errors.HasErrors() {
        return Failure(InvalidEntity(errors.fieldErrors[0].field));
      }
      if UserWithEmail(userDao.entities, ToLower(email.value)).Some? {
        return Success(false);
      }
      user := user.(password := Some(encode(user.password.value)));
      assert user == NewUser(email.value, encode(password.value), name.value, surname.value, now);
      var added := userDao.Add(UserEntity(user));
      return Success(true);
    }
  }

  /** A user registered with an email already in lower case answers false on a second registration, whatever the other fields. */
  lemma SecondRegistrationRefused(rows: seq<Entity>, nextId: int, email: string, password: string, name: string, surname: string, now: DateTime)
    requires ToLower(email) == email
    ensures UserWithEmail(rows + [UserEntity(NewUser(email, password, name, surname, now).(id := Some(nextId)))], ToLower(email)).Some?
  {
    var stored := UserEntity(NewUser(email, password, name, surname, now).(id := Some(nextId)));
    assert stored in rows + [stored];
  }
}
