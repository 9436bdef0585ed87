/**
  What the services share: the paging guard, and how they fail: an IllegalArgumentException for a bad argument
  or an invalid entity, a ServiceException wrapping a DaoException or
  reporting a missing entity, and the unchecked failures of the
  persistence layer, which the services let through.
 */
module ServiceGuards {
  import opened Entities
  import opened AbstractDao
  import QueryParameterValidator

  datatype ServiceError =
    /** IllegalArgumentException: a null argument, a non-positive id or a negative offset or limit. */
    | IllegalArgument
    /** IllegalArgumentException naming the field of the first field error. */
    | InvalidEntity(field: string)
    /** ServiceException wrapping a DaoException. */
    | Wrapped(cause: DaoError)
    /** ServiceException of the service itself: no entity of that class has that id. */
    | Missing(clazz: EntityClass, id: int)
    /** A runtime failure of the persistence layer, not caught by the service. */
    | Unchecked(cause: DaoError)

  /** What a catch (DaoException e) does with a failure of the persistence layer. */
  function Rethrow(e: DaoError): (r: ServiceError)
    ensures r.Wrapped? <==> e.NotFound?
    ensures r.Wrapped? || r.Unchecked?
    ensures r.cause == e
  {
    if e.NotFound? then Wrapped(e) else Unchecked(e)
  }

  /** The offset and limit check every paged finder of the services starts with. */
  predicate PagingValid(offset: int, limit: int) {
    QueryParameterValidator.IsOffsetValid(offset) && QueryParameterValidator.IsLimitValid(limit)
  }
}
