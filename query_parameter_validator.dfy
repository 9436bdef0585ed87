/** QueryParameterValidator: the paging arguments a query accepts. */
module QueryParameterValidator {
  const ZERO: int := 0

  function IsOffsetValid(offset: int): (r: bool)
    ensures r <==> 0 <= offset
  {
    offset >= ZERO
  }

  function IsLimitValid(limit: int): (r: bool)
    ensures r <==> 0 <= limit
  {
    limit >= ZERO
  }

  /** Zero is accepted for both, and there is no upper bound on the limit. */
  lemma PagingBounds(limit: int)
    requires limit >= 0
    ensures IsOffsetValid(0) && IsLimitValid(0)
    ensures IsLimitValid(limit) && IsLimitValid(501)
    ensures !IsOffsetValid(-1) && !IsLimitValid(-1)
  {
  }
}
