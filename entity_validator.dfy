/** EntityValidator of the model layer: ids are positive. */
module EntityValidator {
  const ZERO: int := 0

  function IsIdValid(id: int): (r: bool)
    ensures r <==> id >= 1
  {
    ZERO < id
  }

  /** 1 is valid; 0 and -1 are not; a larger id than a valid one is valid. */
  lemma IdValidity(id: int, larger: int)
    requires IsIdValid(id) && larger >= id
    ensures IsIdValid(larger)
    ensures IsIdValid(1) && !IsIdValid(0) && !IsIdValid(-1)
  {
  }
}
