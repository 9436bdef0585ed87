/** The duplicate EntityValidator of the service layer. */
module ServiceEntityValidator {
  import EntityValidator

  const ZERO: int := 0

  function IsIdValid(id: int): (r: bool)
    ensures r <==> id >= 1
  {
    ZERO < id
  }

  /** Both revisions accept exactly the same ids, and validity is upward-closed. */
  lemma AgreesWithModelValidator(id: int, larger: int)
    requires larger >= id
    ensures IsIdValid(id) == EntityValidator.IsIdValid(id)
    ensures IsIdValid(id) ==> IsIdValid(larger)
    ensures !IsIdValid(0)
  {
  }
}
