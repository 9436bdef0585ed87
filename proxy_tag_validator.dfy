/** ProxyTagValidator: the name is required, then every TagValidator rule applies. */
module ProxyTagValidation {
  import opened Wrappers
  import Strings
  import opened Entities
  import opened ValidationErrors
  import TagValidation

  predicate Supports(clazz: EntityClass) {
    TagValidation.Supports(clazz)
  }

  /** The errors validate records: the required-name check, then the tag rules. */
  function ProxyTagErrors(tag: Tag, path: string): seq<FieldError> {
    RejectionIf(IsEmptyValue(tag.name), path, "name", "name.empty") + TagValidation.TagErrors(tag, path)
  }

  method Validate(tag: Tag, errors: Errors)
    modifies errors`fieldErrors
    ensures errors.fieldErrors == old(errors.fieldErrors) + ProxyTagErrors(tag, errors.nestedPath)
  {
    RejectIfEmpty(errors, "name", "name.empty", tag.name);
    TagValidation.Validate(tag, errors);
  }

  /** How many times a code occurs among the errors. */
  function CodeCount(errors: seq<FieldError>, code: string): nat {
    multiset(Codes(errors))[code]
  }

  lemma CodeCountConcat(a: seq<FieldError>, b: seq<FieldError>, code: string)
    ensures CodeCount(a + b, code) == CodeCount(a, code) + CodeCount(b, code)
  {
    CodesConcat(a, b);
    assert multiset(Codes(a) + Codes(b)) == multiset(Codes(a)) + multiset(Codes(b));
  }

  lemma CodeCountRejection(condition: bool, path: string, field: string, code: string, other: string)
    ensures CodeCount(RejectionIf(condition, path, field, code), other) ==
      if condition && code == other then 1 else 0
  {
    if condition {
      assert Codes(RejectionIf(condition, path, field, code)) == [code];
    } else {
      assert Codes(RejectionIf(condition, path, field, code)) == [];
    }
  }

  /** How often TagValidator reports an empty name: once for "", never otherwise. */
  lemma TagNameEmptyCount(tag: Tag, path: string)
    ensures CodeCount(TagValidation.TagErrors(tag, path), "name.empty") == if tag.name == Some("") then 1 else 0
  {
    var idPart := RejectionIf(tag.id.Some? && tag.id.value < 1, path, "id", "id.not_positive");
    CodeCountRejection(tag.id.Some? && tag.id.value < 1, path, "id", "id.not_positive", "name.empty");
    if tag.name.Some? {
      var v := tag.name.value;
      var emptyPart := RejectionIf(v == "", path, "name", "name.empty");
      var longPart := RejectionIf(Strings.Utf16Length(v) > TagValidation.NAME_MAX_LENGTH, path, "name", "name.too_long");
      CodeCountRejection(v == "", path, "name", "name.empty", "name.empty");
      CodeCountRejection(Strings.Utf16Length(v) > TagValidation.NAME_MAX_LENGTH, path, "name", "name.too_long", "name.empty");
      CodeCountConcat(emptyPart, longPart, "name.empty");
      CodeCountConcat(idPart, emptyPart + longPart, "name.empty");
    } else {
      CodeCountConcat(idPart, [], "name.empty");
      assert idPart + [] == idPart;
    }
  }

  /**
    An empty name is reported twice, once by each check; a null name once,
    although TagValidator alone does not report it.
   */
  lemma NameEmptyCount(tag: Tag, path: string)
    ensures tag.name == Some("") ==> CodeCount(ProxyTagErrors(tag, path), "name.empty") == 2
    ensures tag.name.None? ==> CodeCount(ProxyTagErrors(tag, path), "name.empty") == 1
    ensures tag.name.None? ==> CodeCount(TagValidation.TagErrors(tag, path), "name.empty") == 0
    ensures tag.name.Some? && tag.name.value != "" ==> CodeCount(ProxyTagErrors(tag, path), "name.empty") == 0
  {
    CodeCountRejection(IsEmptyValue(tag.name), path, "name", "name.empty", "name.empty");
    TagNameEmptyCount(tag, path);
    CodeCountConcat(RejectionIf(IsEmptyValue(tag.name), path, "name", "name.empty"),
      TagValidation.TagErrors(tag, path), "name.empty");
  }

  /** The proxy reports every TagValidator error, and passes exactly the valid tags whose name is present. */
  lemma ProxyStricter(tag: Tag, path: string)
    ensures forall e :: e in TagValidation.TagErrors(tag, path) ==> e in ProxyTagErrors(tag, path)
    ensures ProxyTagErrors(tag, path) == [] <==> tag.name.Some? && TagValidation.IsValidTag(tag)
  {
    TagValidation.TagErrorsEmptyIff(tag, path);
  }
}
