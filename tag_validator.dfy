/** TagValidator: a tag's id must be positive and its name non-empty and at most 255 long, when present. */
module TagValidation {
  import opened Wrappers
  import opened Strings
  import opened Entities
  import opened ValidationErrors

  const NAME_MAX_LENGTH: nat := 255

  predicate Supports(clazz: EntityClass) {
    clazz == TagClass
  }

  /** The errors validate records for a tag, in order, under the nested path. */
  function TagErrors(tag: Tag, path: string): seq<FieldError> {
    RejectionIf(tag.id.Some? && tag.id.value < 1, path, "id", "id.not_positive") +
    TextErrors(tag.name, path, "name", "name.empty", "name.too_long", NAME_MAX_LENGTH)
  }

  /** What the rules demand of a tag; null fields are not checked. */
  predicate IsValidTag(tag: Tag) {
    (tag.id.None? || tag.id.value >= 1) && IsValidText(tag.name, NAME_MAX_LENGTH)
  }

  method Validate(tag: Tag, errors: Errors)
    modifies errors`fieldErrors
    ensures errors.fieldErrors == old(errors.fieldErrors) + TagErrors(tag, errors.nestedPath)
  {
    var id := tag.id;
    if id.Some? {
      if id.value < 1 {
        errors.RejectValue("id", "id.not_positive");
      }
    }
    ValidateText(errors, tag.name, "name", "name.empty", "name.too_long", NAME_MAX_LENGTH);
  }

  /** Only the id and name fields are named. */
  lemma TagErrorFieldNames(tag: Tag, path: string)
    ensures forall e :: e in TagErrors(tag, path) ==> e.field == path + "id" || e.field == path + "name"
  {
    TextErrorsMembers(tag.name, path, "name", "name.empty", "name.too_long", NAME_MAX_LENGTH);
  }

  /** Each error code is reported exactly when its rule is broken. */
  lemma TagErrorCodes(tag: Tag, path: string)
    ensures "id.not_positive" in Codes(TagErrors(tag, path)) <==> tag.id.Some? && tag.id.value < 1
    ensures "name.empty" in Codes(TagErrors(tag, path)) <==> tag.name == Some("")
    ensures "name.too_long" in Codes(TagErrors(tag, path)) <==>
      tag.name.Some? && Utf16Length(tag.name.value) > NAME_MAX_LENGTH
  {
    var idPart := RejectionIf(tag.id.Some? && tag.id.value < 1, path, "id", "id.not_positive");
    var namePart := TextErrors(tag.name, path, "name", "name.empty", "name.too_long", NAME_MAX_LENGTH);
    CodesConcat(idPart, namePart);
    if tag.name.Some? {
      CodesConcat(RejectionIf(tag.name.value == "", path, "name", "name.empty"),
        RejectionIf(Utf16Length(tag.name.value) > NAME_MAX_LENGTH, path, "name", "name.too_long"));
    }
  }

  /** A tag passes exactly when it meets every rule. */
  lemma TagErrorsEmptyIff(tag: Tag, path: string)
    ensures TagErrors(tag, path) == [] <==> IsValidTag(tag)
  {
    TextErrorsEmptyIff(tag.name, path, "name", "name.empty", "name.too_long", NAME_MAX_LENGTH);
  }

  /** (1, "name") passes and a tag of nulls passes. */
  lemma ValidTagExamples()
    ensures TagErrors(Tag(Some(1), Some("name")), "") == []
    ensures TagErrors(Tag(None, None), "") == []
    ensures Supports(TagClass) && !Supports(ObjectClass)
  {
    assert Utf16Length("name") == 4;
  }

  /** (-1, "") breaks the id and the name rules. */
  lemma InvalidTagExample()
    ensures TagErrors(Tag(Some(-1), Some("")), "") ==
      [FieldError("id", "id.not_positive"), FieldError("name", "name.empty")]
  {
    assert Utf16Length("") == 0;
    assert "" + "id" == "id" && "" + "name" == "name";
  }
}
