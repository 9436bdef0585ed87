/**
  GiftCertificateValidator: a present id must be positive, a present name
  and description non-empty and at most 255 and 65535 long, a present price
  (by its long value) and duration not negative, and present creation and
  update dates not before 1970; every tag of a present tag list is checked
  by the tag validator the certificate validator was built with, under the
  nested path "tags[i].".
 */
module GiftCertificateValidation {
  import opened Wrappers
  import opened Strings
  import opened Entities
  import opened ValidationErrors
  import TagValidation
  import ProxyTagValidation
  import UserValidation

  const NAME_MAX_LENGTH: nat := 255
  const DESCRIPTION_MAX_LENGTH: nat := 65535
  const MIN_YEAR: int := 1970

  predicate Supports(clazz: EntityClass) {
    clazz == GiftCertificateClass
  }

  // ---------------------------------------------------------------------
  // Construction
  // ---------------------------------------------------------------------

  /** The validators of the application, as a constructor argument may name them. */
  datatype ValidatorKind = TagKind | ProxyTagKind | GiftCertificateKind | ProxyGiftCertificateKind | UserKind

  /** supports(clazz) of each validator; the proxy certificate validator delegates to the plain one. */
  predicate KindSupports(kind: ValidatorKind, clazz: EntityClass) {
    match kind
    case TagKind => TagValidation.Supports(clazz)
    case ProxyTagKind => ProxyTagValidation.Supports(clazz)
    case GiftCertificateKind => Supports(clazz)
    case ProxyGiftCertificateKind => Supports(clazz)
    case UserKind => UserValidation.Supports(clazz)
  }

  /** The validators that can check the tags of a certificate. */
  datatype TagValidatorChoice = PlainTagValidator | ProxyTagValidator

  /** The two IllegalArgumentExceptions of the constructor. */
  datatype ConstructionError = NullValidator | UnsupportedValidator

  datatype GiftCertificateValidator = GiftCertificateValidator(tagValidator: TagValidatorChoice)

  /** The constructor: the tag validator must be present and support tags. */
  function New(tagValidator: Option<ValidatorKind>): (r: Result<GiftCertificateValidator, ConstructionError>)
    ensures tagValidator.None? ==> r == Failure(NullValidator)
    ensures r.Success? <==> tagValidator.Some? && KindSupports(tagValidator.value, TagClass)
    ensures r.Success? ==> (r.value.tagValidator == PlainTagValidator <==> tagValidator.value == TagKind)
  {
    if tagValidator.None? then Failure(NullValidator)
    else if !KindSupports(tagValidator.value, TagClass) then Failure(UnsupportedValidator)
    else if tagValidator.value == TagKind then Success(GiftCertificateValidator(PlainTagValidator))
    else Success(GiftCertificateValidator(ProxyTagValidator))
  }

  /** Exactly the two tag validators support tags, so only they can be passed. */
  lemma TagSupporters(kind: ValidatorKind)
    ensures KindSupports(kind, TagClass) <==> kind == TagKind || kind == ProxyTagKind
    ensures New(Some(kind)).Success? <==> kind == TagKind || kind == ProxyTagKind
  {
  }

  // ---------------------------------------------------------------------
  // The tag validators, as invokeValidator runs them
  // ---------------------------------------------------------------------

  function TagErrorsFor(choice: TagValidatorChoice, tag: Tag, path: string): seq<FieldError> {
    match choice
    case PlainTagValidator => TagValidation.TagErrors(tag, path)
    case ProxyTagValidator => ProxyTagValidation.ProxyTagErrors(tag, path)
  }

  /** What the chosen tag validator demands of a tag. */
  predicate TagPasses(choice: TagValidatorChoice, tag: Tag) {
    match choice
    case PlainTagValidator => TagValidation.IsValidTag(tag)
    case ProxyTagValidator => tag.name.Some? && TagValidation.IsValidTag(tag)
  }

  lemma TagErrorsForEmptyIff(choice: TagValidatorChoice, tag: Tag, path: string)
    ensures TagErrorsFor(choice, tag, path) == [] <==> TagPasses(choice, tag)
  {
    TagValidation.TagErrorsEmptyIff(tag, path);
    ProxyTagValidation.ProxyStricter(tag, path);
  }

  /** Every error a tag validator records names a field under the nested path. */
  lemma TagErrorFields(choice: TagValidatorChoice, tag: Tag, path: string)
    ensures forall e :: e in TagErrorsFor(choice, tag, path) ==> path <= e.field
  {
    TagValidation.TagErrorFieldNames(tag, path);
  }

  /** invokeValidator: the chosen validator supports Tag, so it is simply run. */
  method ValidateTag(choice: TagValidatorChoice, tag: Tag, errors: Errors)
    modifies errors`fieldErrors
    ensures errors.fieldErrors == old(errors.fieldErrors) + TagErrorsFor(choice, tag, errors.nestedPath)
  {
    match choice
    case PlainTagValidator =>
      TagValidation.Validate(tag, errors);
    case ProxyTagValidator =>
      ProxyTagValidation.Validate(tag, errors);
  }

  // ---------------------------------------------------------------------
  // The rules
  // ---------------------------------------------------------------------

  /** The nested path of tag i: String.format("%s[%d]", "tags", i). */
  function TagKey(i: nat): string {
    "tags[" + NatToString(i) + "]"
  }

  /** The nested path the tag validator runs under for tag i. */
  function ElementPath(path: string, i: nat): string {
    NestedPath(path + TagKey(i))
  }

  /** The errors the tag validator records for each tag, under that tag's nested path. */
  function TagErrorLists(choice: TagValidatorChoice, tags: seq<Tag>, path: string): seq<seq<FieldError>> {
    seq(|tags|, k requires 0 <= k < |tags| => TagErrorsFor(choice, tags[k], ElementPath(path, k)))
  }

  function TagsErrors(choice: TagValidatorChoice, tags: Option<seq<Tag>>, path: string): seq<FieldError> {
    if tags.None? then [] else Flatten(TagErrorLists(choice, tags.value, path))
  }

  function IdAndTextErrors(gc: GiftCertificate, path: string): seq<FieldError> {
    RejectionIf(gc.id.Some? && gc.id.value < 1, path, "id", "id.not_positive") +
    TextErrors(gc.name, path, "name", "name.empty", "name.too_long", NAME_MAX_LENGTH) +
    TextErrors(gc.description, path, "description", "description.empty", "description.too_long", DESCRIPTION_MAX_LENGTH)
  }

  function AmountErrors(gc: GiftCertificate, path: string): seq<FieldError> {
    RejectionIf(gc.price.Some? && LongValue(gc.price.value) < 0, path, "price", "price.negative") +
    RejectionIf(gc.duration.Some? && gc.duration.value < 0, path, "duration", "duration.negative")
  }

  function DateErrors(gc: GiftCertificate, path: string): seq<FieldError> {
    RejectionIf(gc.createDate.Some? && gc.createDate.value.year < MIN_YEAR, path, "createDate", "createDate.too_old") +
    RejectionIf(gc.lastUpdateDate.Some? && gc.lastUpdateDate.value.year < MIN_YEAR, path, "lastUpdateDate", "lastUpdateDate.too_old")
  }

  /** The errors of the certificate's own fields, in the order they are checked. */
  function FieldRuleErrors(gc: GiftCertificate, path: string): seq<FieldError> {
    IdAndTextErrors(gc, path) + AmountErrors(gc, path) + DateErrors(gc, path)
  }

  /** The errors validate records for a certificate, in order, under the nested path. */
  function CertificateErrors(v: GiftCertificateValidator, gc: GiftCertificate, path: string): seq<FieldError> {
    FieldRuleErrors(gc, path) + TagsErrors(v.tagValidator, gc.tags, path)
  }

  /** What the rules demand of a certificate; null fields are not checked. */
  predicate IsValidCertificate(v: GiftCertificateValidator, gc: GiftCertificate) {
    (gc.id.None? || gc.id.value >= 1) &&
    IsValidText(gc.name, NAME_MAX_LENGTH) &&
    IsValidText(gc.description, DESCRIPTION_MAX_LENGTH) &&
    (gc.price.None? || LongValue(gc.price.value) >= 0) &&
    (gc.duration.None? || gc.duration.value >= 0) &&
    (gc.createDate.None? || gc.createDate.value.year >= MIN_YEAR) &&
    (gc.lastUpdateDate.None? || gc.lastUpdateDate.value.year >= MIN_YEAR) &&
    (gc.tags.None? || forall k :: 0 <= k < |gc.tags.value| ==> TagPasses(v.tagValidator, gc.tags.value[k]))
  }

  // ---------------------------------------------------------------------
  // validate
  // ---------------------------------------------------------------------

  method Validate(v: GiftCertificateValidator, gc: GiftCertificate, errors: Errors)
    requires errors.Valid()
    modifies errors
    ensures errors.Valid()
    ensures errors.nestedPath == old(errors.nestedPath) && errors.nestedPathStack == old(errors.nestedPathStack)
    ensures errors.fieldErrors == old(errors.fieldErrors) + CertificateErrors(v, gc, old(errors.nestedPath))
  {
    ghost var path := errors.nestedPath;
    ghost var before := errors.fieldErrors;
    ValidateIdAndText(gc, errors);
    ValidateAmounts(gc, errors);
    ValidateDates(gc, errors);
    AppendThree(before, IdAndTextErrors(gc, path), AmountErrors(gc, path), DateErrors(gc, path));
    ghost var afterFields := errors.fieldErrors;
    var tags := gc.tags;
    if tags.Some? {
      ValidateTags(v.tagValidator, tags.value, errors);
    } else {
      assert FieldRuleErrors(gc, path) + [] == FieldRuleErrors(gc, path);
    }
    AppendTwo(before, FieldRuleErrors(gc, path), TagsErrors(v.tagValidator, gc.tags, path));
  }

  /** The loop over the tag list. */
  method ValidateTags(choice: TagValidatorChoice, tags: seq<Tag>, errors: Errors)
    requires errors.Valid()
    modifies errors
    ensures errors.Valid()
    ensures errors.nestedPath == old(errors.nestedPath) && errors.nestedPathStack == old(errors.nestedPathStack)
    ensures errors.fieldErrors == old(errors.fieldErrors) + Flatten(TagErrorLists(choice, tags, old(errors.nestedPath)))
  {
    ghost var path := errors.nestedPath;
    ghost var before := errors.fieldErrors;
    ghost var lists := TagErrorLists(choice, tags, path);
    for i := 0 to |tags|
      invariant errors.Valid()
      invariant errors.nestedPath == path && errors.nestedPathStack == old(errors.nestedPathStack)
      invariant errors.fieldErrors == before + Flatten(lists[..i])
    {
      ValidateElement(choice, tags[i], i, errors);
      assert lists[i] == TagErrorsFor(choice, tags[i], ElementPath(path, i));
      FlattenStep(lists, i);
      AppendTwo(before, Flatten(lists[..i]), lists[i]);
    }
    assert lists[..|tags|] == lists;
  }

  /** One iteration: push "tags[i]", invoke the tag validator, pop (the finally block). */
  method ValidateElement(choice: TagValidatorChoice, tag: Tag, i: nat, errors: Errors)
    requires errors.Valid()
    modifies errors
    ensures errors.Valid()
    ensures errors.nestedPath == old(errors.nestedPath) && errors.nestedPathStack == old(errors.nestedPathStack)
    ensures errors.fieldErrors == old(errors.fieldErrors) + TagErrorsFor(choice, tag, ElementPath(old(errors.nestedPath), i))
  {
    errors.PushNestedPath(TagKey(i));
    ValidateTag(choice, tag, errors);
    var popped := errors.PopNestedPath();
  }

  method ValidateIdAndText(gc: GiftCertificate, errors: Errors)
    modifies errors`fieldErrors
    ensures errors.fieldErrors == old(errors.fieldErrors) + IdAndTextErrors(gc, errors.nestedPath)
  {
    var id := gc.id;
    if id.Some? {
      if id.value < 1 {
        errors.RejectValue("id", "id.not_positive");
      }
    }
    ValidateText(errors, gc.name, "name", "name.empty", "name.too_long", NAME_MAX_LENGTH);
    ValidateText(errors, gc.description, "description", "description.empty", "description.too_long", DESCRIPTION_MAX_LENGTH);
  }

  method ValidateAmounts(gc: GiftCertificate, errors: Errors)
    modifies errors`fieldErrors
    ensures errors.fieldErrors == old(errors.fieldErrors) + AmountErrors(gc, errors.nestedPath)
  {
    var price := gc.price;
    if price.Some? {
      if LongValue(price.value) < 0 {
        errors.RejectValue("price", "price.negative");
      }
    }
    var duration := gc.duration;
    if duration.Some? {
      if duration.value < 0 {
        errors.RejectValue("duration", "duration.negative");
      }
    }
  }

  method ValidateDates(gc: GiftCertificate, errors: Errors)
    modifies errors`fieldErrors
    ensures errors.fieldErrors == old(errors.fieldErrors) + DateErrors(gc, errors.nestedPath)
  {
    var createDate := gc.createDate;
    if createDate.Some? {
      if createDate.value.year < MIN_YEAR {
        errors.RejectValue("createDate", "createDate.too_old");
      }
    }
    var lastUpdateDate := gc.lastUpdateDate;
    if lastUpdateDate.Some? {
      if lastUpdateDate.value.year < MIN_YEAR {
        errors.RejectValue("lastUpdateDate", "lastUpdateDate.too_old");
      }
    }
  }

  // ---------------------------------------------------------------------
  // Properties
  // ---------------------------------------------------------------------

  lemma PrefixOfConcat(a: string, b: string)
    ensures a <= a + b
  {
    assert (a + b)[..|a|] == a;
  }

  /** Tag i is validated under the outer path followed by "tags[i].". */
  lemma ElementPathShape(path: string, i: nat)
    ensures ElementPath(path, i) == path + "tags[" + NatToString(i) + "]."
    ensures path + "tags[" <= ElementPath(path, i)
  {
    var key := path + TagKey(i);
    assert key[|key| - 1] == ']';
    assert key + [NESTED_PATH_SEPARATOR] == path + "tags[" + NatToString(i) + "].";
    PrefixOfConcat(path + "tags[", NatToString(i) + "].");
    assert path + "tags[" + (NatToString(i) + "].") == path + "tags[" + NatToString(i) + "].";
  }

  /** The tag list passes exactly when every tag passes the chosen validator. */
  lemma TagListEmptyIff(choice: TagValidatorChoice, tags: seq<Tag>, path: string)
    ensures Flatten(TagErrorLists(choice, tags, path)) == [] <==> forall k :: 0 <= k < |tags| ==> TagPasses(choice, tags[k])
  {
    var lists := TagErrorLists(choice, tags, path);
    FlattenEmptyIff(lists);
    forall k | 0 <= k < |tags|
      ensures lists[k] == [] <==> TagPasses(choice, tags[k])
    {
      TagErrorsForEmptyIff(choice, tags[k], ElementPath(path, k));
    }
  }

  lemma PrefixTransitive(a: string, b: string, c: string)
    requires a <= b && b <= c
    ensures a <= c
  {
    assert c[..|b|][..|a|] == c[..|a|];
  }

  /** The errors of tag i name fields under "tags[". */
  lemma ElementFields(choice: TagValidatorChoice, tag: Tag, path: string, i: nat)
    ensures forall e :: e in TagErrorsFor(choice, tag, ElementPath(path, i)) ==> path + "tags[" <= e.field
  {
    var p := ElementPath(path, i);
    TagErrorFields(choice, tag, p);
    ElementPathShape(path, i);
    forall e | e in TagErrorsFor(choice, tag, p)
      ensures path + "tags[" <= e.field
    {
      PrefixTransitive(path + "tags[", p, e.field);
    }
  }

  /** Every error of the tag list names a field under "tags[". */
  lemma TagListFields(choice: TagValidatorChoice, tags: seq<Tag>, path: string)
    ensures forall e :: e in Flatten(TagErrorLists(choice, tags, path)) ==> path + "tags[" <= e.field
  {
    var lists := TagErrorLists(choice, tags, path);
    FlattenOrigin(lists);
    forall k | 0 <= k < |tags|
      ensures forall e: FieldError :: e in lists[k] ==> path + "tags[" <= e.field
    {
      ElementFields(choice, tags[k], path, k);
    }
  }

  /** The errors of the tag validator for tag k are reported, under "tags[k].". */
  lemma TagErrorsReported(v: GiftCertificateValidator, gc: GiftCertificate, path: string, k: nat)
    requires gc.tags.Some? && k < |gc.tags.value|
    ensures forall e :: e in TagErrorsFor(v.tagValidator, gc.tags.value[k], path + "tags[" + NatToString(k) + "].") ==>
      e in CertificateErrors(v, gc, path)
  {
    var lists := TagErrorLists(v.tagValidator, gc.tags.value, path);
    ElementPathShape(path, k);
    assert lists[k] == TagErrorsFor(v.tagValidator, gc.tags.value[k], path + "tags[" + NatToString(k) + "].");
    FlattenMembers(lists);
    assert forall e :: e in lists[k] ==> e in Flatten(lists);
    InSecondPart(FieldRuleErrors(gc, path), Flatten(lists));
  }

  lemma InSecondPart(a: seq<FieldError>, b: seq<FieldError>)
    ensures forall e :: e in b ==> e in a + b
  {
  }

  /** The codes the tag validators use. */
  const TAG_CODES: set<string> := {"id.not_positive", "name.empty", "name.too_long"}

  /** The codes validate can record for a certificate. */
  const CERTIFICATE_CODES: set<string> := TAG_CODES + {"description.empty", "description.too_long",
    "price.negative", "duration.negative", "createDate.too_old", "lastUpdateDate.too_old"}

  lemma TagCodes(choice: TagValidatorChoice, tag: Tag, path: string)
    ensures forall e :: e in TagErrorsFor(choice, tag, path) ==> e.code in TAG_CODES
  {
  }

  lemma FieldRuleCodes(gc: GiftCertificate, path: string)
    ensures forall e :: e in FieldRuleErrors(gc, path) ==> e.code in CERTIFICATE_CODES
  {
    TextErrorsMembers(gc.name, path, "name", "name.empty", "name.too_long", NAME_MAX_LENGTH);
    TextErrorsMembers(gc.description, path, "description", "description.empty", "description.too_long", DESCRIPTION_MAX_LENGTH);
  }

  lemma TagListCodes(choice: TagValidatorChoice, tags: seq<Tag>, path: string)
    ensures forall e :: e in Flatten(TagErrorLists(choice, tags, path)) ==> e.code in TAG_CODES
  {
    var lists := TagErrorLists(choice, tags, path);
    FlattenOrigin(lists);
    forall k | 0 <= k < |lists|
      ensures forall e: FieldError :: e in lists[k] ==> e.code in TAG_CODES
    {
      TagCodes(choice, tags[k], ElementPath(path, k));
    }
  }

  /** Every error validate records carries one of the certificate codes. */
  lemma CertificateErrorCodes(v: GiftCertificateValidator, gc: GiftCertificate, path: string)
    ensures forall e :: e in CertificateErrors(v, gc, path) ==> e.code in CERTIFICATE_CODES
  {
    FieldRuleCodes(gc, path);
    if gc.tags.Some? {
      TagListCodes(v.tagValidator, gc.tags.value, path);
    }
  }

  /** A certificate passes exactly when it meets every rule, its tags included. */
  lemma CertificateErrorsEmptyIff(v: GiftCertificateValidator, gc: GiftCertificate, path: string)
    ensures CertificateErrors(v, gc, path) == [] <==> IsValidCertificate(v, gc)
  {
    TextErrorsEmptyIff(gc.name, path, "name", "name.empty", "name.too_long", NAME_MAX_LENGTH);
    TextErrorsEmptyIff(gc.description, path, "description", "description.empty", "description.too_long", DESCRIPTION_MAX_LENGTH);
    if gc.tags.Some? {
      TagListEmptyIff(v.tagValidator, gc.tags.value, path);
    }
  }

  lemma DiffersFromTags(path: string, field: string)
    requires field != [] && field[0] != 't'
    ensures !(path + "tags[" <= path + field)
  {
    if |path + "tags["| <= |path + field| {
      assert (path + "tags[")[|path|] == 't';
      assert (path + field)[|path|] == field[0];
    }
  }

  /** A field whose name does not start with 't' is not under "tags[". */
  lemma NotUnderTags(errors: seq<FieldError>, path: string, field: string, code: string)
    requires forall e :: e in errors ==> path + "tags[" <= e.field
    requires field != [] && field[0] != 't'
    ensures FieldError(path + field, code) !in errors
  {
    DiffersFromTags(path, field);
  }

  /** The certificate's own fields are reported only by its field rules, never by the tag validator. */
  lemma OwnField(v: GiftCertificateValidator, gc: GiftCertificate, path: string, field: string, code: string)
    requires field != [] && field[0] != 't'
    ensures FieldError(path + field, code) in CertificateErrors(v, gc, path) <==>
      FieldError(path + field, code) in FieldRuleErrors(gc, path)
  {
    var tagErrors := TagsErrors(v.tagValidator, gc.tags, path);
    if gc.tags.Some? {
      TagListFields(v.tagValidator, gc.tags.value, path);
    }
    NotUnderTags(tagErrors, path, field, code);
  }

  lemma IdAndTextFields(gc: GiftCertificate, path: string)
    ensures forall e :: e in IdAndTextErrors(gc, path) ==>
      e.field == path + "id" || e.field == path + "name" || e.field == path + "description"
  {
  }

  lemma AmountFields(gc: GiftCertificate, path: string)
    ensures forall e :: e in AmountErrors(gc, path) ==> e.field == path + "price" || e.field == path + "duration"
  {
  }

  lemma DateFields(gc: GiftCertificate, path: string)
    ensures forall e :: e in DateErrors(gc, path) ==> e.field == path + "createDate" || e.field == path + "lastUpdateDate"
  {
  }

  lemma IdAndTextGroup(gc: GiftCertificate, path: string)
    ensures FieldError(path + "id", "id.not_positive") in IdAndTextErrors(gc, path) <==> gc.id.Some? && gc.id.value < 1
    ensures FieldError(path + "name", "name.empty") in IdAndTextErrors(gc, path) <==> gc.name == Some("")
    ensures FieldError(path + "name", "name.too_long") in IdAndTextErrors(gc, path) <==>
      gc.name.Some? && Utf16Length(gc.name.value) > NAME_MAX_LENGTH
    ensures FieldError(path + "description", "description.empty") in IdAndTextErrors(gc, path) <==>
      gc.description == Some("")
    ensures FieldError(path + "description", "description.too_long") in IdAndTextErrors(gc, path) <==>
      gc.description.Some? && Utf16Length(gc.description.value) > DESCRIPTION_MAX_LENGTH
  {
    var a := RejectionIf(gc.id.Some? && gc.id.value < 1, path, "id", "id.not_positive");
    var b := TextErrors(gc.name, path, "name", "name.empty", "name.too_long", NAME_MAX_LENGTH);
    var c := TextErrors(gc.description, path, "description", "description.empty", "description.too_long", DESCRIPTION_MAX_LENGTH);
    TextErrorsMembers(gc.name, path, "name", "name.empty", "name.too_long", NAME_MAX_LENGTH);
    TextErrorsMembers(gc.description, path, "description", "description.empty", "description.too_long", DESCRIPTION_MAX_LENGTH);
    InFirstGroup(FieldError(path + "id", "id.not_positive"), a, b, c);
    InSecondGroup(FieldError(path + "name", "name.empty"), a, b, c);
    InSecondGroup(FieldError(path + "name", "name.too_long"), a, b, c);
    InThirdGroup(FieldError(path + "description", "description.empty"), a, b, c);
    InThirdGroup(FieldError(path + "description", "description.too_long"), a, b, c);
  }

  /** The id, name and description errors are reported exactly when their rules are broken. */
  lemma IdAndTextRules(v: GiftCertificateValidator, gc: GiftCertificate, path: string)
    ensures FieldError(path + "id", "id.not_positive") in CertificateErrors(v, gc, path) <==>
      gc.id.Some? && gc.id.value < 1
    ensures FieldError(path + "name", "name.empty") in CertificateErrors(v, gc, path) <==> gc.name == Some("")
    ensures FieldError(path + "name", "name.too_long") in CertificateErrors(v, gc, path) <==>
      gc.name.Some? && Utf16Length(gc.name.value) > NAME_MAX_LENGTH
    ensures FieldError(path + "description", "description.empty") in CertificateErrors(v, gc, path) <==>
      gc.description == Some("")
    ensures FieldError(path + "description", "description.too_long") in CertificateErrors(v, gc, path) <==>
      gc.description.Some? && Utf16Length(gc.description.value) > DESCRIPTION_MAX_LENGTH
  {
    var a, b, c := IdAndTextErrors(gc, path), AmountErrors(gc, path), DateErrors(gc, path);
    IdAndTextGroup(gc, path);
    AmountFields(gc, path);
    DateFields(gc, path);
    OwnField(v, gc, path, "id", "id.not_positive");
    InFirstGroup(FieldError(path + "id", "id.not_positive"), a, b, c);
    OwnField(v, gc, path, "name", "name.empty");
    InFirstGroup(FieldError(path + "name", "name.empty"), a, b, c);
    OwnField(v, gc, path, "name", "name.too_long");
    InFirstGroup(FieldError(path + "name", "name.too_long"), a, b, c);
    OwnField(v, gc, path, "description", "description.empty");
    InFirstGroup(FieldError(path + "description", "description.empty"), a, b, c);
    OwnField(v, gc, path, "description", "description.too_long");
    InFirstGroup(FieldError(path + "description", "description.too_long"), a, b, c);
  }

  lemma AmountAndDateGroups(gc: GiftCertificate, path: string)
    ensures FieldError(path + "price", "price.negative") in AmountErrors(gc, path) <==>
      gc.price.Some? && LongValue(gc.price.value) < 0
    ensures FieldError(path + "duration", "duration.negative") in AmountErrors(gc, path) <==>
      gc.duration.Some? && gc.duration.value < 0
    ensures FieldError(path + "createDate", "createDate.too_old") in DateErrors(gc, path) <==>
      gc.createDate.Some? && gc.createDate.value.year < MIN_YEAR
    ensures FieldError(path + "lastUpdateDate", "lastUpdateDate.too_old") in DateErrors(gc, path) <==>
      gc.lastUpdateDate.Some? && gc.lastUpdateDate.value.year < MIN_YEAR
  {
  }

  /** The price, duration and date errors are reported exactly when their rules are broken. */
  lemma AmountAndDateRules(v: GiftCertificateValidator, gc: GiftCertificate, path: string)
    ensures FieldError(path + "price", "price.negative") in CertificateErrors(v, gc, path) <==>
      gc.price.Some? && LongValue(gc.price.value) < 0
    ensures FieldError(path + "duration", "duration.negative") in CertificateErrors(v, gc, path) <==>
      gc.duration.Some? && gc.duration.value < 0
    ensures FieldError(path + "createDate", "createDate.too_old") in CertificateErrors(v, gc, path) <==>
      gc.createDate.Some? && gc.createDate.value.year < MIN_YEAR
    ensures FieldError(path + "lastUpdateDate", "lastUpdateDate.too_old") in CertificateErrors(v, gc, path) <==>
      gc.lastUpdateDate.Some? && gc.lastUpdateDate.value.year < MIN_YEAR
  {
    var a, b, c := IdAndTextErrors(gc, path), AmountErrors(gc, path), DateErrors(gc, path);
    AmountAndDateGroups(gc, path);
    IdAndTextFields(gc, path);
    AmountFields(gc, path);
    DateFields(gc, path);
    OwnField(v, gc, path, "price", "price.negative");
    InSecondGroup(FieldError(path + "price", "price.negative"), a, b, c);
    OwnField(v, gc, path, "duration", "duration.negative");
    InSecondGroup(FieldError(path + "duration", "duration.negative"), a, b, c);
    OwnField(v, gc, path, "createDate", "createDate.too_old");
    InThirdGroup(FieldError(path + "createDate", "createDate.too_old"), a, b, c);
    OwnField(v, gc, path, "lastUpdateDate", "lastUpdateDate.too_old");
    InThirdGroup(FieldError(path + "lastUpdateDate", "lastUpdateDate.too_old"), a, b, c);
  }

  /**
    The price rule reads the long value: a price of -0.5 is truncated to 0
    and passes, and a price of 2^63 wraps to a negative long and is rejected.
   */
  lemma PriceByLongValue(v: GiftCertificateValidator, gc: GiftCertificate, path: string)
    ensures gc.price == Some(Decimal(-5, 1)) ==> FieldError(path + "price", "price.negative") !in CertificateErrors(v, gc, path)
    ensures gc.price == Some(Decimal(TWO_63, 0)) ==> FieldError(path + "price", "price.negative") in CertificateErrors(v, gc, path)
  {
    AmountAndDateRules(v, gc, path);
    NegativeFractionLongValue();
    HugeLongValueWraps();
  }

  /** A certificate whose fields are all null passes. */
  lemma NullCertificatePasses(v: GiftCertificateValidator, path: string)
    ensures CertificateErrors(v, GiftCertificate(None, None, None, None, None, None, None, None), path) == []
  {
  }

  /** The invalid certificate of the tests breaks every field rule. */
  lemma InvalidCertificateErrors(v: GiftCertificateValidator, gc: GiftCertificate)
    requires gc == GiftCertificate(Some(-1), Some(""), Some(""), Some(Decimal(-10, 0)), Some(-1),
      Some(DateTime(1, 1, 1, 1, 1, 0, 0)), Some(DateTime(1, 1, 1, 1, 1, 0, 0)), None)
    ensures CertificateErrors(v, gc, "") ==
      [FieldError("id", "id.not_positive"), FieldError("name", "name.empty"),
       FieldError("description", "description.empty"), FieldError("price", "price.negative"),
       FieldError("duration", "duration.negative"), FieldError("createDate", "createDate.too_old"),
       FieldError("lastUpdateDate", "lastUpdateDate.too_old")]
  {
    assert Utf16Length("") == 0;
    assert LongValue(Decimal(-10, 0)) == -10;
    assert "" + "id" == "id" && "" + "name" == "name" && "" + "description" == "description";
    assert "" + "price" == "price" && "" + "duration" == "duration";
    assert "" + "createDate" == "createDate" && "" + "lastUpdateDate" == "lastUpdateDate";
  }
}
