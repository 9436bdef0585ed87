/**
  ProxyGiftCertificateValidator: every field but the id and the tags is
  required; a null field is reported with its ".null" code, and then every
  GiftCertificateValidator rule applies.
 */
module ProxyGiftCertificateValidation {
  import opened Wrappers
  import opened Entities
  import opened ValidationErrors
  import GC = GiftCertificateValidation

  datatype ProxyGiftCertificateValidator = ProxyGiftCertificateValidator(giftCertificateValidator: GC.GiftCertificateValidator)

  /** The constructor checks the tag validator as the certificate validator does, then builds one. */
  function New(tagValidator: Option<GC.ValidatorKind>): (r: Result<ProxyGiftCertificateValidator, GC.ConstructionError>)
    ensures r.Success? <==> GC.New(tagValidator).Success?
    ensures r.Failure? ==> r.error == GC.New(tagValidator).error
    ensures r.Success? ==> r.value.giftCertificateValidator == GC.New(tagValidator).value
  {
    if tagValidator.None? then Failure(GC.NullValidator)
    else if !GC.KindSupports(tagValidator.value, TagClass) then Failure(GC.UnsupportedValidator)
    else Success(ProxyGiftCertificateValidator(GC.New(tagValidator).value))
  }

  /** supports delegates to the certificate validator. */
  predicate Supports(v: ProxyGiftCertificateValidator, clazz: EntityClass) {
    GC.Supports(clazz)
  }

  /**
    rejectIfEmpty on a null field: the value it reads is null, so the field
    is always rejected. The six checks, in three pairs.
   */
  function TextNullErrors(gc: GiftCertificate, path: string): seq<FieldError> {
    RejectionIf(gc.name.None?, path, "name", "name.null") +
    RejectionIf(gc.description.None?, path, "description", "description.null")
  }

  function AmountNullErrors(gc: GiftCertificate, path: string): seq<FieldError> {
    RejectionIf(gc.price.None?, path, "price", "price.null") +
    RejectionIf(gc.duration.None?, path, "duration", "duration.null")
  }

  function DateNullErrors(gc: GiftCertificate, path: string): seq<FieldError> {
    RejectionIf(gc.createDate.None?, path, "createDate", "createDate.null") +
    RejectionIf(gc.lastUpdateDate.None?, path, "lastUpdateDate", "lastUpdateDate.null")
  }

  function NullErrors(gc: GiftCertificate, path: string): seq<FieldError> {
    TextNullErrors(gc, path) + AmountNullErrors(gc, path) + DateNullErrors(gc, path)
  }

  /** The errors validate records: the required-field checks, then the certificate rules. */
  function ProxyErrors(v: ProxyGiftCertificateValidator, gc: GiftCertificate, path: string): seq<FieldError> {
    NullErrors(gc, path) + GC.CertificateErrors(v.giftCertificateValidator, gc, path)
  }

  /** What the proxy demands: the six fields present, and the certificate valid. */
  predicate IsValidProxied(v: ProxyGiftCertificateValidator, gc: GiftCertificate) {
    gc.name.Some? && gc.description.Some? && gc.price.Some? && gc.duration.Some? &&
    gc.createDate.Some? && gc.lastUpdateDate.Some? &&
    GC.IsValidCertificate(v.giftCertificateValidator, gc)
  }

  method Validate(v: ProxyGiftCertificateValidator, gc: GiftCertificate, errors: Errors)
    requires errors.Valid()
    modifies errors
    ensures errors.Valid()
    ensures errors.nestedPath == old(errors.nestedPath) && errors.nestedPathStack == old(errors.nestedPathStack)
    ensures errors.fieldErrors == old(errors.fieldErrors) + ProxyErrors(v, gc, old(errors.nestedPath))
  {
    ghost var before := errors.fieldErrors;
    ValidatePresence(gc, errors);
    GC.Validate(v.giftCertificateValidator, gc, errors);
    AppendTwo(before, NullErrors(gc, old(errors.nestedPath)), GC.CertificateErrors(v.giftCertificateValidator, gc, old(errors.nestedPath)));
  }

  /** The six required-field checks, in three pairs. */
  method ValidatePresence(gc: GiftCertificate, errors: Errors)
    modifies errors`fieldErrors
    ensures errors.fieldErrors == old(errors.fieldErrors) + NullErrors(gc, errors.nestedPath)
  {
    ghost var before := errors.fieldErrors;
    ValidateTextPresence(gc, errors);
    ValidateAmountPresence(gc, errors);
    ValidateDatePresence(gc, errors);
    AppendThree(before, TextNullErrors(gc, errors.nestedPath), AmountNullErrors(gc, errors.nestedPath),
      DateNullErrors(gc, errors.nestedPath));
  }

  method ValidateTextPresence(gc: GiftCertificate, errors: Errors)
    modifies errors`fieldErrors
    ensures errors.fieldErrors == old(errors.fieldErrors) + TextNullErrors(gc, errors.nestedPath)
  {
    if gc.name.None? {
      RejectIfEmpty(errors, "name", "name.null", None);
    }
    if gc.description.None? {
      RejectIfEmpty(errors, "description", "description.null", None);
    }
  }

  method ValidateAmountPresence(gc: GiftCertificate, errors: Errors)
    modifies errors`fieldErrors
    ensures errors.fieldErrors == old(errors.fieldErrors) + AmountNullErrors(gc, errors.nestedPath)
  {
    if gc.price.None? {
      RejectIfEmpty(errors, "price", "price.null", None);
    }
    if gc.duration.None? {
      RejectIfEmpty(errors, "duration", "duration.null", None);
    }
  }

  method ValidateDatePresence(gc: GiftCertificate, errors: Errors)
    modifies errors`fieldErrors
    ensures errors.fieldErrors == old(errors.fieldErrors) + DateNullErrors(gc, errors.nestedPath)
  {
    if gc.createDate.None? {
      RejectIfEmpty(errors, "createDate", "createDate.null", None);
    }
    if gc.lastUpdateDate.None? {
      RejectIfEmpty(errors, "lastUpdateDate", "lastUpdateDate.null", None);
    }
  }

  // ---------------------------------------------------------------------
  // Properties
  // ---------------------------------------------------------------------

  lemma NotACertificateCode(v: ProxyGiftCertificateValidator, gc: GiftCertificate, path: string, x: FieldError)
    requires x.code !in GC.CERTIFICATE_CODES
    ensures x in ProxyErrors(v, gc, path) <==> x in NullErrors(gc, path)
  {
    GC.CertificateErrorCodes(v.giftCertificateValidator, gc, path);
  }

  lemma NullGroups(gc: GiftCertificate, path: string)
    ensures forall e :: e in TextNullErrors(gc, path) ==> e.field == path + "name" || e.field == path + "description"
    ensures forall e :: e in AmountNullErrors(gc, path) ==> e.field == path + "price" || e.field == path + "duration"
    ensures forall e :: e in DateNullErrors(gc, path) ==> e.field == path + "createDate" || e.field == path + "lastUpdateDate"
  {
  }

  /** The ".null" codes are not codes of the certificate validator. */
  lemma NullCodesAreNew()
    ensures "name.null" !in GC.CERTIFICATE_CODES && "description.null" !in GC.CERTIFICATE_CODES
    ensures "price.null" !in GC.CERTIFICATE_CODES && "duration.null" !in GC.CERTIFICATE_CODES
    ensures "createDate.null" !in GC.CERTIFICATE_CODES && "lastUpdateDate.null" !in GC.CERTIFICATE_CODES
  {
  }

  /** A null name or description is reported with its ".null" code, and only then. */
  lemma TextNullRules(v: ProxyGiftCertificateValidator, gc: GiftCertificate, path: string)
    ensures FieldError(path + "name", "name.null") in ProxyErrors(v, gc, path) <==> gc.name.None?
    ensures FieldError(path + "description", "description.null") in ProxyErrors(v, gc, path) <==> gc.description.None?
  {
    var a, b, c := TextNullErrors(gc, path), AmountNullErrors(gc, path), DateNullErrors(gc, path);
    NullGroups(gc, path);
    NullCodesAreNew();
    NotACertificateCode(v, gc, path, FieldError(path + "name", "name.null"));
    InFirstGroup(FieldError(path + "name", "name.null"), a, b, c);
    NotACertificateCode(v, gc, path, FieldError(path + "description", "description.null"));
    InFirstGroup(FieldError(path + "description", "description.null"), a, b, c);
  }

  /** A null price or duration is reported with its ".null" code, and only then. */
  lemma AmountNullRules(v: ProxyGiftCertificateValidator, gc: GiftCertificate, path: string)
    ensures FieldError(path + "price", "price.null") in ProxyErrors(v, gc, path) <==> gc.price.None?
    ensures FieldError(path + "duration", "duration.null") in ProxyErrors(v, gc, path) <==> gc.duration.None?
  {
    var a, b, c := TextNullErrors(gc, path), AmountNullErrors(gc, path), DateNullErrors(gc, path);
    NullGroups(gc, path);
    NullCodesAreNew();
    NotACertificateCode(v, gc, path, FieldError(path + "price", "price.null"));
    InSecondGroup(FieldError(path + "price", "price.null"), a, b, c);
    NotACertificateCode(v, gc, path, FieldError(path + "duration", "duration.null"));
    InSecondGroup(FieldError(path + "duration", "duration.null"), a, b, c);
  }

  /** A null creation or update date is reported with its ".null" code, and only then. */
  lemma DateNullRules(v: ProxyGiftCertificateValidator, gc: GiftCertificate, path: string)
    ensures FieldError(path + "createDate", "createDate.null") in ProxyErrors(v, gc, path) <==> gc.createDate.None?
    ensures FieldError(path + "lastUpdateDate", "lastUpdateDate.null") in ProxyErrors(v, gc, path) <==> gc.lastUpdateDate.None?
  {
    var a, b, c := TextNullErrors(gc, path), AmountNullErrors(gc, path), DateNullErrors(gc, path);
    NullGroups(gc, path);
    NullCodesAreNew();
    NotACertificateCode(v, gc, path, FieldError(path + "createDate", "createDate.null"));
    InThirdGroup(FieldError(path + "createDate", "createDate.null"), a, b, c);
    NotACertificateCode(v, gc, path, FieldError(path + "lastUpdateDate", "lastUpdateDate.null"));
    InThirdGroup(FieldError(path + "lastUpdateDate", "lastUpdateDate.null"), a, b, c);
  }

  /**
    The proxy reports every error of the certificate validator, and passes
    exactly the valid certificates whose six required fields are present;
    the id and the tags stay optional.
   */
  lemma ProxyStricter(v: ProxyGiftCertificateValidator, gc: GiftCertificate, path: string)
    ensures forall e :: e in GC.CertificateErrors(v.giftCertificateValidator, gc, path) ==> e in ProxyErrors(v, gc, path)
    ensures ProxyErrors(v, gc, path) == [] <==> IsValidProxied(v, gc)
  {
    GC.CertificateErrorsEmptyIff(v.giftCertificateValidator, gc, path);
  }

  /** The valid certificate of the tests (dates in 1971 and 1970, no tags) passes. */
  lemma ValidCertificateExample(v: ProxyGiftCertificateValidator, gc: GiftCertificate)
    requires gc == GiftCertificate(Some(1), Some("name"), Some("description"), Some(Decimal(10, 0)), Some(1),
      Some(DateTime(1971, 1, 1, 1, 1, 0, 0)), Some(DateTime(1970, 12, 31, 1, 1, 0, 0)), Some([]))
    ensures ProxyErrors(v, gc, "") == []
  {
    assert LongValue(Decimal(10, 0)) == 10;
    assert GC.IsValidCertificate(v.giftCertificateValidator, gc);
    GC.CertificateErrorsEmptyIff(v.giftCertificateValidator, gc, "");
  }

  /** The invalid certificate of the tests has errors, and supports accepts certificates only. */
  lemma InvalidCertificateExample(v: ProxyGiftCertificateValidator, gc: GiftCertificate)
    requires gc == GiftCertificate(Some(-1), Some(""), Some(""), Some(Decimal(-10, 0)), Some(-1),
      Some(DateTime(1, 1, 1, 1, 1, 0, 0)), Some(DateTime(1, 1, 1, 1, 1, 0, 0)), None)
    ensures FieldError("id", "id.not_positive") in ProxyErrors(v, gc, "")
    ensures Supports(v, GiftCertificateClass) && !Supports(v, ObjectClass)
  {
    GC.InvalidCertificateErrors(v.giftCertificateValidator, gc);
  }
}
