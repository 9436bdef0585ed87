/**
  GiftCertificateServiceImpl: the guards in front of the certificate DAO.
  add validates a whole certificate with the proxy validator, reconciles
  its tags with the tag store and stamps both dates; update validates a
  patch with the plain validator and copies its present fields onto the
  stored certificate; the finders check ids and paging arguments and
  turn the request lists into search and sort criteria.

  The clock is a parameter: each read of LocalDateTime.now() is passed in.
 */
module GiftCertificateServiceImpl {
  import opened Wrappers
  import opened Units
  import opened Entities
  import opened ValidationErrors
  import opened Persistence
  import opened AbstractDao
  import opened ServiceGuards
  import EntityValidator
  import QueryParameterValidator
  import CriteriaConstructor
  import GiftCertificateDao
  import GC = GiftCertificateValidation
  import PGC = ProxyGiftCertificateValidation

  /** new GiftCertificateValidator(new TagValidator()), which update uses. */
  const GIFT_CERTIFICATE_VALIDATOR: GC.GiftCertificateValidator := GC.GiftCertificateValidator(GC.PlainTagValidator)

  /** new ProxyGiftCertificateValidator(new TagValidator()), which add uses. */
  const PROXY_GIFT_CERTIFICATE_VALIDATOR: PGC.ProxyGiftCertificateValidator :=
    PGC.ProxyGiftCertificateValidator(GIFT_CERTIFICATE_VALIDATOR)

  /** Both validators are what their constructors build from a TagValidator. */
  lemma ValidatorsAsConstructed()
    ensures GC.New(Some(GC.TagKind)) == Success(GIFT_CERTIFICATE_VALIDATOR)
    ensures PGC.New(Some(GC.TagKind)) == Success(PROXY_GIFT_CERTIFICATE_VALIDATOR)
  {
  }

  /** The field errors the DataBinder of add collects (its nested path is empty). */
  function AddErrors(gc: GiftCertificate): seq<FieldError> {
    PGC.ProxyErrors(PROXY_GIFT_CERTIFICATE_VALIDATOR, gc, "")
  }

  /** The field errors the DataBinder of update collects. */
  function UpdateErrors(patch: GiftCertificate): seq<FieldError> {
    GC.CertificateErrors(GIFT_CERTIFICATE_VALIDATOR, patch, "")
  }

  /** The rows a list of certificates is stored as. */
  function CertificateEntities(certificates: seq<GiftCertificate>): seq<Entity> {
    seq(|certificates|, i requires 0 <= i < |certificates| => CertificateEntity(certificates[i]))
  }

  /** The certificates held by rows that are all certificate rows. */
  function Certificates(rows: seq<Entity>): (r: seq<GiftCertificate>)
    requires forall e :: e in rows ==> e.CertificateEntity?
    ensures CertificateEntities(r) == rows
  {
    var r := seq(|rows|, i requires 0 <= i < |rows| => rows[i].certificate);
    assert forall i :: 0 <= i < |rows| ==> rows[i] in rows && CertificateEntities(r)[i] == rows[i];
    r
  }

  // ---------------------------------------------------------------------
  // The tags of a new certificate
  // ---------------------------------------------------------------------

  /** What add sees of the tag DAO: its rows and the next id it generates. */
  datatype TagStore = TagStore(rows: seq<Entity>, nextId: int)

  /** The tags that replace the requested ones, and the tag store afterwards. */
  datatype Reconciled = Reconciled(tags: seq<Tag>, store: TagStore)

  /**
    One requested tag: without an id it is kept as it is; with the id of a
    stored tag the stored tag replaces it; with any other id the id is
    cleared and the tag is stored as new.
   */
  function ReconcileTag(store: TagStore, tag: Tag): Reconciled {
    if tag.id.None? then Reconciled([tag], store)
    else
      var k := IdIndex(store.rows, tag.id.value);
      if k.Some? && store.rows[k.value].TagEntity? then Reconciled([store.rows[k.value].tag], store)
      else
        var stored := tag.(id := Some(store.nextId));
        Reconciled([stored], TagStore(store.rows + [TagEntity(stored)], store.nextId + 1))
  }

  /** The requested tags, one after the other, each seeing the store its predecessors left. */
  function Reconcile(store: TagStore, tags: seq<Tag>): Reconciled
  {
    if tags == [] then Reconciled([], store)
    else
      var before := Reconcile(store, tags[..|tags| - 1]);
      var last := ReconcileTag(before.store, tags[|tags| - 1]);
      Reconciled(before.tags + last.tags, last.store)
  }

  /** A stored id is found at the same place once more rows are appended. */
  lemma IdIndexExtended(rows: seq<Entity>, more: seq<Entity>, id: int)
    requires IdIndex(rows, id).Some?
    ensures IdIndex(rows + more, id) == IdIndex(rows, id)
  {
    var k := IdIndex(rows, id).value;
    assert (rows + more)[k] == rows[k];
  }

  /** One tag: the store only grows, by one row for each id it generates. */
  lemma ReconcileTagMeaning(store: TagStore, tag: Tag)
    ensures var r := ReconcileTag(store, tag);
      |r.tags| == 1 && store.rows <= r.store.rows &&
      |r.store.rows| - |store.rows| == r.store.nextId - store.nextId &&
      r.store.nextId - store.nextId <= 1 &&
      (tag.id.None? ==> r.tags[0] == tag) &&
      (tag.id.Some? ==> r.tags[0].id.Some? && TagEntity(r.tags[0]) in r.store.rows) &&
      (tag.id.Some? && r.store == store ==> r.tags[0].id == tag.id) &&
      (r.store != store ==> r.tags[0] == tag.(id := Some(store.nextId)))
  {
  }

  /** The store only grows, by one row for each id it generates, and there is one tag for each requested tag. */
  lemma {:induction false} ReconcileGrows(store: TagStore, tags: seq<Tag>)
    ensures var r := Reconcile(store, tags);
      |r.tags| == |tags| && store.rows <= r.store.rows &&
      |r.store.rows| - |store.rows| == r.store.nextId - store.nextId
  {
    if tags != [] {
      var before := Reconcile(store, tags[..|tags| - 1]);
      ReconcileGrows(store, tags[..|tags| - 1]);
      ReconcileTagMeaning(before.store, tags[|tags| - 1]);
    }
  }

  /** A tag without an id is kept; a tag with an id comes back with one, and stored. */
  lemma {:induction false} ReconcileStores(store: TagStore, tags: seq<Tag>)
    ensures var r := Reconcile(store, tags);
      |r.tags| == |tags| &&
      (forall i :: 0 <= i < |tags| && tags[i].id.None? ==> r.tags[i] == tags[i]) &&
      (forall i :: 0 <= i < |tags| && tags[i].id.Some? ==> r.tags[i].id.Some? && TagEntity(r.tags[i]) in r.store.rows)
  {
    if tags != [] {
      var init := tags[..|tags| - 1];
      var before := Reconcile(store, init);
      var r := Reconcile(store, tags);
      ReconcileStores(store, init);
      ReconcileTagMeaning(before.store, tags[|tags| - 1]);
      forall i | 0 <= i < |tags| - 1
        ensures tags[i].id.None? ==> r.tags[i] == tags[i]
        ensures tags[i].id.Some? ==> r.tags[i].id.Some? && TagEntity(r.tags[i]) in r.store.rows
      {
        assert tags[i] == init[i] && r.tags[i] == before.tags[i];
      }
    }
  }

  /** A tag whose id the store held at the start comes back as the stored tag. */
  lemma {:induction false} ReconcileFindsStored(store: TagStore, tags: seq<Tag>)
    ensures var r := Reconcile(store, tags);
      |r.tags| == |tags| &&
      forall i, k ::
        (0 <= i < |tags| && tags[i].id.Some? && IdIndex(store.rows, tags[i].id.value) == Some(k) && store.rows[k].TagEntity?)
        ==> r.tags[i] == store.rows[k].tag
  {
    if tags != [] {
      var init := tags[..|tags| - 1];
      var before := Reconcile(store, init);
      var r := Reconcile(store, tags);
      ReconcileFindsStored(store, init);
      ReconcileGrows(store, init);
      forall i, k | 0 <= i < |tags| && tags[i].id.Some? && IdIndex(store.rows, tags[i].id.value) == Some(k) &&
                    store.rows[k].TagEntity?
        ensures r.tags[i] == store.rows[k].tag
      {
        if i == |tags| - 1 {
          assert before.store.rows == store.rows + before.store.rows[|store.rows|..];
          IdIndexExtended(store.rows, before.store.rows[|store.rows|..], tags[i].id.value);
          assert before.store.rows[k] == store.rows[k];
        } else {
          assert tags[i] == init[i] && r.tags[i] == before.tags[i];
        }
      }
    }
  }

  /**
    What reconciliation does with a list of tags: one tag for each
    requested tag, in order; a tag without an id is kept as it is; a tag
    with an id comes back with an id and stored in the tag store, and one
    whose id was already stored comes back as the stored tag. The store
    only grows, by one row for each id it generates.
   */
  lemma ReconcileMeaning(store: TagStore, tags: seq<Tag>)
    ensures var r := Reconcile(store, tags);
      |r.tags| == |tags| && store.rows <= r.store.rows &&
      |r.store.rows| - |store.rows| == r.store.nextId - store.nextId &&
      (forall i :: 0 <= i < |tags| && tags[i].id.None? ==> r.tags[i] == tags[i]) &&
      (forall i :: 0 <= i < |tags| && tags[i].id.Some? ==> r.tags[i].id.Some? && TagEntity(r.tags[i]) in r.store.rows) &&
      (forall i, k ::
         (0 <= i < |tags| && tags[i].id.Some? && IdIndex(store.rows, tags[i].id.value) == Some(k) && store.rows[k].TagEntity?)
         ==> r.tags[i] == store.rows[k].tag)
  {
    ReconcileGrows(store, tags);
    ReconcileStores(store, tags);
    ReconcileFindsStored(store, tags);
  }

  /** The certificate add hands to the DAO, and the tag store it leaves. */
  datatype Prepared = Prepared(certificate: GiftCertificate, store: TagStore)

  /** Lines up add: the tags reconciled when there is a list, then both dates stamped. */
  function Prepare(store: TagStore, gc: GiftCertificate, createTime: DateTime, updateTime: DateTime): Prepared {
    var reconciled := if gc.tags.Some? then Reconcile(store, gc.tags.value) else Reconciled([], store);
    var tags := if gc.tags.Some? then Some(reconciled.tags) else None;
    Prepared(gc.(tags := tags, createDate := Some(createTime), lastUpdateDate := Some(updateTime)), reconciled.store)
  }

  /**
    add keeps every field but the tags and the dates; the dates are the
    two clock readings; a missing tag list stays missing and leaves the
    tag store alone, a present one is reconciled tag by tag.
   */
  lemma PrepareMeaning(store: TagStore, gc: GiftCertificate, createTime: DateTime, updateTime: DateTime)
    ensures var p := Prepare(store, gc, createTime, updateTime);
      p.certificate.id == gc.id && p.certificate.name == gc.name && p.certificate.description == gc.description &&
      p.certificate.price == gc.price && p.certificate.duration == gc.duration &&
      p.certificate.createDate == Some(createTime) && p.certificate.lastUpdateDate == Some(updateTime) &&
      (gc.tags.None? <==> p.certificate.tags.None?) &&
      (gc.tags.None? ==> p.store == store) &&
      (gc.tags.Some? ==> |p.certificate.tags.value| == |gc.tags.value| && store.rows <= p.store.rows)
  {
    if gc.tags.Some? {
      ReconcileMeaning(store, gc.tags.value);
    }
  }

  // ---------------------------------------------------------------------
  // The patch of update
  // ---------------------------------------------------------------------

  /** Optional.ofNullable(value).ifPresent(setter): the patch value when there is one. */
  function Override<T>(patch: Option<T>, stored: Option<T>): Option<T> {
    if patch.Some? then patch else stored
  }

  /** The stored certificate with the present fields of the patch copied onto it; a missing update date becomes now. */
  function Merge(stored: GiftCertificate, patch: GiftCertificate, now: DateTime): GiftCertificate {
    stored.(
      name := Override(patch.name, stored.name),
      description := Override(patch.description, stored.description),
      price := Override(patch.price, stored.price),
      duration := Override(patch.duration, stored.duration),
      createDate := Override(patch.createDate, stored.createDate),
      lastUpdateDate := Override(patch.lastUpdateDate, Some(now)),
      tags := Override(patch.tags, stored.tags))
  }

  /** Field by field: the id is the stored one, a present patch field wins, an absent one keeps the stored value. */
  lemma MergeMeaning(stored: GiftCertificate, patch: GiftCertificate, now: DateTime)
    ensures var m := Merge(stored, patch, now);
      m.id == stored.id &&
      m.name == (if patch.name.Some? then patch.name else stored.name) &&
      m.description == (if patch.description.Some? then patch.description else stored.description) &&
      m.price == (if patch.price.Some? then patch.price else stored.price) &&
      m.duration == (if patch.duration.Some? then patch.duration else stored.duration) &&
      m.createDate == (if patch.createDate.Some? then patch.createDate else stored.createDate) &&
      m.lastUpdateDate == (if patch.lastUpdateDate.Some? then patch.lastUpdateDate else Some(now)) &&
      m.tags == (if patch.tags.Some? then patch.tags else stored.tags)
  {
  }

  /** Applying the same patch twice at the same moment is applying it once. */
  lemma MergeIdempotent(stored: GiftCertificate, patch: GiftCertificate, now: DateTime)
    ensures Merge(Merge(stored, patch, now), patch, now) == Merge(stored, patch, now)
  {
  }

  /** An empty patch only moves the update date to now. */
  lemma EmptyPatchTouches(stored: GiftCertificate, patch: GiftCertificate, now: DateTime)
    requires patch == GiftCertificate(None, None, None, None, None, None, None, None)
    ensures Merge(stored, patch, now) == stored.(lastUpdateDate := Some(now))
  {
  }

  /**
    A valid patch on a valid certificate gives a valid certificate, as long
    as the clock is not before 1970.
   */
  lemma MergeKeepsValidity(stored: GiftCertificate, patch: GiftCertificate, now: DateTime)
    requires GC.IsValidCertificate(GIFT_CERTIFICATE_VALIDATOR, stored)
    requires UpdateErrors(patch) == []
    requires now.year >= GC.MIN_YEAR
    ensures GC.IsValidCertificate(GIFT_CERTIFICATE_VALIDATOR, Merge(stored, patch, now))
  {
    GC.CertificateErrorsEmptyIff(GIFT_CERTIFICATE_VALIDATOR, patch, "");
  }

  /** The rows a criteria query returns from a store of certificate rows are certificate rows. */
  lemma QueryRowsAreCertificates(rows: seq<Entity>, searchCriteria: seq<SearchUnit>, sortCriteria: seq<SortUnit>, offset: int, limit: int)
    requires forall i :: 0 <= i < |rows| ==> ClassOf(rows[i]) == GiftCertificateClass
    ensures CriteriaQuery(GiftCertificateClass, rows, searchCriteria, sortCriteria, offset, limit).Success? ==>
      forall e :: e in CriteriaQuery(GiftCertificateClass, rows, searchCriteria, sortCriteria, offset, limit).value ==> e.CertificateEntity?
  {
    CriteriaQueryFromStore(GiftCertificateClass, rows, searchCriteria, sortCriteria, offset, limit);
  }

  // ---------------------------------------------------------------------
  // The service
  // ---------------------------------------------------------------------

  class GiftCertificateService {
    const giftCertificateDao: Dao
    const tagDao: Dao

    ghost predicate Valid()
      reads this, giftCertificateDao, tagDao
    {
      giftCertificateDao != tagDao &&
      giftCertificateDao.clazz == GiftCertificateClass && tagDao.clazz == TagClass &&
      giftCertificateDao.Valid() && tagDao.Valid()
    }

    constructor(giftCertificateDao: Dao, tagDao: Dao)
      requires giftCertificateDao != tagDao
      requires giftCertificateDao.clazz == GiftCertificateClass && tagDao.clazz == TagClass
      requires giftCertificateDao.Valid() && tagDao.Valid()
      ensures Valid() && this.giftCertificateDao == giftCertificateDao && this.tagDao == tagDao
    {
      this.giftCertificateDao := giftCertificateDao;
      this.tagDao := tagDao;
    }

    /** The loop of add over the requested tags. */
    method ReconcileTags(tags: seq<Tag>) returns (newTags: seq<Tag>)
      requires Valid()
      modifies tagDao
      ensures Valid()
      ensures Reconciled(newTags, TagStore(tagDao.entities, tagDao.nextId)) ==
              Reconcile(TagStore(old(tagDao.entities), old(tagDao.nextId)), tags)
    {
      ghost var start := TagStore(tagDao.entities, tagDao.nextId);
      newTags := [];
      for i := 0 to |tags|
        invariant Valid()
        invariant Reconciled(newTags, TagStore(tagDao.entities, tagDao.nextId)) == Reconcile(start, tags[..i])
      {
        assert tags[..i + 1][..i] == tags[..i];
        var tag := tags[i];
        if tag.id.Some? {
          var found := tagDao.FindById(tag.id.value);
          if found.None? {
            var added := tagDao.Add(TagEntity(tag.(id := None)));
            newTags := newTags + [added.value.tag];
          } else {
            assert ClassOf(found.value) == TagClass;
            newTags := newTags + [found.value.tag];
          }
        } else {
          newTags := newTags + [tag];
        }
      }
      assert tags[..|tags|] == tags;
    }

    /**
      add: a null certificate or one the proxy validator rejects is refused
      with nothing stored; otherwise the tags are reconciled, the dates
      stamped with the two clock readings and the certificate persisted,
      which fails for a certificate that already has an id.
     */
    method Add(gc: Option<GiftCertificate>, createTime: DateTime, updateTime: DateTime)
      returns (r: Result<GiftCertificate, ServiceError>)
      requires Valid()
      modifies giftCertificateDao, tagDao
      ensures Valid()
      ensures gc.None? ==> r == Failure(IllegalArgument) && unchanged(giftCertificateDao, tagDao)
      ensures gc.Some? && AddErrors(gc.value) != [] ==>
        r == Failure(InvalidEntity(AddErrors(gc.value)[0].field)) && unchanged(giftCertificateDao, tagDao)
      ensures gc.Some? && AddErrors(gc.value) == [] ==>
        var p := Prepare(TagStore(old(tagDao.entities), old(tagDao.nextId)), gc.value, createTime, updateTime);
        tagDao.entities == p.store.rows && tagDao.nextId == p.store.nextId &&
        (gc.value.id.Some? ==> r == Failure(Unchecked(DetachedEntity)) && unchanged(giftCertificateDao)) &&
        (gc.value.id.None? ==>
          r == Success(p.certificate.(id := Some(old(giftCertificateDao.nextId)))) &&
          giftCertificateDao.entities == old(giftCertificateDao.entities) + [CertificateEntity(r.value)] &&
          giftCertificateDao.nextId == old(giftCertificateDao.nextId) + 1)
    {
      if gc.None? {
        return Failure(IllegalArgument);
      }
      var errors := new Errors();
      PGC.Validate(PROXY_GIFT_CERTIFICATE_VALIDATOR, gc.value, errors);
      if errors.HasErrors() {
        return Failure(InvalidEntity(errors.fieldErrors[0].field));
      }
      var certificate := gc.value;
      if certificate.tags.Some? {
        var newTags := ReconcileTags(certificate.tags.value);
        certificate := certificate.(tags := Some(newTags));
      }
      certificate := certificate.(createDate := Some(createTime), lastUpdateDate := Some(updateTime));
      var added := giftCertificateDao.Add(CertificateEntity(certificate));
      if added.Failure? {
        return Failure(Rethrow(added.error));
      }
      return Success(added.value.certificate);
    }

    /** findById: a non-positive id is refused; otherwise the stored certificate with that id, if any. */
    function FindById(id: int): (r: Result<Option<GiftCertificate>, ServiceError>)
      requires Valid()
      reads this, giftCertificateDao, tagDao
      ensures !EntityValidator.IsIdValid(id) <==> r == Failure(IllegalArgument)
      ensures r.Success? ==>
        (r.value.None? <==> forall e :: e in giftCertificateDao.entities ==> IdOf(e) != Some(id)) &&
        (r.value.Some? ==> CertificateEntity(r.value.value) in giftCertificateDao.entities && r.value.value.id == Some(id))
    {
      if !EntityValidator.IsIdValid(id) then Failure(IllegalArgument)
      else
        var found := giftCertificateDao.FindById(id);
        if found.Some? && found.value.CertificateEntity? then Success(Some(found.value.certificate))
        else Success(None)
    }

    /** findAll: the paging arguments are checked, then the criteria query runs over the stored certificates. */
    method FindAll(sortField: Option<seq<string>>, sortType: Option<seq<string>>,
                   searchField: Option<seq<string>>, searchExpression: Option<seq<string>>,
                   offset: int, limit: int)
      returns (r: Result<seq<GiftCertificate>, ServiceError>)
      requires Valid()
      ensures !PagingValid(offset, limit) ==> r == Failure(IllegalArgument)
      ensures PagingValid(offset, limit) ==>
        var q := CriteriaQuery(GiftCertificateClass, giftCertificateDao.entities,
                               CriteriaConstructor.SearchCriteria(searchField, searchExpression),
                               CriteriaConstructor.SortCriteria(sortField, sortType), offset, limit);
        (q.Failure? ==> r == Failure(Rethrow(q.error))) &&
        (q.Success? ==> r.Success? && CertificateEntities(r.value) == q.value)
    {
      if !QueryParameterValidator.IsOffsetValid(offset) || !QueryParameterValidator.IsLimitValid(limit) {
        return Failure(IllegalArgument);
      }
      var searchCriteria := CriteriaConstructor.ConvertListsToSearchCriteria(searchField, searchExpression);
      var sortCriteria := CriteriaConstructor.ConvertListsToSortCriteria(sortField, sortType);
      var found := giftCertificateDao.FindAllByCriteria(searchCriteria, sortCriteria, offset, limit);
      if found.Failure? {
        return Failure(Rethrow(found.error));
      }
      QueryRowsAreCertificates(giftCertificateDao.entities, searchCriteria, sortCriteria, offset, limit);
      return Success(Certificates(found.value));
    }

    /**
      update: the id and the patch are checked, the patch validated, and
      the present fields of the patch copied onto the stored certificate,
      which is merged back in place; an id nobody has is a ServiceException.
     */
    method Update(id: int, patch: Option<GiftCertificate>, now: DateTime) returns (r: Result<GiftCertificate, ServiceError>)
      requires Valid()
      modifies giftCertificateDao
      ensures Valid()
      ensures !EntityValidator.IsIdValid(id) || patch.None? ==> r == Failure(IllegalArgument) && unchanged(giftCertificateDao)
      ensures EntityValidator.IsIdValid(id) && patch.Some? && UpdateErrors(patch.value) != [] ==>
        r == Failure(InvalidEntity(UpdateErrors(patch.value)[0].field)) && unchanged(giftCertificateDao)
      ensures EntityValidator.IsIdValid(id) && patch.Some? && UpdateErrors(patch.value) == [] ==>
        var k := IdIndex(old(giftCertificateDao.entities), id);
        (k.None? ==> r == Failure(Missing(GiftCertificateClass, id)) && unchanged(giftCertificateDao)) &&
        (k.Some? ==>
          old(giftCertificateDao.entities)[k.value].CertificateEntity? &&
          r == Success(Merge(old(giftCertificateDao.entities)[k.value].certificate, patch.value, now)) &&
          giftCertificateDao.entities == old(giftCertificateDao.entities)[k.value := CertificateEntity(r.value)] &&
          giftCertificateDao.nextId == old(giftCertificateDao.nextId))
    {
      if !EntityValidator.IsIdValid(id) || patch.None? {
        return Failure(IllegalArgument);
      }
      var errors := new Errors();
      GC.Validate(GIFT_CERTIFICATE_VALIDATOR, patch.value, errors);
      if errors.HasErrors() {
        return Failure(InvalidEntity(errors.fieldErrors[0].field));
      }
      var found := FindById(id);
      if found.value.None? {
        return Failure(Missing(GiftCertificateClass, id));
      }
      var certificate := found.value.value;
      certificate := certificate.(name := Override(patch.value.name, certificate.name));
      certificate := certificate.(description := Override(patch.value.description, certificate.description));
      certificate := certificate.(price := Override(patch.value.price, certificate.price));
      certificate := certificate.(duration := Override(patch.value.duration, certificate.duration));
      certificate := certificate.(createDate := Override(patch.value.createDate, certificate.createDate));
      certificate := certificate.(lastUpdateDate := Override(patch.value.lastUpdateDate, Some(now)));
      certificate := certificate.(tags := Override(patch.value.tags, certificate.tags));
      var updated := giftCertificateDao.Update(CertificateEntity(certificate));
      return Success(updated.certificate);
    }

    /** delete: a non-positive id is refused; otherwise the DAO removes and returns the certificate, or reports it missing. */
    method Delete(id: int) returns (r: Result<GiftCertificate, ServiceError>)
      requires Valid()
      modifies giftCertificateDao
      ensures Valid()
      ensures !EntityValidator.IsIdValid(id) ==> r == Failure(IllegalArgument) && unchanged(giftCertificateDao)
      ensures EntityValidator.IsIdValid(id) ==>
        var k := IdIndex(old(giftCertificateDao.entities), id);
        (k.None? ==> r == Failure(Wrapped(NotFound(NOT_FOUND))) && unchanged(giftCertificateDao)) &&
        (k.Some? ==>
          r.Success? && CertificateEntity(r.value) == old(giftCertificateDao.entities)[k.value] &&
          giftCertificateDao.entities == RemoveAt(old(giftCertificateDao.entities), k.value) &&
          giftCertificateDao.nextId == old(giftCertificateDao.nextId))
    {
      if !EntityValidator.IsIdValid(id) {
        return Failure(IllegalArgument);
      }
      var deleted := giftCertificateDao.Delete(id);
      if deleted.Failure? {
        return Failure(Rethrow(deleted.error));
      }
      assert ClassOf(deleted.value) == GiftCertificateClass;
      return Success(deleted.value.certificate);
    }

    /**
      findByTagName: the tag-name list must be present and the paging
      arguments valid; then the certificates carrying all the names are
      queried with the criteria built from the request lists.
     */
    method FindByTagName(tagName: Option<seq<string>>,
                         sortField: Option<seq<string>>, sortType: Option<seq<string>>,
                         searchField: Option<seq<string>>, searchExpression: Option<seq<string>>,
                         offset: int, limit: int)
      returns (r: Result<seq<GiftCertificate>, ServiceError>)
      requires Valid()
      ensures tagName.None? || !PagingValid(offset, limit) ==> r == Failure(IllegalArgument)
      ensures tagName.Some? && PagingValid(offset, limit) ==>
        var q := GiftCertificateDao.FindByTagName(giftCertificateDao.entities, tagName.value,
                               CriteriaConstructor.SearchCriteria(searchField, searchExpression),
                               CriteriaConstructor.SortCriteria(sortField, sortType), offset, limit);
        (q.Failure? ==> r == Failure(Rethrow(q.error))) &&
        (q.Success? ==> r.Success? && CertificateEntities(r.value) == q.value)
    {
      if tagName.None? {
        return Failure(IllegalArgument);
      }
      if !QueryParameterValidator.IsOffsetValid(offset) || !QueryParameterValidator.IsLimitValid(limit) {
        return Failure(IllegalArgument);
      }
      var searchCriteria := CriteriaConstructor.ConvertListsToSearchCriteria(searchField, searchExpression);
      var sortCriteria := CriteriaConstructor.ConvertListsToSortCriteria(sortField, sortType);
      var found := GiftCertificateDao.FindByTagName(giftCertificateDao.entities, tagName.value,
                                                    searchCriteria, sortCriteria, offset, limit);
      if found.Failure? {
        return Failure(Rethrow(found.error));
      }
      GiftCertificateDao.FindByTagNameMeaning(giftCertificateDao.entities, tagName.value,
                                              searchCriteria, sortCriteria, offset, limit);
      return Success(Certificates(found.value));
    }
  }
}
