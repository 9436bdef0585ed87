/**
  GiftCertificateDaoImpl.findByTagName: the certificates carrying every
  requested tag name. The query joins each certificate with its tags,
  keeps the joined rows whose tag name is in the list and whose
  certificate satisfies the search predicates, groups by certificate and
  keeps the groups with as many distinct tag names as the list has
  distinct names; then it orders and pages.

  An empty name list gives "IN ()", which no joined row satisfies, so
  nothing is returned.
 */
module GiftCertificateDao {
  import opened Wrappers
  import opened Units
  import opened Entities
  import opened StoreValues
  import opened Persistence
  import opened AbstractDao

  function SetOf(names: seq<string>): set<string> {
    set i | 0 <= i < |names| :: names[i]
  }

  /** The non-null names of a certificate's tags. */
  function TagNamesOf(gc: GiftCertificate): (r: set<string>)
    ensures forall n :: n in r <==> gc.tags.Some? && exists t :: t in gc.tags.value && t.name == Some(n)
  {
    if gc.tags.None? then {}
    else set t | t in gc.tags.value && t.name.Some? :: t.name.value
  }

  /** The distinct names of the joined rows that pass the IN filter. */
  function JoinedNames(gc: GiftCertificate, tagNames: seq<string>): set<string> {
    TagNamesOf(gc) * SetOf(tagNames)
  }

  /**
    The certificate survives WHERE and HAVING: its row satisfies the
    search predicates, at least one of its tags is in the list (so its
    group exists), and the group's distinct names number as many as the
    list's distinct names.
   */
  predicate Selected(e: Entity, tagNames: seq<string>, predicates: seq<LikePredicate>) {
    e.CertificateEntity? && Satisfies(e, predicates) &&
    var joined := JoinedNames(e.certificate, tagNames);
    joined != {} && |joined| == |SetOf(tagNames)|
  }

  /** The selected certificates, one per group, in store order. */
  function SelectGroups(rows: seq<Entity>, tagNames: seq<string>, predicates: seq<LikePredicate>): (r: seq<Entity>)
    ensures |r| <= |rows|
    ensures forall e :: e in r <==> e in rows && Selected(e, tagNames, predicates)
    ensures forall e :: multiset(r)[e] == if Selected(e, tagNames, predicates) then multiset(rows)[e] else 0
  {
    if rows == [] then []
    else
      var rest := SelectGroups(rows[1..], tagNames, predicates);
      assert rows == [rows[0]] + rows[1..];
      if Selected(rows[0], tagNames, predicates) then [rows[0]] + rest else rest
  }

  /** findByTagName over the stored certificates. */
  function FindByTagName(rows: seq<Entity>, tagNames: seq<string>, searchCriteria: seq<SearchUnit>,
                         sortCriteria: seq<SortUnit>, offset: int, limit: int): Result<seq<Entity>, DaoError> {
    match PredicateList(GiftCertificateClass, searchCriteria)
    case Failure(e) => Failure(e)
    case Success(predicates) =>
      match OrderList(GiftCertificateClass, sortCriteria)
      case Failure(e) => Failure(e)
      case Success(orders) => Paged(SortRows(orders, SelectGroups(rows, tagNames, predicates)), offset, limit)
  }

  // ---------------------------------------------------------------------
  // Has all of these tags
  // ---------------------------------------------------------------------

  lemma {:induction false} SubsetSize<T>(a: set<T>, b: set<T>)
    requires a <= b
    ensures |a| <= |b|
    decreases a
  {
    if a != {} {
      var x :| x in a;
      SubsetSize(a - {x}, b - {x});
    }
  }

  /** A subset as large as its superset is the superset. */
  lemma SubsetSameSize<T>(a: set<T>, b: set<T>)
    requires a <= b && |a| == |b|
    ensures a == b
  {
    if x :| x in b && x !in a {
      SubsetSize(a, b - {x});
    }
  }

  lemma SetOfEmpty(tagNames: seq<string>)
    ensures SetOf(tagNames) == {} <==> tagNames == []
  {
    if tagNames != [] {
      assert tagNames[0] in SetOf(tagNames);
    }
  }

  /** The counting HAVING clause says: every requested name is a tag of the certificate, and some name was requested. */
  lemma SelectedIff(e: Entity, tagNames: seq<string>, predicates: seq<LikePredicate>)
    ensures Selected(e, tagNames, predicates) <==>
      e.CertificateEntity? && Satisfies(e, predicates) && tagNames != [] &&
      SetOf(tagNames) <= TagNamesOf(e.certificate)
  {
    SetOfEmpty(tagNames);
    if e.CertificateEntity? {
      var joined := JoinedNames(e.certificate, tagNames);
      if |joined| == |SetOf(tagNames)| {
        SubsetSameSize(joined, SetOf(tagNames));
      }
      if SetOf(tagNames) <= TagNamesOf(e.certificate) {
        assert joined == SetOf(tagNames);
      }
    }
  }

  /** The query's result depends on the requested names only as a set: repeating a name changes nothing. */
  lemma DuplicatesIgnored(rows: seq<Entity>, tagNames: seq<string>, other: seq<string>, searchCriteria: seq<SearchUnit>,
                          sortCriteria: seq<SortUnit>, offset: int, limit: int)
    requires SetOf(tagNames) == SetOf(other)
    ensures FindByTagName(rows, tagNames, searchCriteria, sortCriteria, offset, limit) ==
            FindByTagName(rows, other, searchCriteria, sortCriteria, offset, limit)
  {
    var pl := PredicateList(GiftCertificateClass, searchCriteria);
    if pl.Success? {
      SelectGroupsBySet(rows, tagNames, other, pl.value);
    }
  }

  lemma {:induction false} SelectGroupsBySet(rows: seq<Entity>, tagNames: seq<string>, other: seq<string>, predicates: seq<LikePredicate>)
    requires SetOf(tagNames) == SetOf(other)
    ensures SelectGroups(rows, tagNames, predicates) == SelectGroups(rows, other, predicates)
  {
    if rows != [] {
      SelectGroupsBySet(rows[1..], tagNames, other, predicates);
      assert Selected(rows[0], tagNames, predicates) == Selected(rows[0], other, predicates) by {
        SelectedIff(rows[0], tagNames, predicates);
        SelectedIff(rows[0], other, predicates);
        SetOfEmpty(tagNames);
        SetOfEmpty(other);
      }
    }
  }

  /** A certificate with more tags is selected whenever it was: extra tags never disqualify. */
  lemma ExtraTagsHarmless(gc: GiftCertificate, more: seq<Tag>, tagNames: seq<string>, predicates: seq<LikePredicate>)
    requires gc.tags.Some?
    requires Selected(CertificateEntity(gc), tagNames, predicates)
    ensures Selected(CertificateEntity(gc.(tags := Some(gc.tags.value + more))), tagNames, predicates)
  {
    var bigger := gc.(tags := Some(gc.tags.value + more));
    SelectedIff(CertificateEntity(gc), tagNames, predicates);
    SelectedIff(CertificateEntity(bigger), tagNames, predicates);
    assert TagNamesOf(gc) <= TagNamesOf(bigger);
    SameColumns(gc, bigger, predicates);
  }

  /** The tags are not a basic attribute: changing them leaves every predicate's verdict alone. */
  lemma SameColumns(gc: GiftCertificate, other: GiftCertificate, predicates: seq<LikePredicate>)
    requires other == gc.(tags := other.tags)
    ensures Satisfies(CertificateEntity(gc), predicates) == Satisfies(CertificateEntity(other), predicates)
  {
    forall name: string
      ensures Attribute(CertificateEntity(gc), name) == Attribute(CertificateEntity(other), name)
    {
    }
  }

  /**
    What findByTagName returns: an error exactly when a field is unknown
    or a paging argument negative; otherwise at most limit rows, each a
    stored certificate matching every search unit and carrying every
    requested name, in the order the sort units ask for; with stored
    rows each held once, every certificate appears at most once.
   */
  lemma FindByTagNameMeaning(rows: seq<Entity>, tagNames: seq<string>, searchCriteria: seq<SearchUnit>,
                             sortCriteria: seq<SortUnit>, offset: int, limit: int)
    ensures FindByTagName(rows, tagNames, searchCriteria, sortCriteria, offset, limit).Success? <==>
      PredicateList(GiftCertificateClass, searchCriteria).Success? &&
      OrderList(GiftCertificateClass, sortCriteria).Success? && offset >= 0 && limit >= 0
    ensures FindByTagName(rows, tagNames, searchCriteria, sortCriteria, offset, limit).Success? ==>
      var r := FindByTagName(rows, tagNames, searchCriteria, sortCriteria, offset, limit).value;
      |r| <= limit &&
      (forall e :: e in r ==>
        e in rows && e.CertificateEntity? && MatchesAll(e, searchCriteria) &&
        tagNames != [] && SetOf(tagNames) <= TagNamesOf(e.certificate)) &&
      Sorted(OrderList(GiftCertificateClass, sortCriteria).value, r) &&
      ((forall x :: multiset(rows)[x] <= 1) ==> forall x :: multiset(r)[x] <= 1)
  {
    var pl := PredicateList(GiftCertificateClass, searchCriteria);
    var ol := OrderList(GiftCertificateClass, sortCriteria);
    if pl.Success? && ol.Success? && offset >= 0 && limit >= 0 {
      var selected := SelectGroups(rows, tagNames, pl.value);
      var sorted := SortRows(ol.value, selected);
      var r := Page(sorted, offset, limit);
      PageWithin(sorted, offset, limit);
      forall e | e in r
        ensures e in rows && e.CertificateEntity? && MatchesAll(e, searchCriteria)
        ensures tagNames != [] && SetOf(tagNames) <= TagNamesOf(e.certificate)
      {
        assert e in multiset(sorted);
        SelectedIff(e, tagNames, pl.value);
        MatchesAllIsSatisfies(GiftCertificateClass, e, searchCriteria);
      }
      PageSorted(ol.value, sorted, offset, limit);
      assert multiset(r) <= multiset(rows);
    }
  }

  /** With the whole store in one page, a certificate is returned exactly when it matches and carries every requested name. */
  lemma FindByTagNameComplete(rows: seq<Entity>, tagNames: seq<string>, searchCriteria: seq<SearchUnit>,
                              sortCriteria: seq<SortUnit>, limit: int)
    requires limit >= |rows|
    requires PredicateList(GiftCertificateClass, searchCriteria).Success?
    requires OrderList(GiftCertificateClass, sortCriteria).Success?
    ensures FindByTagName(rows, tagNames, searchCriteria, sortCriteria, 0, limit).Success?
    ensures forall e :: e in FindByTagName(rows, tagNames, searchCriteria, sortCriteria, 0, limit).value <==>
      e in rows && e.CertificateEntity? && MatchesAll(e, searchCriteria) &&
      tagNames != [] && SetOf(tagNames) <= TagNamesOf(e.certificate)
  {
    var pl := PredicateList(GiftCertificateClass, searchCriteria).value;
    var ol := OrderList(GiftCertificateClass, sortCriteria).value;
    var selected := SelectGroups(rows, tagNames, pl);
    var sorted := SortRows(ol, selected);
    assert |sorted| == |selected| by {
      assert |multiset(sorted)| == |multiset(selected)|;
    }
    WholePage(sorted, limit);
    forall e
      ensures e in sorted <==> (e in rows && e.CertificateEntity? && MatchesAll(e, searchCriteria) &&
        tagNames != [] && SetOf(tagNames) <= TagNamesOf(e.certificate))
    {
      assert e in sorted <==> e in multiset(selected);
      SelectedIff(e, tagNames, pl);
      MatchesAllIsSatisfies(GiftCertificateClass, e, searchCriteria);
    }
  }

  /** Lists with the same names in another order and with repeats select alike. */
  lemma DuplicateNameExample(rows: seq<Entity>, searchCriteria: seq<SearchUnit>, sortCriteria: seq<SortUnit>)
    ensures FindByTagName(rows, ["gift", "sport", "gift"], searchCriteria, sortCriteria, 0, 10) ==
            FindByTagName(rows, ["sport", "gift"], searchCriteria, sortCriteria, 0, 10)
  {
    var a: seq<string> := ["gift", "sport", "gift"];
    var b: seq<string> := ["sport", "gift"];
    assert SetOf(a) == {"gift", "sport"} by {
      assert a[0] == "gift" && a[1] == "sport";
    }
    assert SetOf(b) == {"gift", "sport"} by {
      assert b[0] == "sport" && b[1] == "gift";
    }
    DuplicatesIgnored(rows, a, b, searchCriteria, sortCriteria, 0, 10);
  }

  /** An empty name list selects nothing. */
  lemma EmptyNameList(rows: seq<Entity>, predicates: seq<LikePredicate>)
    ensures SelectGroups(rows, [], predicates) == []
  {
    forall e
      ensures !Selected(e, [], predicates)
    {
      SelectedIff(e, [], predicates);
    }
    assert forall e :: e !in SelectGroups(rows, [], predicates);
  }
}
