# Gift certificates: criteria engine, data access and services

A model of the query and persistence core of a gift-certificate REST
service. The service keeps gift certificates, their tags, users and the
orders users place. Clients list and filter these records by sort and
search criteria and by tag names, page through the results, and create,
update and delete records. The model covers these parts:

- **The criteria engine.** `CriteriaConstructor` zips the request's
  parallel lists into search units (field, expression) and sort units
  (field, ascending). The query text builders `QueryCustomizer`,
  `QuerySorter` and `Sorter` turn units into `WHERE … OR …` and
  `ORDER BY …` clauses. Only `QueryCustomizer` escapes: it passes each
  field name and search expression through `escapeStringForMySQL`,
  which doubles backslashes and rewrites control characters but leaves
  quotes as they are.
  `SqlGiftCertificateDaoImpl.constructCorrectSql` splices those clauses
  into the fixed find-by-tag-name statement.
- **Data access.** The generic JPA DAO (`AbstractDao`) supports add,
  find by id, find all and update (merge), plus delete, which reports a
  missing id. Its criteria query keeps the rows whose attributes are
  LIKE `%expression%`, orders them and cuts out one page.
  `GiftCertificateDaoImpl.findByTagName` keeps only the certificates
  tagged with every requested name.
- **The validators.** These are Spring `Validator`s for tags,
  certificates and users, and "proxy" variants that also reject missing
  fields. The model includes the Spring `Errors` object they write
  into, with its nested-path stack. They are backed by the id and
  paging validators.
- **The services.** `GiftCertificateServiceImpl` and `UserServiceImpl`
  guard the arguments, validate the input and look up or create tags.
  They merge patches, place orders and register users, and they turn
  DAO failures into service exceptions.

All the modelling choices below follow the Java code:

- A Java `null` is `None`.
- An exception is a `Failure` of `Result`: a `DaoError` in the DAO
  layer and a `ServiceError` in the services.
- The entity manager is a `Dao` object per entity class, which holds
  the stored rows and the next generated id.
- The clock (`LocalDateTime.now()`) and the password encoder are
  parameters of the operations that use them.
- Text is `seq<char>` of Unicode scalar values. `String.length()`
  counts UTF-16 code units and is modelled by `Utf16Length`.
- `BigDecimal.longValue()` truncates toward zero and then wraps to 64
  bits, and the model does the same (`Entities.WrapLong`).

Two points of the code worth stating:

- `QueryParameterValidator.isLimitValid` only requires `limit >= 0`.
  There is no upper bound on `limit`.
- The code has two sort-unit shapes. `SortUnit` (field, isAscending)
  serves the JPA criteria path. `TypedSortUnit` (fieldName, sortType as
  text) serves the text builders. The model keeps both.

## Model

| member | source | states |
|---|---|---|
| CriteriaConstructor.ConvertListsToSearchCriteria | app/src/main/java/com/epam/esm/util/CriteriaConstructor.java:16-30 | a missing list gives no criteria; otherwise one unit per index up to the shorter list, each pairing the field and the expression at that index |
| CriteriaConstructor.ConvertListsToSortCriteria | app/src/main/java/com/epam/esm/util/CriteriaConstructor.java:32-53 | one unit per sort field, same field, and a unit is descending exactly when a sort type exists at its index and equals "DESC" ignoring case |
| Units.DefaultSortUnit | app/src/main/java/com/epam/esm/util/entity/SortUnit.java:13-14 | a sort unit built from a field alone is ascending |
| QueryCustomization.EscapeIsCharwise | app/src/main/java/com/epam/esm/util/QueryCustomizer.java:144-154 | the chain of nine replaceAll calls equals escaping each character on its own |
| QueryCustomization.EscapeConcat | app/src/main/java/com/epam/esm/util/QueryCustomizer.java:144-154 | escaping distributes over concatenation |
| QueryCustomization.EscapeSingle | app/src/main/java/com/epam/esm/util/QueryCustomizer.java:144-154 | a one-character string escapes to that character's replacement |
| QueryCustomization.EscapeEmpty | app/src/main/java/com/epam/esm/util/QueryCustomizer.java:144-154 | the empty string stays empty |
| QueryCustomization.EscapePlain | app/src/main/java/com/epam/esm/util/QueryCustomizer.java:144-154 | a string without backslash, control characters or quotes is returned unchanged |
| QueryCustomization.ReplacementTexts | app/src/main/java/com/epam/esm/util/QueryCustomizer.java:145-153 | replaceAll reads its replacement as a template, so "\\\\\\\\" inserts two backslashes and "\\b", "\\n", "\\'" and the rest insert the bare letter |
| QueryCustomization.EscapeBackslash | app/src/main/java/com/epam/esm/util/QueryCustomizer.java:145 | a backslash becomes two backslashes |
| QueryCustomization.EscapeControlCharacter | app/src/main/java/com/epam/esm/util/QueryCustomizer.java:146-151 | backspace, newline, return, tab, control-Z and NUL become the letters b, n, r, t, Z and 0, without a backslash |
| QueryCustomization.EscapeQuotes | app/src/main/java/com/epam/esm/util/QueryCustomizer.java:152-153 | single and double quotes come out unescaped |
| QueryCustomization.EscapeUnlisted | app/src/main/java/com/epam/esm/util/QueryCustomizer.java:144-154 | every character that no rule touches is kept |
| QueryCustomization.SortParts | app/src/main/java/com/epam/esm/util/QueryCustomizer.java:86-91 | one formatted "field TYPE" part per unit, in unit order |
| QueryCustomization.SearchParts | app/src/main/java/com/epam/esm/util/QueryCustomizer.java:100-106 | one formatted "field LIKE 'expression'" part per unit, in unit order |
| QueryCustomization.OperationsShape | app/src/main/java/com/epam/esm/util/QueryCustomizer.java:81-108 | the sort clause is empty exactly when there are no sort units, else "ORDER BY " and the keys; the search clause is empty exactly when the units are absent or empty, else "WHERE " and the conditions |
| QueryCustomization.QueryCustomizer.Empty | app/src/main/java/com/epam/esm/util/QueryCustomizer.java:16 | the no-argument customizer holds neither sort nor search units |
| QueryCustomization.QueryCustomizer.constructor | app/src/main/java/com/epam/esm/util/QueryCustomizer.java:60-66 | sort units exist exactly when sort fields are present and non-empty, taking sort types by index with "ASC" by default; search units exist exactly when both search lists are present, zipped to the shorter |
| QueryCustomization.QueryCustomizer.PrepareSortFields | app/src/main/java/com/epam/esm/util/QueryCustomizer.java:110-128 | absent or empty fields leave the sort units as they were; otherwise the units pair each field with its type, or "ASC" past the end of the types |
| QueryCustomization.QueryCustomizer.PrepareSearchFields | app/src/main/java/com/epam/esm/util/QueryCustomizer.java:130-142 | an absent list leaves the search units as they were; otherwise the units pair field and expression index by index up to the shorter list |
| QueryCustomization.QueryCustomizer.GenerateSortOperation | app/src/main/java/com/epam/esm/util/QueryCustomizer.java:81-93 | the loop's joined text equals the sort clause specified by the units |
| QueryCustomization.QueryCustomizer.GenerateSearchOperation | app/src/main/java/com/epam/esm/util/QueryCustomizer.java:95-108 | the loop's joined text equals the search clause specified by the units |
| QueryCustomization.QueryCustomizer.PrepareQuery | app/src/main/java/com/epam/esm/util/QueryCustomizer.java:75-79 | the statement, a space, the search clause, a space, the sort clause; two trailing spaces when there are no units |
| QuerySorting.OrderParts | app/src/main/java/com/epam/esm/model/dao/QuerySorter.java:58-60 | one "field TYPE" part per unit, in unit order |
| QuerySorting.EmptyOrderByClause | app/src/main/java/com/epam/esm/model/dao/QuerySorter.java:57-62 | an empty unit list still yields "ORDER BY ;" |
| QuerySorting.SingleOrderByClause | app/src/main/java/com/epam/esm/model/dao/QuerySorter.java:57-62 | one unit yields "ORDER BY field TYPE;" with the type upper-cased |
| QuerySorting.OrderByClauseSnoc | app/src/main/java/com/epam/esm/model/dao/QuerySorter.java:57-62 | appending a unit appends ", field TYPE" before the final ";" |
| QuerySorting.QuerySorter.constructor | app/src/main/java/com/epam/esm/model/dao/QuerySorter.java:23-24 | the default sorter holds no units |
| QuerySorting.QuerySorter.FromList | app/src/main/java/com/epam/esm/model/dao/QuerySorter.java:26-28 | the sorter holds exactly the given units |
| QuerySorting.QuerySorter.FromMap | app/src/main/java/com/epam/esm/model/dao/QuerySorter.java:30-51 | without a map or with either key missing there are no units; otherwise one unit per field, with the type at the same index or "ASC" |
| QuerySorting.QuerySorter.PrepareQuery | app/src/main/java/com/epam/esm/model/dao/QuerySorter.java:53-63 | no units returns the statement unchanged; otherwise the statement, a space and the ORDER BY clause of the units |
| Sorting.DirectionSuffix | app/src/main/java/com/epam/esm/model/dao/Sorter.java:32-37 | with a field, the query ends in " DESC" exactly when descending and in " ASC" exactly when ascending |
| Sorting.Sorter.constructor | app/src/main/java/com/epam/esm/model/dao/Sorter.java:13-14 | no field, ascending |
| Sorting.Sorter.WithField | app/src/main/java/com/epam/esm/model/dao/Sorter.java:16-18 | the given field, ascending |
| Sorting.Sorter.SetFieldName | app/src/main/java/com/epam/esm/model/dao/Sorter.java:20-22 | the field is replaced and nothing else changes |
| Sorting.Sorter.SetAscending | app/src/main/java/com/epam/esm/model/dao/Sorter.java:24-26 | afterwards every query with a field ends in " ASC" |
| Sorting.Sorter.SetDescending | app/src/main/java/com/epam/esm/model/dao/Sorter.java:28-30 | afterwards every query with a field ends in " DESC" |
| Sorting.Sorter.PrepareQuery | app/src/main/java/com/epam/esm/model/dao/Sorter.java:32-37 | no field leaves the statement unchanged; otherwise " ORDER BY field ASC" or " DESC" follows it |
| SqlGiftCertificateDao.ConstructCorrectSql | app/src/main/java/com/epam/esm/model/dao/impl/SqlGiftCertificateDaoImpl.java:225-238 | the hide, prepare, replace and restore steps compute the corrected statement for the customizer's search and sort clauses |
| SqlGiftCertificateDao.FindByTagNameStatement | app/src/main/java/com/epam/esm/model/dao/impl/SqlGiftCertificateDaoImpl.java:189-201 | the tag name is bound as the only parameter and never enters the statement text |
| SqlGiftCertificateDao.HideRestore | app/src/main/java/com/epam/esm/model/dao/impl/SqlGiftCertificateDaoImpl.java:226-236 | restoring the hidden WHERE gives back the original statement when it holds no placeholder |
| SqlGiftCertificateDao.HideFacts | app/src/main/java/com/epam/esm/model/dao/impl/SqlGiftCertificateDaoImpl.java:226 | after hiding, no WHERE remains, and hiding adds no bracket and no ORDER BY |
| SqlGiftCertificateDao.SpliceNeither | app/src/main/java/com/epam/esm/model/dao/impl/SqlGiftCertificateDaoImpl.java:225-238 | with no clauses the statement comes back with two trailing spaces |
| SqlGiftCertificateDao.SpliceSearchOnly | app/src/main/java/com/epam/esm/model/dao/impl/SqlGiftCertificateDaoImpl.java:228-235 | the search conditions become " AND ( conditions )" after the existing WHERE |
| SqlGiftCertificateDao.SpliceSortOnly | app/src/main/java/com/epam/esm/model/dao/impl/SqlGiftCertificateDaoImpl.java:225-238 | the sort clause is appended after two spaces and no bracket is inserted |
| SqlGiftCertificateDao.SpliceBoth | app/src/main/java/com/epam/esm/model/dao/impl/SqlGiftCertificateDaoImpl.java:228-235 | the bracket closes before ORDER BY: " AND ( conditions ) ORDER BY keys" |
| SqlGiftCertificateDao.CorrectSqlSplices | app/src/main/java/com/epam/esm/model/dao/impl/SqlGiftCertificateDaoImpl.java:225-238 | the corrected statement is the base, then the conditions ANDed in brackets, then the ORDER BY, for any present or absent conditions and sort keys; this holds when the base has no "(", "ORDER BY" or TEMP_VALUE, the conditions have no "ORDER BY" or TEMP_VALUE, and the sort keys have no "(", "WHERE" or TEMP_VALUE |
| SqlGiftCertificateDao.CustomizerSplice | app/src/main/java/com/epam/esm/model/dao/impl/SqlGiftCertificateDaoImpl.java:189-201 | the same splice for the clauses a customizer generates from its units, under the same conditions on the base and on the generated text |
| SqlGiftCertificateDao.FindByTagNameQueryPlain | app/src/main/java/com/epam/esm/model/dao/impl/SqlGiftCertificateDaoImpl.java:46-51 | the fixed find-by-tag-name statement holds no TEMP_VALUE, no "(" and no ORDER BY |
| SqlGiftCertificateDao.FindByTagNameSplice | app/src/main/java/com/epam/esm/model/dao/impl/SqlGiftCertificateDaoImpl.java:189-201 | findByTagName's statement is the fixed query with the conditions ANDed in brackets after its WHERE and the ORDER BY last, whenever the generated conditions have no "ORDER BY" or TEMP_VALUE and the sort keys no "(", "WHERE" or TEMP_VALUE |
| SqlGiftCertificateDao.OrderByInConditions | app/src/main/java/com/epam/esm/model/dao/impl/SqlGiftCertificateDaoImpl.java:225-238 | conditions holding "ORDER BY" (a search expression "ORDER BY") get the closing ")" inside their own text, before that ORDER BY, so the result is not the bracketed splice |
| SqlGiftCertificateDao.PlaceholderInConditions | app/src/main/java/com/epam/esm/model/dao/impl/SqlGiftCertificateDaoImpl.java:225-238 | a TEMP_VALUE inside the conditions (a search expression "TEMP_VALUE") comes back as WHERE, so the result is not the bracketed splice |
| AbstractDao.FirstUnknown | app/src/main/java/com/epam/esm/model/dao/AbstractDao.java:30-31 | the first path that is not an attribute of the class, with every earlier path an attribute |
| AbstractDao.SortPaths | app/src/main/java/com/epam/esm/model/dao/AbstractDao.java:31 | the sort field of every unit, in order |
| AbstractDao.SearchPaths | app/src/main/java/com/epam/esm/model/dao/AbstractDao.java:46 | the search field of every unit, in order |
| AbstractDao.OrderFor | app/src/main/java/com/epam/esm/model/dao/AbstractDao.java:31-36 | asc on the unit's field exactly when the unit is ascending, desc otherwise |
| AbstractDao.PredicateFor | app/src/main/java/com/epam/esm/model/dao/AbstractDao.java:46-47 | a LIKE on the unit's field with the pattern %expression% |
| AbstractDao.ExtractOrderList | app/src/main/java/com/epam/esm/model/dao/AbstractDao.java:26-39 | the loop yields the order list, or fails at the first unknown attribute |
| AbstractDao.ExtractPredicates | app/src/main/java/com/epam/esm/model/dao/AbstractDao.java:41-50 | the loop yields the predicate list, or fails at the first unknown attribute |
| AbstractDao.OrderListMeaning | app/src/main/java/com/epam/esm/model/dao/AbstractDao.java:26-39 | succeeds exactly when every sort field is an attribute; one order per unit, same path and direction |
| AbstractDao.PredicateListMeaning | app/src/main/java/com/epam/esm/model/dao/AbstractDao.java:41-50 | succeeds exactly when every search field is an attribute; one predicate per unit on that path with pattern "%" + expression + "%" |
| AbstractDao.MatchesAllIsSatisfies | app/src/main/java/com/epam/esm/model/dao/AbstractDao.java:80-81 | the AND of the predicates holds exactly when the row's attribute is LIKE %expression% for every unit |
| AbstractDao.CriteriaQueryMeaning | app/src/main/java/com/epam/esm/model/dao/AbstractDao.java:75-88 | succeeds exactly when both lists build and offset and limit are non-negative; then at most limit rows, each stored and matching every unit, sorted by the order list, none more often than stored; fewer than limit rows only when the page reaches the end of the matching rows |
| AbstractDao.CriteriaQueryFromStore | app/src/main/java/com/epam/esm/model/dao/AbstractDao.java:75-88 | every returned row is a stored row |
| AbstractDao.CriteriaQueryComplete | app/src/main/java/com/epam/esm/model/dao/AbstractDao.java:75-88 | a first page as large as the store holds exactly the stored rows that match every unit |
| AbstractDao.CriteriaQueryWithoutCriteria | app/src/main/java/com/epam/esm/model/dao/AbstractDao.java:75-88 | with no criteria the query is plain paging of the store |
| AbstractDao.WholePage | app/src/main/java/com/epam/esm/model/dao/AbstractDao.java:84-87 | a first page as large as the rows is all the rows |
| AbstractDao.FilterNothing | app/src/main/java/com/epam/esm/model/dao/AbstractDao.java:81 | an empty conjunction keeps every row in store order |
| AbstractDao.IdIndex | app/src/main/java/com/epam/esm/model/dao/AbstractDao.java:62-65 | the position of the first row with the id, and no earlier row has it |
| AbstractDao.UniqueIdsOnce | app/src/main/java/com/epam/esm/model/dao/AbstractDao.java:56-60 | a store whose generated ids are distinct holds every entity at most once |
| AbstractDao.RemoveAt | app/src/main/java/com/epam/esm/model/dao/AbstractDao.java:104-106 | one row fewer: the row at k is gone and the others keep their order |
| AbstractDao.Dao.constructor | app/src/main/java/com/epam/esm/model/dao/AbstractDao.java:22-24 | an empty store for the class whose next id is 1 |
| AbstractDao.Dao.FindById | app/src/main/java/com/epam/esm/model/dao/AbstractDao.java:62-65 | a stored entity with that id, and nothing exactly when no stored entity has it |
| AbstractDao.Dao.FindAll | app/src/main/java/com/epam/esm/model/dao/AbstractDao.java:67-73 | fails exactly when offset or limit is negative; else the stored rows from offset on, at most limit of them, and fewer only at the end of the store |
| AbstractDao.Dao.FindAllByCriteria | app/src/main/java/com/epam/esm/model/dao/AbstractDao.java:75-88 | the criteria query over the stored rows |
| AbstractDao.Dao.Add | app/src/main/java/com/epam/esm/model/dao/AbstractDao.java:56-60 | an entity that already has an id is refused as detached and the store is unchanged; else it is appended with the next generated id |
| AbstractDao.Dao.Update | app/src/main/java/com/epam/esm/model/dao/AbstractDao.java:90-93 | merge: a stored id is overwritten in place; an entity with no id or an unknown one is stored as new with the next id |
| AbstractDao.Dao.Delete | app/src/main/java/com/epam/esm/model/dao/AbstractDao.java:95-106 | a missing id fails with "message.exception.dao.not_found" and the store is unchanged; else the found entity is returned and removed |
| AbstractDao.DeleteRemovesOnlyThatId | app/src/main/java/com/epam/esm/model/dao/AbstractDao.java:95-106 | after the removal no row has the id, and every other row is still there |
| GiftCertificateDao.TagNamesOf | app/src/main/java/com/epam/esm/model/dao/impl/GiftCertificateDaoImpl.java:37 | the names of the certificate's joined tags |
| GiftCertificateDao.SelectGroups | app/src/main/java/com/epam/esm/model/dao/impl/GiftCertificateDaoImpl.java:37-51 | keeps, in store order, exactly the rows that pass the join, WHERE and HAVING |
| GiftCertificateDao.SelectedIff | app/src/main/java/com/epam/esm/model/dao/impl/GiftCertificateDaoImpl.java:41-51 | a row passes exactly when it is a certificate matching the predicates whose tag names include every requested name, and the request is not empty |
| GiftCertificateDao.DuplicatesIgnored | app/src/main/java/com/epam/esm/model/dao/impl/GiftCertificateDaoImpl.java:46-51 | two requests with the same set of names give the same result |
| GiftCertificateDao.SelectGroupsBySet | app/src/main/java/com/epam/esm/model/dao/impl/GiftCertificateDaoImpl.java:46-51 | the selection depends only on the set of requested names |
| GiftCertificateDao.ExtraTagsHarmless | app/src/main/java/com/epam/esm/model/dao/impl/GiftCertificateDaoImpl.java:41-51 | a selected certificate stays selected when it gains more tags |
| GiftCertificateDao.SameColumns | app/src/main/java/com/epam/esm/model/dao/impl/GiftCertificateDaoImpl.java:41-44 | the search predicates read only certificate columns, never tags |
| GiftCertificateDao.FindByTagNameMeaning | app/src/main/java/com/epam/esm/model/dao/impl/GiftCertificateDaoImpl.java:28-57 | succeeds exactly when both criteria lists build and paging is non-negative; then at most limit certificates, each stored, matching and carrying every name, sorted, and each once when the store holds it once |
| GiftCertificateDao.FindByTagNameComplete | app/src/main/java/com/epam/esm/model/dao/impl/GiftCertificateDaoImpl.java:28-57 | a large enough first page holds exactly those certificates |
| GiftCertificateDao.DuplicateNameExample | app/src/main/java/com/epam/esm/model/dao/impl/GiftCertificateDaoImpl.java:46-51 | asking for "gift", "sport", "gift" is asking for "sport", "gift" |
| GiftCertificateDao.EmptyNameList | app/src/main/java/com/epam/esm/model/dao/impl/GiftCertificateDaoImpl.java:46-51 | no requested names selects nothing |
| GiftCertificateDao.SetOfEmpty | app/src/main/java/com/epam/esm/model/dao/impl/GiftCertificateDaoImpl.java:49-50 | the set of names is empty exactly when the list is |
| Persistence.Filter | app/src/main/java/com/epam/esm/model/dao/AbstractDao.java:80-81 | keeps exactly the rows the predicates accept, as often as stored |
| Persistence.Insert | app/src/main/java/com/epam/esm/model/dao/AbstractDao.java:82-83 | inserting into sorted rows keeps them sorted and adds exactly that row |
| Persistence.SortRows | app/src/main/java/com/epam/esm/model/dao/AbstractDao.java:82-83 | the result is sorted by the order list and a permutation of the rows |
| Persistence.SortWithoutOrders | app/src/main/java/com/epam/esm/model/dao/AbstractDao.java:82-83 | an empty order list keeps store order |
| Persistence.Page | app/src/main/java/com/epam/esm/model/dao/AbstractDao.java:84-87 | at most limit rows, the ones from offset on, fewer only at the end |
| Persistence.PageWithin | app/src/main/java/com/epam/esm/model/dao/AbstractDao.java:84-87 | a page holds no row more often than the list |
| Persistence.PageSorted | app/src/main/java/com/epam/esm/model/dao/AbstractDao.java:84-87 | a page of sorted rows is sorted |
| Persistence.FilterSortPage | app/src/main/java/com/epam/esm/model/dao/AbstractDao.java:80-87 | filter, sort and page give at most limit stored, accepted, sorted rows |
| Persistence.FilterSortPageFull | app/src/main/java/com/epam/esm/model/dao/AbstractDao.java:80-87 | the page holds exactly limit rows unless it reaches the end of the accepted rows |
| Persistence.WithId | app/src/main/java/com/epam/esm/model/dao/AbstractDao.java:56-60 | persisting sets the id and keeps the class |
| StoreValues.LikeContains | app/src/main/java/com/epam/esm/model/dao/AbstractDao.java:46-47 | for an expression without wildcards, LIKE %e% holds exactly when the text contains e |
| StoreValues.LikeEmptyExpression | app/src/main/java/com/epam/esm/model/dao/AbstractDao.java:46-47 | an empty expression matches every text |
| StoreValues.CompareValuesAntisymmetric | app/src/main/java/com/epam/esm/model/dao/AbstractDao.java:82-83 | swapping two values negates their comparison |
| StoreValues.NullFirst | app/src/main/java/com/epam/esm/model/dao/AbstractDao.java:82-83 | NULL sorts before every value, as it does in MySQL |
| StoreValues.DecimalOrderExamples | app/src/main/java/com/epam/esm/model/dao/AbstractDao.java:82-83 | decimals compare by value, not by scale: 1.0 equals 1.00 and 0.9 is below 1 |
| Entities.TruncDiv | app/src/main/java/com/epam/esm/model/validator/GiftCertificateValidator.java:65 | division that truncates toward zero: negative exactly when the numerator reaches minus the divisor |
| Entities.WrapLong | app/src/main/java/com/epam/esm/model/validator/GiftCertificateValidator.java:65 | the 64-bit two's complement value with the same low bits, and the identity within range |
| Entities.IntegerPartNegative | app/src/main/java/com/epam/esm/model/validator/GiftCertificateValidator.java:65 | the integer part of a decimal is negative exactly when it is at most -1 |
| Entities.NegativeFractionLongValue | app/src/main/java/com/epam/esm/model/validator/GiftCertificateValidator.java:65 | the longValue of -0.5 is 0 |
| Entities.HugeLongValueWraps | app/src/main/java/com/epam/esm/model/validator/GiftCertificateValidator.java:65 | the longValue of 2^63 wraps to -2^63 |
| Strings.ToUpper | app/src/main/java/com/epam/esm/model/dao/QuerySorter.java:59 | same length, every letter upper-cased |
| Strings.ToLower | app/src/main/java/com/epam/esm/model/service/impl/UserServiceImpl.java:154 | same length, every letter lower-cased |
| Strings.IndexOf | app/src/main/java/com/epam/esm/model/dao/impl/SqlGiftCertificateDaoImpl.java:228-235 | the first position of the pattern, and no earlier occurrence |
| Strings.Utf16Length | app/src/main/java/com/epam/esm/model/validator/TagValidator.java:33 | String.length(): one unit per basic-plane character, two for the others |
| EntityValidator.IsIdValid | app/src/main/java/com/epam/esm/model/validator/EntityValidator.java:9-11 | an id is valid exactly when it is at least 1 |
| EntityValidator.IdValidity | app/src/main/java/com/epam/esm/model/validator/EntityValidator.java:9-11 | validity is upward closed; 1 is valid, 0 and -1 are not |
| ServiceEntityValidator.IsIdValid | app/src/main/java/com/epam/esm/model/service/validator/EntityValidator.java:6-8 | an id is valid exactly when it is at least 1 |
| ServiceEntityValidator.AgreesWithModelValidator | app/src/main/java/com/epam/esm/model/service/validator/EntityValidator.java:6-8 | the service-layer id check agrees with the model-layer one |
| QueryParameterValidator.IsOffsetValid | app/src/main/java/com/epam/esm/model/validator/QueryParameterValidator.java:9-11 | an offset is valid exactly when it is non-negative |
| QueryParameterValidator.IsLimitValid | app/src/main/java/com/epam/esm/model/validator/QueryParameterValidator.java:13-15 | a limit is valid exactly when it is non-negative |
| QueryParameterValidator.PagingBounds | app/src/main/java/com/epam/esm/model/validator/QueryParameterValidator.java:9-15 | 0 is a valid offset and limit, limits have no upper bound, and -1 is invalid for both |
| ValidationErrors.Errors.constructor | app/src/main/java/com/epam/esm/model/service/impl/GiftCertificateServiceImpl.java:41-44 | a fresh binding result: no errors, empty nested path and stack |
| ValidationErrors.Errors.RejectValue | app/src/main/java/com/epam/esm/model/validator/TagValidator.java:25-29 | appends one error on the nested path plus the field, with the code |
| ValidationErrors.Errors.PushNestedPath | app/src/main/java/com/epam/esm/model/validator/GiftCertificateValidator.java:91 | the current path is saved on the stack and the new path is the old one plus the sub-path, ending in "." |
| ValidationErrors.Errors.PopNestedPath | app/src/main/java/com/epam/esm/model/validator/GiftCertificateValidator.java:93-95 | restores the last saved path and reports whether there was one |
| ValidationErrors.NestedPath | app/src/main/java/com/epam/esm/model/validator/GiftCertificateValidator.java:91 | a non-empty path ends in "." and an already dotted path is kept |
| ValidationErrors.RejectIfEmpty | app/src/main/java/com/epam/esm/model/validator/TagValidator.java:32 | rejects exactly a missing or empty value |
| ValidationErrors.ValidateText | app/src/main/java/com/epam/esm/model/validator/TagValidator.java:30-36 | appends the empty and too-long errors of a present text |
| ValidationErrors.TextErrorsEmptyIff | app/src/main/java/com/epam/esm/model/validator/TagValidator.java:30-36 | no error exactly when the text is absent or non-empty and within the length |
| ValidationErrors.TextErrorsMembers | app/src/main/java/com/epam/esm/model/validator/TagValidator.java:30-36 | the empty code appears exactly for "" and the too-long code exactly beyond the length, always on that field |
| TagValidation.Validate | app/src/main/java/com/epam/esm/model/validator/TagValidator.java:21-37 | appends the tag's id and name errors on the current path |
| TagValidation.TagErrorFieldNames | app/src/main/java/com/epam/esm/model/validator/TagValidator.java:21-37 | every error is on the id or the name field |
| TagValidation.TagErrorCodes | app/src/main/java/com/epam/esm/model/validator/TagValidator.java:24-36 | "id.not_positive" exactly for an id below 1, "name.empty" exactly for "", "name.too_long" exactly beyond 255 units |
| TagValidation.TagErrorsEmptyIff | app/src/main/java/com/epam/esm/model/validator/TagValidator.java:21-37 | no error exactly when the tag is valid |
| TagValidation.ValidTagExamples | app/src/main/java/com/epam/esm/model/validator/TagValidator.java:16-37 | a named tag with id 1 and an empty tag pass; tags are supported and plain objects are not |
| TagValidation.InvalidTagExample | app/src/main/java/com/epam/esm/model/validator/TagValidator.java:21-37 | id -1 with an empty name gives exactly the id and then the name error |
| ProxyTagValidation.Validate | app/src/main/java/com/epam/esm/model/validator/ProxyTagValidator.java:26-31 | appends the null-name error and then the tag validator's errors |
| ProxyTagValidation.TagNameEmptyCount | app/src/main/java/com/epam/esm/model/validator/TagValidator.java:30-36 | the plain validator reports "name.empty" once for "" and never otherwise |
| ProxyTagValidation.NameEmptyCount | app/src/main/java/com/epam/esm/model/validator/ProxyTagValidator.java:26-31 | "name.empty" is reported twice for "", once for a missing name, never for a non-empty one |
| ProxyTagValidation.ProxyStricter | app/src/main/java/com/epam/esm/model/validator/ProxyTagValidator.java:26-31 | every plain error is also a proxy error; the proxy passes exactly a valid tag with a name |
| GiftCertificateValidation.New | app/src/main/java/com/epam/esm/model/validator/GiftCertificateValidator.java:23-33 | a null tag validator or one that does not support tags is refused |
| GiftCertificateValidation.TagSupporters | app/src/main/java/com/epam/esm/model/validator/GiftCertificateValidator.java:28-31 | exactly the tag validator and the proxy tag validator support tags |
| GiftCertificateValidation.Validate | app/src/main/java/com/epam/esm/model/validator/GiftCertificateValidator.java:40-98 | appends the certificate's errors and leaves the nested path and stack as they were |
| GiftCertificateValidation.ValidateTags | app/src/main/java/com/epam/esm/model/validator/GiftCertificateValidator.java:87-97 | each tag's errors in list order under "tags[i].", with the path restored |
| GiftCertificateValidation.ValidateElement | app/src/main/java/com/epam/esm/model/validator/GiftCertificateValidator.java:90-95 | one tag's errors under "tags[i].", with the path restored |
| GiftCertificateValidation.ValidateTag | app/src/main/java/com/epam/esm/model/validator/GiftCertificateValidator.java:92 | the chosen tag validator's errors |
| GiftCertificateValidation.ValidateIdAndText | app/src/main/java/com/epam/esm/model/validator/GiftCertificateValidator.java:43-62 | the id, name and description errors |
| GiftCertificateValidation.ValidateAmounts | app/src/main/java/com/epam/esm/model/validator/GiftCertificateValidator.java:63-74 | the price and duration errors |
| GiftCertificateValidation.ValidateDates | app/src/main/java/com/epam/esm/model/validator/GiftCertificateValidator.java:75-86 | the creation and update date errors |
| GiftCertificateValidation.ElementPathShape | app/src/main/java/com/epam/esm/model/validator/GiftCertificateValidator.java:91 | the element path is the path, "tags[", the index and "]." |
| GiftCertificateValidation.TagListEmptyIff | app/src/main/java/com/epam/esm/model/validator/GiftCertificateValidator.java:87-97 | no tag error exactly when every tag passes |
| GiftCertificateValidation.TagErrorsReported | app/src/main/java/com/epam/esm/model/validator/GiftCertificateValidator.java:87-97 | every error of the k-th tag is reported under "tags[k]." |
| GiftCertificateValidation.CertificateErrorCodes | app/src/main/java/com/epam/esm/model/validator/GiftCertificateValidator.java:40-98 | every code is one of the validator's own codes |
| GiftCertificateValidation.CertificateErrorsEmptyIff | app/src/main/java/com/epam/esm/model/validator/GiftCertificateValidator.java:40-98 | no error exactly when the certificate is valid |
| GiftCertificateValidation.OwnField | app/src/main/java/com/epam/esm/model/validator/GiftCertificateValidator.java:40-98 | an error on a non-tag field comes from the field rules only |
| GiftCertificateValidation.IdAndTextRules | app/src/main/java/com/epam/esm/model/validator/GiftCertificateValidator.java:43-62 | each id, name and description code is reported exactly when its rule is broken (255 and 65535 units) |
| GiftCertificateValidation.AmountAndDateRules | app/src/main/java/com/epam/esm/model/validator/GiftCertificateValidator.java:63-86 | price below zero by longValue, duration below zero, and years before 1970 are each reported exactly when they happen |
| GiftCertificateValidation.PriceByLongValue | app/src/main/java/com/epam/esm/model/validator/GiftCertificateValidator.java:63-68 | -0.5 is not rejected and 2^63 is rejected, since the check reads the truncated, wrapped long |
| GiftCertificateValidation.NullCertificatePasses | app/src/main/java/com/epam/esm/model/validator/GiftCertificateValidator.java:40-98 | a certificate with every field null has no error |
| GiftCertificateValidation.InvalidCertificateErrors | app/src/main/java/com/epam/esm/model/validator/GiftCertificateValidator.java:40-98 | a certificate breaking every field rule gets the seven errors in field order |
| ProxyGiftCertificateValidation.New | app/src/main/java/com/epam/esm/model/validator/ProxyGiftCertificateValidator.java:14-24 | succeeds and fails as the wrapped validator's construction does |
| ProxyGiftCertificateValidation.Validate | app/src/main/java/com/epam/esm/model/validator/ProxyGiftCertificateValidator.java:31-53 | appends the null-field errors and then the wrapped validator's errors |
| ProxyGiftCertificateValidation.ValidatePresence | app/src/main/java/com/epam/esm/model/validator/ProxyGiftCertificateValidator.java:34-51 | the six null-field errors |
| ProxyGiftCertificateValidation.ValidateTextPresence | app/src/main/java/com/epam/esm/model/validator/ProxyGiftCertificateValidator.java:34-39 | the name and description null errors |
| ProxyGiftCertificateValidation.ValidateAmountPresence | app/src/main/java/com/epam/esm/model/validator/ProxyGiftCertificateValidator.java:40-45 | the price and duration null errors |
| ProxyGiftCertificateValidation.ValidateDatePresence | app/src/main/java/com/epam/esm/model/validator/ProxyGiftCertificateValidator.java:46-51 | the date null errors |
| ProxyGiftCertificateValidation.TextNullRules | app/src/main/java/com/epam/esm/model/validator/ProxyGiftCertificateValidator.java:34-39 | "name.null" and "description.null" are reported exactly when the field is null |
| ProxyGiftCertificateValidation.AmountNullRules | app/src/main/java/com/epam/esm/model/validator/ProxyGiftCertificateValidator.java:40-45 | "price.null" and "duration.null" are reported exactly when the field is null |
| ProxyGiftCertificateValidation.DateNullRules | app/src/main/java/com/epam/esm/model/validator/ProxyGiftCertificateValidator.java:46-51 | the date null codes are reported exactly when the date is null |
| ProxyGiftCertificateValidation.NotACertificateCode | app/src/main/java/com/epam/esm/model/validator/ProxyGiftCertificateValidator.java:31-53 | an error with a code the plain validator never uses comes from the null checks |
| ProxyGiftCertificateValidation.ProxyStricter | app/src/main/java/com/epam/esm/model/validator/ProxyGiftCertificateValidator.java:31-53 | every plain error is a proxy error; the proxy passes exactly a valid certificate whose six fields are present (tags may be null) |
| ProxyGiftCertificateValidation.ValidCertificateExample | app/src/main/java/com/epam/esm/model/validator/ProxyGiftCertificateValidator.java:31-53 | a complete, valid certificate has no error |
| ProxyGiftCertificateValidation.InvalidCertificateExample | app/src/main/java/com/epam/esm/model/validator/ProxyGiftCertificateValidator.java:26-53 | the plain validator's errors still come through, and the proxy supports certificates only |
| UserValidation.EmailMatchesIff | app/src/main/java/com/epam/esm/model/validator/UserValidator.java:9 | the scan accepts exactly the pattern ^[A-Za-z0-9+_.-]+@(.+)$ |
| UserValidation.EmailAccepted | app/src/main/java/com/epam/esm/model/validator/UserValidator.java:9 | "a.b+c@d" matches |
| UserValidation.EmailRejected | app/src/main/java/com/epam/esm/model/validator/UserValidator.java:9 | the empty string, a missing local part or domain, a space in the local part and a trailing line break do not match |
| UserValidation.Validate | app/src/main/java/com/epam/esm/model/validator/UserValidator.java:16-56 | appends the id, email, name, surname and password errors |
| UserValidation.ValidateId | app/src/main/java/com/epam/esm/model/validator/UserValidator.java:19-24 | the id error |
| UserValidation.ValidateEmail | app/src/main/java/com/epam/esm/model/validator/UserValidator.java:25-34 | the email empty, too-long and invalid errors |
| UserValidation.ValidatePersonal | app/src/main/java/com/epam/esm/model/validator/UserValidator.java:35-55 | the name, surname and password errors |
| UserValidation.UserErrorsEmptyIff | app/src/main/java/com/epam/esm/model/validator/UserValidator.java:16-56 | no error exactly when the user is valid: id at least 1, well-formed email, texts non-empty and at most 100 units |
| UserValidation.EmptyEmailErrors | app/src/main/java/com/epam/esm/model/validator/UserValidator.java:25-34 | an empty email is reported both as empty and as invalid |
| UserValidation.NullUserPasses | app/src/main/java/com/epam/esm/model/validator/UserValidator.java:16-56 | a user with every field null has no error |
| ServiceGuards.Rethrow | app/src/main/java/com/epam/esm/model/service/impl/GiftCertificateServiceImpl.java:105-109 | a DaoException becomes a ServiceException with it as cause; runtime errors of the persistence layer pass through |
| GiftCertificateServiceImpl.ValidatorsAsConstructed | app/src/main/java/com/epam/esm/model/service/impl/GiftCertificateServiceImpl.java:28-29 | both of the service's validators build from the tag validator |
| GiftCertificateServiceImpl.Certificates | app/src/main/java/com/epam/esm/model/service/impl/GiftCertificateServiceImpl.java:94-110 | certificate rows read back as certificates |
| GiftCertificateServiceImpl.ReconcileTagMeaning | app/src/main/java/com/epam/esm/model/service/impl/GiftCertificateServiceImpl.java:49-71 | a tag without id is kept; a stored id is replaced by the stored tag; an unknown id is saved as a new tag with the next id |
| GiftCertificateServiceImpl.ReconcileGrows | app/src/main/java/com/epam/esm/model/service/impl/GiftCertificateServiceImpl.java:49-71 | one tag out per tag in; the tag store only grows, by the ids it generates |
| GiftCertificateServiceImpl.ReconcileStores | app/src/main/java/com/epam/esm/model/service/impl/GiftCertificateServiceImpl.java:49-71 | tags without id are kept as they are, and every tag with an id ends up stored |
| GiftCertificateServiceImpl.ReconcileFindsStored | app/src/main/java/com/epam/esm/model/service/impl/GiftCertificateServiceImpl.java:49-71 | a tag whose id was stored before becomes that stored tag |
| GiftCertificateServiceImpl.ReconcileMeaning | app/src/main/java/com/epam/esm/model/service/impl/GiftCertificateServiceImpl.java:49-71 | the three facts above together |
| GiftCertificateServiceImpl.PrepareMeaning | app/src/main/java/com/epam/esm/model/service/impl/GiftCertificateServiceImpl.java:49-73 | the certificate keeps its own fields, gets both dates set to the given times, and keeps null tags null |
| GiftCertificateServiceImpl.MergeMeaning | app/src/main/java/com/epam/esm/model/service/impl/GiftCertificateServiceImpl.java:131-138 | each non-null patch field replaces the stored one; a null update date becomes now; the id stays |
| GiftCertificateServiceImpl.MergeIdempotent | app/src/main/java/com/epam/esm/model/service/impl/GiftCertificateServiceImpl.java:131-138 | merging the same patch twice is merging it once |
| GiftCertificateServiceImpl.EmptyPatchTouches | app/src/main/java/com/epam/esm/model/service/impl/GiftCertificateServiceImpl.java:131-138 | an all-null patch only sets the update date to now |
| GiftCertificateServiceImpl.MergeKeepsValidity | app/src/main/java/com/epam/esm/model/service/impl/GiftCertificateServiceImpl.java:120-138 | a valid stored certificate merged with a patch that passed validation stays valid |
| GiftCertificateServiceImpl.QueryRowsAreCertificates | app/src/main/java/com/epam/esm/model/service/impl/GiftCertificateServiceImpl.java:94-110 | a query on the certificate store returns certificates only |
| GiftCertificateServiceImpl.GiftCertificateService.constructor | app/src/main/java/com/epam/esm/model/service/impl/GiftCertificateServiceImpl.java:28-35 | the service over two distinct stores for certificates and tags |
| GiftCertificateServiceImpl.GiftCertificateService.ReconcileTags | app/src/main/java/com/epam/esm/model/service/impl/GiftCertificateServiceImpl.java:49-71 | the loop's tags and tag store are those the reconciliation function specifies |
| GiftCertificateServiceImpl.GiftCertificateService.Add | app/src/main/java/com/epam/esm/model/service/impl/GiftCertificateServiceImpl.java:37-79 | null is an illegal argument and invalid input fails on its first field error, both with no change; else the tags are reconciled and a certificate with no id is stored with the next id (one with an id fails as detached) |
| GiftCertificateServiceImpl.GiftCertificateService.FindById | app/src/main/java/com/epam/esm/model/service/impl/GiftCertificateServiceImpl.java:82-91 | an illegal argument exactly for an id below 1; else the stored certificate with that id, or none exactly when none is stored |
| GiftCertificateServiceImpl.GiftCertificateService.FindAll | app/src/main/java/com/epam/esm/model/service/impl/GiftCertificateServiceImpl.java:94-110 | negative paging is an illegal argument; else the DAO criteria query, with its failure rethrown |
| GiftCertificateServiceImpl.GiftCertificateService.Update | app/src/main/java/com/epam/esm/model/service/impl/GiftCertificateServiceImpl.java:113-147 | bad id or null patch is illegal and invalid patches fail, with no change; a missing id fails; else the merged certificate replaces the stored one in place |
| GiftCertificateServiceImpl.GiftCertificateService.Delete | app/src/main/java/com/epam/esm/model/service/impl/GiftCertificateServiceImpl.java:150-159 | a bad id is illegal; a missing id is the wrapped not-found error; else the stored certificate is removed and returned |
| GiftCertificateServiceImpl.GiftCertificateService.FindByTagName | app/src/main/java/com/epam/esm/model/service/impl/GiftCertificateServiceImpl.java:162-182 | null names or negative paging are illegal; else the DAO's has-all-tags query, with its failure rethrown |
| UserServiceImpl.Users | app/src/main/java/com/epam/esm/model/service/impl/UserServiceImpl.java:54-70 | user rows read back as users |
| UserServiceImpl.Orders | app/src/main/java/com/epam/esm/model/service/impl/UserServiceImpl.java:73-85 | order rows read back as orders |
| UserServiceImpl.OrdersOf | app/src/main/java/com/epam/esm/model/dao/impl/UserDaoImpl.java:33-34 | exactly the stored orders of the user |
| UserServiceImpl.OrdersOfAppend | app/src/main/java/com/epam/esm/model/dao/impl/UserDaoImpl.java:33-34 | a new order is listed last for its own user and changes nobody else's list |
| UserServiceImpl.FindOrdersOfUserMeaning | app/src/main/java/com/epam/esm/model/dao/impl/UserDaoImpl.java:30-38 | succeeds exactly for a stored user and non-negative paging; an unknown user is the not-found error; the page holds at most limit of the user's orders, and all of them when it is big enough |
| UserServiceImpl.UserWithEmail | app/src/main/java/com/epam/esm/model/service/impl/UserServiceImpl.java:120-129 | a stored user with that email, and none exactly when no user has it |
| UserServiceImpl.RegisterErrorsEmptyIff | app/src/main/java/com/epam/esm/model/service/impl/UserServiceImpl.java:136-152 | the new user passes validation exactly when the email is well formed and every text is non-empty and at most 100 units |
| UserServiceImpl.DuplicateCheckExamples | app/src/main/java/com/epam/esm/model/service/impl/UserServiceImpl.java:154 | the duplicate check lower-cases the request but not the stored email, so "A@b.c" is not found again (under the exact-match lookup) |
| UserServiceImpl.QueryRowsAreUsers | app/src/main/java/com/epam/esm/model/service/impl/UserServiceImpl.java:54-70 | a query on the user store returns users only |
| UserServiceImpl.UserService.constructor | app/src/main/java/com/epam/esm/model/service/impl/UserServiceImpl.java:28-40 | the service over three distinct stores and the encoder |
| UserServiceImpl.UserService.FindById | app/src/main/java/com/epam/esm/model/service/impl/UserServiceImpl.java:42-51 | an illegal argument exactly for an id below 1; else the stored user with that id, or none exactly when none is stored |
| UserServiceImpl.UserService.FindAll | app/src/main/java/com/epam/esm/model/service/impl/UserServiceImpl.java:54-70 | negative paging is illegal; else the DAO criteria query over users, with its failure rethrown |
| UserServiceImpl.UserService.FindOrdersOfUser | app/src/main/java/com/epam/esm/model/service/impl/UserServiceImpl.java:73-85 | bad id or paging is illegal; an unknown user is the wrapped not-found error; else at most limit of that user's stored orders |
| UserServiceImpl.UserService.MakeOrderOnGiftCertificate | app/src/main/java/com/epam/esm/model/service/impl/UserServiceImpl.java:88-117 | bad ids are illegal; a missing user or certificate fails naming it; else an order for that user and certificate at the certificate's price and the given time is stored with the next id |
| UserServiceImpl.UserService.FindByEmail | app/src/main/java/com/epam/esm/model/service/impl/UserServiceImpl.java:120-129 | a null email is illegal; else a stored user with that email, or none exactly when none has it |
| UserServiceImpl.UserService.Register | app/src/main/java/com/epam/esm/model/service/impl/UserServiceImpl.java:132-168 | a null argument is illegal and invalid input fails on its first field error; a taken lower-cased email answers false; else the user is stored with the encoded password, role USER, status ACTIVE and the next id, and the answer is true |
| UserServiceImpl.SecondRegistrationRefused | app/src/main/java/com/epam/esm/model/service/impl/UserServiceImpl.java:153-160 | once a lower-case email is registered, the duplicate check finds it |

## Left out

- Controllers, HTTP, security and the Spring context are not modelled. Only the core named above is.
- Executing JPQL and SQL is not modelled. The DAO is a list of rows with a generated-id counter, and its criteria query is a function over those rows.
- LIKE follows MySQL's `%` and `_` semantics on the rendered column text. Collation and case-insensitive matching are not modelled, and numbers, decimals and dates are rendered in one fixed format.
- ORDER BY compares values with NULL first, text by code unit and decimals by value. The store's collation is not modelled. Rows that tie keep their store order, which a database does not promise.
- Association attributes such as `tags` or `user` are treated as unknown paths. `root.get` would return a join path for them, and the model reports it as an illegal attribute instead.
- Message texts of exceptions and log output are left out, including the `System.out.println` in `QuerySorter`. Errors keep only their kind and the first invalid field.
- A `null` element inside a request list would throw a NullPointerException. It is not modelled, because list elements are strings.
- A `null` element inside a certificate's `tags` list throws in `GiftCertificateValidator.validate` (`GiftCertificateValidator.java:89-93`): the tag validator dereferences it at `TagValidator.java:23-24`, and `add` and `update` then fail with an unchecked exception. It is outside the model, because `tags` is a `seq<Tag>` whose elements are always present.
- A `$` or `\` inside a replaceAll replacement is interpreted only for the fixed replacements the code uses.
- Spring's global (object-level) errors are left out. The validators only reject fields.
- Strings.ToUpper: with Strings.ToLower, the case folding covers ASCII letters only. Java's `toUpperCase`, `toLowerCase` and `equalsIgnoreCase` also fold other letters.
- UserServiceImpl.UserService.FindByEmail: modelled as an exact match on the stored email, because the implementation of `UserDao.findByEmail` is not part of this model.
- GiftCertificateDao.EmptyNameList: an empty tag-name list selects nothing, which is how `IN ()` with `count = 0` is modelled. Some databases reject the empty list instead.
- GiftCertificateServiceImpl.GiftCertificateService.Add: the model does not capture transactions. Tags stored before a failing certificate insert stay stored, and no rollback is modelled.
- SqlGiftCertificateDao.CorrectSqlSplices: with SqlGiftCertificateDao.CustomizerSplice, the bracketed splice is proved only when the base query, the conditions and the sort keys are free of the words listed in their rows. The code does not check this. A search expression "ORDER BY" puts the ")" inside the LIKE literal (SqlGiftCertificateDao.OrderByInConditions). A search expression "TEMP_VALUE" comes back as WHERE (SqlGiftCertificateDao.PlaceholderInConditions).
- AbstractDao.Dao.Update: follows `merge` (`AbstractDao.java:90-93`), which overwrites every field, null fields included. The interface comment at `Dao.java:56-58` says null fields are not updated. The model follows the code.
- The remaining DAOs and services (`TagServiceImpl`, `SqlTagDaoImpl`, the other statements of `SqlGiftCertificateDaoImpl`, `findMostUsedTag`) fall outside this core and are not modelled.
- `LocalDateTime.now()` and `PasswordEncoder.encode` are parameters of the operations that call them.
- Older revisions of `DaoException` and `ServiceException` differ in their constructors. That difference is not modelled: only the kind of error matters here.
