# Wikibase entity storage, redirects and their rule tables, in Dafny

This project models the core of Wikibase's entity storage and redirect handling:

- the revision-lookup contract over a lagging replica and an authoritative master;
- the redirect-resolving decorator that follows redirects for a bounded number of levels;
- redirect creation, with its guards and error codes, as a state change of an entity store;
- the permission rule table of the wiki-page entity store, and the folding of per-right results into one status;
- the current item serialization and the legacy decoders;
- the property-listing special page (data-type filter, `ksort`, paging);
- the change record's user and revision metadata;
- the term-search options and results, the snak-format table, and the Commons media existence validator.

Modules and files:

| file | module | models |
|---|---|---|
| `wrappers.dfy` | `Wrappers` | `Option`, `Result`, `Outcome` |
| `entity_ids.dfy` | `EntityIds` | entity ids, their serialization, parser and repository prefix |
| `data_model.dfy` | `DataModel` | items, properties, terms, snaks, statements, claims, sitelinks |
| `revision_lookup.dfy` | `RevisionLookup` | `EntityRevisionLookup`: two snapshots, the three modes |
| `redirect_resolving.dfy` | `RedirectResolving` | the level-bounded redirect-resolving decorator |
| `create_redirect.dfy` | `CreateRedirect` | `RedirectCreator`, `ApiRedirectCreator`, the error codes, the entity store |
| `permission_checker.dfy` | `PermissionChecker` | `WikiPageEntityStorePermissionChecker` |
| `wire.dfy` | `Wire` | the serialized form: PHP scalars, lists, maps and objects |
| `item_serializer.dfy` | `ItemSerialization` | `ItemSerializer` and its inverse |
| `legacy_deserializers.dfy` | `LegacyDeserialization` | the legacy id, snak, claim and sitelink-list decoders |
| `list_properties.dfy` | `ListProperties` | `SpecialListProperties` |
| `repo_entity_change.dfy` | `RepoEntityChanges` | `RepoEntityChange` |
| `term_search.dfy` | `TermSearch` | `TermSearchOptions`, `TermSearchResult` |
| `snak_format.dfy` | `SnakFormats` | `SnakFormat` |
| `commons_media.dfy` | `CommonsMedia` | `CommonsMediaExistsValidator` |

Where the interface documentation and the code disagree, the model follows the code. The documentation of `getLatestRevisionId` (lib/includes/Store/EntityRevisionLookup.php:65-76) says that a redirect yields `false`. `RedirectCreator::checkExists` (repo/includes/api/CreateRedirect.php:270-286) instead expects that call to raise an unresolved-redirect exception, and maps it to `target-is-redirect`. Its test expects exactly that code. The model therefore has two functions:

- `LatestRevisionOrRedirect` raises the exception;
- `GetLatestRevisionId` is the documented collapse of that exception to "no such entity".

The redirect creator uses `LatestRevisionOrRedirect`.

## Model

| member | source | states |
|---|---|---|
| RevisionLookup.FindRevision | lib/includes/Store/EntityRevisionLookup.php:40-44 | the position found holds the requested revision id and no later revision has it; None only when no revision has it |
| RevisionLookup.ReadRevision | lib/includes/Store/EntityRevisionLookup.php:40-58 | an id missing from the snapshot, or without revisions, gives null rather than an error; a redirect raises an unresolved redirect naming its target; unreadable content raises a storage error; revision 0 gives the latest revision when it belongs to the entity and raises otherwise; a nonzero revision that does not exist raises "not found", one that belongs only to another entity raises "other entity", and one of the entity is returned; a returned revision always belongs to the requested entity |
| RevisionLookup.GetEntityRevision | lib/includes/Store/EntityRevisionLookup.php:18-63 | in every mode (LATEST_FROM_SLAVE by default), a returned revision belongs to the requested entity and, when a nonzero revision was asked for, has that revision id |
| RevisionLookup.ReadLatestRevision | lib/includes/Store/EntityRevisionLookup.php:65-76 | raises exactly when the id is a redirect, naming the redirect's target and revision |
| RevisionLookup.LatestRevisionOrRedirect | repo/includes/api/CreateRedirect.php:270-286 | the latest revision id in a mode; the only error it raises is an unresolved redirect |
| RevisionLookup.GetLatestRevisionId | lib/includes/Store/EntityRevisionLookup.php:65-76 | false (None) exactly when the entity is missing or is a redirect |
| RevisionLookup.RedirectIsReported | lib/includes/Store/EntityRevisionLookup.php:46-55 | a redirect is never followed: any revision request raises the unresolved redirect, and the latest revision id is false |
| RevisionLookup.MissingEntityIsNull | lib/includes/Store/EntityRevisionLookup.php:40-44 | an entity missing from both snapshots gives null and false in every mode, not an error |
| RevisionLookup.ModesReadTheirSnapshots | lib/includes/Store/EntityRevisionLookup.php:18-38 | master mode depends only on master and slave mode only on the replica; slave-with-fallback answers like slave mode unless the replica misses, and like master mode when it does |
| RevisionLookup.MissingRevisionRaises | lib/includes/Store/EntityRevisionLookup.php:40-44 | a nonzero revision that the answering snapshot lacks raises a storage error, not null, in every mode |
| RevisionLookup.ForeignRevisionRaises | lib/includes/Store/EntityRevisionLookup.php:40-44 | a nonzero revision that belongs to another entity raises a storage error in every mode |
| RevisionLookup.ExistingRevisionIsFound | lib/includes/Store/EntityRevisionLookup.php:40-42 | a revision of the entity held by the snapshot a mode reads first is returned in every mode: the newest with the requested id, or the latest for revision 0 |
| RevisionLookup.ZeroMeansLatest | lib/includes/Store/EntityRevisionLookup.php:51 | the revision returned for revision 0 carries the id that getLatestRevisionId reports |
| RedirectResolving.NewDecorator | lib/tests/phpunit/store/EntityRedirectResolvingDecoratorTest.php:25-41 | construction succeeds exactly for an object target and a non-negative level count, and otherwise raises InvalidArgumentException |
| RedirectResolving.CallsMade | lib/tests/phpunit/store/EntityRedirectResolvingDecoratorTest.php:89-142 | the decorator makes between 1 and levels+1 calls, the first with the caller's arguments, and every retry changes only the first argument |
| RedirectResolving.Call | lib/tests/phpunit/store/EntityRedirectResolvingDecoratorTest.php:104-142 | the loop that retries with the redirect target while levels remain computes the decorated outcome |
| RedirectResolving.SameModeOnEveryHop | lib/tests/phpunit/store/EntityRedirectResolvingDecoratorTest.php:104-115 | revision and mode arguments are passed unchanged on every retry |
| RedirectResolving.OtherExceptionsPassThrough | lib/tests/phpunit/store/EntityRedirectResolvingDecoratorTest.php:154-162 | an exception other than an unresolved redirect, or one from a call without an id argument, reaches the caller unchanged |
| RedirectResolving.ZeroLevelsPassThrough | lib/tests/phpunit/store/EntityRedirectResolvingDecoratorTest.php:126 | with zero levels the decorated call is the plain call |
| RedirectResolving.ResolvedIsLastCall | lib/tests/phpunit/store/EntityRedirectResolvingDecoratorTest.php:104-142 | the decorated answer is the answer of the last call made |
| RedirectResolving.MoreLevelsKeepAnswer | lib/tests/phpunit/store/EntityRedirectResolvingDecoratorTest.php:97-101 | raising the level bound never changes an answer that was not an unresolved redirect |
| RedirectResolving.ChainResolution | lib/tests/phpunit/store/EntityRedirectResolvingDecoratorTest.php:89-142 | a chain of n redirects resolves to its end with at least n levels; with fewer, it raises an unresolved redirect naming the furthest target reached |
| RedirectResolving.ChainStoreResolution | lib/tests/phpunit/store/EntityRedirectResolvingDecoratorTest.php:89-142 | on Q1→Q5→Q10: Q10 with 1 level, Q5 with 1 level and Q1 with 2 levels give Q10; Q5 with 0 levels and Q1 with 1 level raise |
| RedirectResolving.ArgumentlessCallsPropagate | lib/tests/phpunit/store/EntityRedirectResolvingDecoratorTest.php:144-162 | a call with no entity-id argument passes both the redirect exception and a runtime exception to the caller |
| RedirectResolving.ConstructionErrors | lib/tests/phpunit/store/EntityRedirectResolvingDecoratorTest.php:25-41 | a non-object target, levels -3 and null levels are rejected; the default of one level is an assumption listed under "## Left out" |
| CreateRedirect.NewEntityRedirect | repo/includes/api/CreateRedirect.php:175-188 | a redirect is constructed exactly for two distinct ids of the same entity type, and keeps both ids |
| CreateRedirect.ErrorCodeOf | repo/includes/api/CreateRedirect.php:47-56 | an error code read back from its string is the code with that string |
| CreateRedirect.StringCodesIdentifyErrors | repo/includes/api/CreateRedirect.php:309-322 | every error code survives the round trip through its string code, so no two codes share a string |
| CreateRedirect.CheckExists | repo/includes/api/CreateRedirect.php:270-286 | target-is-redirect iff the target is a redirect; no-such-entity iff it has no latest revision; passes iff it has a nonzero latest revision |
| CreateRedirect.CheckEmpty | repo/includes/api/CreateRedirect.php:241-268 | passes iff the source is an empty entity or a redirect; no-such-entity iff it is missing; not-empty iff it has content; cant-load-entity-content iff loading fails |
| CreateRedirect.CreationOutcomeCases | repo/includes/api/CreateRedirect.php:234-239 | the target is checked before the source, the save runs only when both checks pass, and creation never yields the parameter-level codes |
| CreateRedirect.CreatedRedirectsAreSafe | repo/includes/api/CreateRedirect.php:234-286 | a successful creation had an existing, non-redirect target and a source that exists in the replica |
| CreateRedirect.EntityStore.SaveRedirect | repo/includes/api/CreateRedirect.php:288-305 | a redirectable source gets the redirect under a fresh revision id in master; any other fails with cant-redirect and leaves the store unchanged; the store invariant is kept |
| CreateRedirect.RedirectCreator.CreateRedirect | repo/includes/api/CreateRedirect.php:234-239 | the outcome is the guarded decision on the store as it was; on success the source becomes a redirect to the target, and reading it back from master (or in any mode without lag) raises an unresolved redirect to the target under the new revision id, and the revision counter advances by one; on failure master, replica and the revision counter are unchanged |
| CreateRedirect.WrittenRedirectIsReported | repo/tests/phpunit/includes/api/CreateRedirectTest.php:108-123 | after a redirect is written, reading the source raises an unresolved redirect whose target is exactly `to` |
| CreateRedirect.ExtractEntityId | repo/includes/api/CreateRedirect.php:190-196 | succeeds iff the parameter is present and parses, giving the id it serializes; otherwise invalid-entity-id |
| CreateRedirect.RedirectFromRequestParams | repo/includes/api/CreateRedirect.php:175-188 | an unparsable `from` or `to` gives invalid-entity-id; ids of different types give target-is-incompatible; otherwise the redirect of the two parsed ids |
| CreateRedirect.ApiRedirectCreator.CreateRedirect | repo/includes/api/CreateRedirect.php:159-173 | parameter errors come first, then the creator's outcome; on success master holds the redirect, the replica follows master unless it lags, and the revision counter advances by one; on failure master, replica and the revision counter are unchanged |
| CreateRedirect.TestIdsParse | repo/tests/phpunit/includes/api/CreateRedirectTest.php:148-161 | the ids of the test table parse to the expected items and properties, and "xyz" does not parse |
| CreateRedirect.TestSnapshotPages | repo/tests/phpunit/includes/api/CreateRedirectTest.php:40-67 | the test repository holds an empty Q11, a labelled Q12, P11, P12 and a Q22 that redirects to Q12, and no Q77 |
| CreateRedirect.FailureRowsInvalidId | repo/tests/phpunit/includes/api/CreateRedirectTest.php:150-151 | a bad source id and a bad target id give invalid-entity-id |
| CreateRedirect.FailureRowsNotFound | repo/tests/phpunit/includes/api/CreateRedirectTest.php:153-154 | a missing source and a missing target give no-such-entity |
| CreateRedirect.FailureRowsBadTarget | repo/tests/phpunit/includes/api/CreateRedirectTest.php:155-156 | a redirect target gives target-is-redirect; an item-to-property redirect gives target-is-incompatible |
| CreateRedirect.FailureRowNotEmpty | repo/tests/phpunit/includes/api/CreateRedirectTest.php:158 | a source with a label gives not-empty |
| CreateRedirect.FailureRowCantRedirect | repo/tests/phpunit/includes/api/CreateRedirectTest.php:159 | a property source gives cant-redirect |
| CreateRedirect.SuccessRows | repo/tests/phpunit/includes/api/CreateRedirectTest.php:125-129 | redirecting an empty item and overwriting an existing redirect both succeed |
| PermissionChecker.MergeLaws | repo/includes/Store/WikiPageEntityStorePermissionChecker.php:172-177 | merging into the good status changes nothing and merging is associative, so the loop's left-to-right merges give one well-defined status |
| PermissionChecker.SpecificRightIsNotBase | repo/includes/Store/WikiPageEntityStorePermissionChecker.php:180-238 | a type-specific right is never one of read, edit or createpage |
| PermissionChecker.PermissionsToCheck | repo/includes/Store/WikiPageEntityStorePermissionChecker.php:180-242 | an unknown action raises; otherwise the rights start with read and have no repeats; edit is included for every action but read; createpage only for create; a type-specific right only when that right exists |
| PermissionChecker.RightsForActions | repo/includes/Store/WikiPageEntityStorePermissionChecker.php:161-167 | fails iff some action is unknown; otherwise it holds exactly the rights of all the actions |
| PermissionChecker.Dedup | repo/includes/Store/WikiPageEntityStorePermissionChecker.php:168-170 | the result has no repeats and the same members as its input |
| PermissionChecker.DedupKeepsFirstOccurrenceOrder | repo/includes/Store/WikiPageEntityStorePermissionChecker.php:168-170 | the kept rights appear in the order of their first occurrences in the input |
| PermissionChecker.DedupOfUnique | repo/includes/Store/WikiPageEntityStorePermissionChecker.php:168-170 | deduplicating a list without repeats leaves it unchanged |
| PermissionChecker.PermissionStatus | repo/includes/Store/WikiPageEntityStorePermissionChecker.php:244-257 | good iff the user has no permission errors for the right, and the errors are those errors |
| PermissionChecker.FoldStatusOk | repo/includes/Store/WikiPageEntityStorePermissionChecker.php:158-178 | the folded status is good iff every right's check is clean, iff its error list is empty |
| PermissionChecker.ActionsStatusOk | repo/includes/Store/WikiPageEntityStorePermissionChecker.php:158-178 | for known actions, each right is checked once, and the status is good iff every right any of the actions needs is clean |
| PermissionChecker.CheckPermissionsForActions | repo/includes/Store/WikiPageEntityStorePermissionChecker.php:158-178 | the two loops (collecting the rights, then merging the statuses) compute the specified status |
| PermissionChecker.CollectRights | repo/includes/Store/WikiPageEntityStorePermissionChecker.php:161-168 | the first loop concatenates the rights of every action in order, and the first unknown action raises |
| PermissionChecker.MergeStatuses | repo/includes/Store/WikiPageEntityStorePermissionChecker.php:172-175 | the second loop merges, starting from a good status, the status of every right in order |
| PermissionChecker.ForEntityType | repo/includes/Store/WikiPageEntityStorePermissionChecker.php:136-156 | checks the actions against the title of the type's namespace |
| PermissionChecker.ForEntityId | repo/includes/Store/WikiPageEntityStorePermissionChecker.php:95-114 | an id without an existing page is checked for the action plus create in the namespace; an existing page for the action alone on its title |
| PermissionChecker.ForEntity | repo/includes/Store/WikiPageEntityStorePermissionChecker.php:63-81 | an entity without an id is checked for the action plus create in its type's namespace; otherwise as for its id |
| PermissionChecker.NewPagesNeedCreateRights | repo/includes/Store/WikiPageEntityStorePermissionChecker.php:181-191 | checking a new page needs read, edit, createpage and the available `<type>-create` right to be clean |
| PermissionChecker.ReadingNeedsOnlyRead | repo/includes/Store/WikiPageEntityStorePermissionChecker.php:229-235 | reading is good iff the read right is clean |
| PermissionChecker.UnknownActionRaises | repo/includes/Store/WikiPageEntityStorePermissionChecker.php:237 | an unknown action among the actions raises InvalidArgumentException |
| ItemSerialization.TermListRoundTrip | lib/packages/wikibase/data-model-serialization/tests/unit/Serializers/ItemSerializerTest.php:84-96 | labels and descriptions decode back from their serialization |
| ItemSerialization.AliasGroupListRoundTrip | lib/packages/wikibase/data-model-serialization/tests/unit/Serializers/ItemSerializerTest.php:84-96 | aliases decode back from their serialization, dropping languages without aliases |
| ItemSerialization.StatementsWithKey | lib/packages/wikibase/data-model-serialization/tests/unit/Serializers/ItemSerializerTest.php:98-121 | selects the statements of one property, each as often as the list holds it, and keeps them in list order |
| ItemSerialization.StatementsGroupedByProperty | lib/packages/wikibase/data-model-serialization/tests/unit/Serializers/ItemSerializerTest.php:98-121 | `claims` is keyed by exactly the properties used; each group is the serialization of its property's statements in list order, and every statement appears under its own property |
| ItemSerialization.GroupsHoldEveryStatement | lib/packages/wikibase/data-model-serialization/tests/unit/Serializers/ItemSerializerTest.php:98-121 | the groups together hold every statement exactly as often as the list, each under its own property |
| ItemSerialization.StatementRoundTrip | lib/packages/wikibase/data-model-serialization/tests/unit/Serializers/ItemSerializerTest.php:98-121 | a statement's main snak and rank decode back from its serialization |
| ItemSerialization.StatementListRoundTrip | lib/packages/wikibase/data-model-serialization/tests/unit/Serializers/ItemSerializerTest.php:98-121 | `claims` decodes back to the statements grouped by property, each group in list order |
| ItemSerialization.BadgesRoundTrip | lib/packages/wikibase/data-model-serialization/tests/unit/Serializers/ItemSerializerTest.php:123-141 | badges decode back from their serialization |
| ItemSerialization.SiteLinksRoundTrip | lib/packages/wikibase/data-model-serialization/tests/unit/Serializers/ItemSerializerTest.php:123-185 | sitelinks keyed by site decode back, in both the array and the object shape |
| ItemSerialization.Serialize | lib/packages/wikibase/data-model-serialization/tests/unit/Serializers/ItemSerializerTest.php:61-96 | only items are serializable; an item serializes to a map with exactly the item keys, including every empty field, and type "item" |
| ItemSerialization.ObjectsForMapsOnlyChangesSiteLinks | lib/packages/wikibase/data-model-serialization/tests/unit/Serializers/ItemSerializerTest.php:146-185 | the objects-for-maps switch changes only `sitelinks`, into object shape |
| ItemSerialization.ItemRoundTrip | lib/packages/wikibase/data-model-serialization/tests/unit/Serializers/ItemSerializerTest.php:84-185 | an item's id (present exactly when the item has one), terms, aliases, statements grouped by property, and sitelinks decode back from its serialization |
| ItemSerialization.SerializableSplit | lib/packages/wikibase/data-model-serialization/tests/unit/Serializers/ItemSerializerTest.php:61-81 | any item, an empty one included, is serializable; an integer, an array and a property are not |
| ItemSerialization.EmptyItemRow | lib/packages/wikibase/data-model-serialization/tests/unit/Serializers/ItemSerializerTest.php:84-96 | the empty item serializes to type item and five empty fields |
| ItemSerialization.StatementRow | lib/packages/wikibase/data-model-serialization/tests/unit/Serializers/ItemSerializerTest.php:98-121 | an item with one statement on P42 has it under `claims` → `P42` |
| ItemSerialization.SiteLinkRow | lib/packages/wikibase/data-model-serialization/tests/unit/Serializers/ItemSerializerTest.php:123-141 | an enwiki sitelink appears under `sitelinks` with its site, title and badges |
| LegacyDeserialization.DecodeEntityId | lib/packages/wikibase/internal-serialization/tests/integration/DeserializerFactoryTest.php:29-34 | a decoded id is valid and serializes to the input string |
| LegacyDeserialization.EntityIdRoundTrip | lib/packages/wikibase/internal-serialization/tests/integration/DeserializerFactoryTest.php:29-34 | every valid id decodes back from its string |
| LegacyDeserialization.DecodeSnak | lib/packages/wikibase/internal-serialization/tests/integration/DeserializerFactoryTest.php:36-41 | a decoded flat snak names a local property with a positive number |
| LegacyDeserialization.SnakRoundTrip | lib/packages/wikibase/internal-serialization/tests/integration/DeserializerFactoryTest.php:36-41 | every snak on a local property decodes back from its flat tuple |
| LegacyDeserialization.DecodeSnaks | lib/packages/wikibase/internal-serialization/tests/integration/DeserializerFactoryTest.php:43-54 | a snak list decodes element by element, keeping its length |
| LegacyDeserialization.SnaksRoundTrip | lib/packages/wikibase/internal-serialization/tests/integration/DeserializerFactoryTest.php:43-54 | a snak list decodes back from its encoding |
| LegacyDeserialization.DecodeClaim | lib/packages/wikibase/internal-serialization/tests/integration/DeserializerFactoryTest.php:43-54 | a decoded m/q/g claim has a main snak on a local property |
| LegacyDeserialization.ClaimRoundTrip | lib/packages/wikibase/internal-serialization/tests/integration/DeserializerFactoryTest.php:43-54 | a claim decodes back from its m/q/g map |
| LegacyDeserialization.DecodeSiteLinkList | lib/packages/wikibase/internal-serialization/tests/integration/DeserializerFactoryTest.php:56-65 | a decoded sitelink list is keyed by site and has no badges |
| LegacyDeserialization.SiteLinkListRoundTrip | lib/packages/wikibase/internal-serialization/tests/integration/DeserializerFactoryTest.php:56-65 | a badge-free sitelink list decodes back from its site→title map |
| LegacyDeserialization.LegacyAndCurrentSiteLinksAgree | lib/packages/wikibase/internal-serialization/tests/integration/DeserializerFactoryTest.php:56-65 | a badge-free sitelink list reads back the same from the legacy form as from the current form |
| LegacyDeserialization.EntityIdRow | lib/packages/wikibase/internal-serialization/tests/integration/DeserializerFactoryTest.php:29-34 | "Q1" decodes to item Q1 |
| LegacyDeserialization.SnakRow | lib/packages/wikibase/internal-serialization/tests/integration/DeserializerFactoryTest.php:36-41 | ['novalue', 1] decodes to a no-value snak on P1 |
| LegacyDeserialization.ClaimRow | lib/packages/wikibase/internal-serialization/tests/integration/DeserializerFactoryTest.php:43-54 | the m/q/g claim decodes to a claim with just its main snak |
| LegacyDeserialization.SiteLinkListRow | lib/packages/wikibase/internal-serialization/tests/integration/DeserializerFactoryTest.php:56-65 | {foo: bar} decodes to one badge-free sitelink foo→bar |
| ListProperties.BelowTotal | repo/includes/Specials/SpecialListProperties.php:266-268 | the key order is total |
| ListProperties.BelowAntisymmetric | repo/includes/Specials/SpecialListProperties.php:266-268 | two keys ordered both ways are equal |
| ListProperties.BelowTransitive | repo/includes/Specials/SpecialListProperties.php:266-268 | the key order is transitive |
| ListProperties.SortedKeys | repo/includes/Specials/SpecialListProperties.php:266-268 | the keys in strictly increasing order, each exactly once |
| ListProperties.SortedKeysUnique | repo/includes/Specials/SpecialListProperties.php:266-268 | any strictly increasing list of exactly the keys is the sorted key list |
| ListProperties.Insert | repo/includes/Specials/SpecialListProperties.php:266-268 | inserting a new key keeps the list sorted and adds exactly that key |
| ListProperties.Slice | repo/includes/Specials/SpecialListProperties.php:241-247 | at most `limit` entries, which are the entries from position `offset` on, in order |
| ListProperties.PagesAreConsecutive | repo/includes/Specials/SpecialListProperties.php:241-247 | consecutive pages join without gaps or overlaps |
| ListProperties.IdsOf | repo/includes/Specials/SpecialListProperties.php:246-248 | one id per serialization, each serializing back to it |
| ListProperties.ParseIds | repo/includes/Specials/SpecialListProperties.php:246-248 | the loop yields one valid property id per serialization, each serializing back to it |
| ListProperties.ListPropertiesPage.PrepareArguments | repo/includes/Specials/SpecialListProperties.php:142-150 | the data type becomes the request value, else the sub page, else ""; an unknown non-empty one is reported and reset to null |
| ListProperties.ListPropertiesPage.GetPropertyInfo | repo/includes/Specials/SpecialListProperties.php:257-269 | the loop returns the matching property keys in sorted order |
| ListProperties.ListPropertiesPage.GetResult | repo/includes/Specials/SpecialListProperties.php:240-252 | returns the page of property ids at `offset` of at most `limit` entries, in order; it prefetches terms for exactly those ids |
| ListProperties.ListPropertiesPage.Execute | repo/includes/Specials/SpecialListProperties.php:128-140 | the query runs exactly when the data type is not null, and then shows and prefetches the result page; on a null data type the invalid-datatype error is reported and nothing is prefetched, otherwise no error is added |
| ListProperties.ResultPageProperties | repo/includes/Specials/SpecialListProperties.php:240-269 | a page holds at most `limit` ids of properties matching the filter, in sorted order, and consecutive pages line up |
| RepoEntityChanges.RevisionMetadata | repo/includes/Notifications/RepoEntityChange.php:58-64 | page, parent, comment and revision id, with a null comment when the revision has none |
| RepoEntityChanges.RepoEntityChange.SetMetadataFromUser | repo/includes/Notifications/RepoEntityChange.php:22-39 | records the user's id, name and central id; page_id, rev_id and parent_id become 0 only where absent, and other existing metadata is kept |
| RepoEntityChanges.RepoEntityChange.SetRevisionInfo | repo/includes/Notifications/RepoEntityChange.php:46-72 | writes revision_id and time first; fails iff there is no object_id, with nothing else changed; otherwise the metadata rev_id equals the revision_id field, and a missing user is recorded as 0 and '' |
| RepoEntityChanges.DefaultsAreStable | repo/includes/Notifications/RepoEntityChange.php:29-38 | once the page keys are present, filling the defaults again changes nothing |
| TermSearch.TermSearchOptions.SetLimit | lib/tests/phpunit/Interactors/TermSearchOptionsTest.php:19-34 | a limit above 2500 is capped at 2500, others are kept; the flags are unchanged |
| TermSearch.TermSearchOptions.SetIsCaseSensitive | lib/tests/phpunit/Interactors/TermSearchOptionsTest.php:46-50 | stores the flag and changes nothing else |
| TermSearch.TermSearchOptions.SetIsPrefixSearch | lib/tests/phpunit/Interactors/TermSearchOptionsTest.php:55-59 | stores the flag and changes nothing else |
| TermSearch.TermSearchOptions.SetUseLanguageFallback | lib/tests/phpunit/Interactors/TermSearchOptionsTest.php:64-68 | stores the flag and changes nothing else |
| TermSearch.LimitRoundTrip | lib/tests/phpunit/Interactors/TermSearchOptionsTest.php:19-34 | a limit set on fresh options reads back unchanged up to 2500 and as 2500 above |
| TermSearch.FlagsRoundTrip | lib/tests/phpunit/Interactors/TermSearchOptionsTest.php:36-68 | each flag reads back as it was set |
| TermSearch.LimitRows | lib/tests/phpunit/Interactors/TermSearchOptionsTest.php:19-24 | 1 → 1, 2500 → 2500, 999999 → 2500 |
| TermSearch.RepositoryName | lib/tests/phpunit/Interactors/TermSearchResultTest.php:40-47 | the repository name holds no ':' and is "" for an unprefixed id |
| TermSearch.RepositoryNameIsPrefix | lib/tests/phpunit/Interactors/TermSearchResultTest.php:22-47 | the repository name is the id's own prefix |
| TermSearch.ResultRows | lib/tests/phpunit/Interactors/TermSearchResultTest.php:22-76 | the getters return the constructor's arguments, null label and description included; Q1234 and P777 have repository "" and foo:P777 has "foo" |
| EntityIds.Parse | repo/includes/api/CreateRedirect.php:190-196 | a parsed id is valid and serializes back to the parsed string |
| EntityIds.ParseFormat | repo/includes/api/CreateRedirect.php:190-196 | every valid id parses back from its serialization |
| EntityIds.RepositoryNameOf | lib/tests/phpunit/Interactors/TermSearchResultTest.php:40-47 | the part before the first ':', or "" when there is none |
| EntityIds.RepositoryNameOfFormat | lib/tests/phpunit/Interactors/TermSearchResultTest.php:40-47 | the prefix read off an id's serialization is the id's repository |
| SnakFormats.GetBaseFormat | lib/tests/phpunit/Formatters/SnakFormatTest.php:17-44 | total on the format constants: HTML exactly for the HTML variants, the format itself otherwise |
| SnakFormats.BaseFormatIdempotent | lib/tests/phpunit/Formatters/SnakFormatTest.php:17-29 | a base format is its own base |
| SnakFormats.IsPossibleFormat | lib/tests/phpunit/Formatters/SnakFormatTest.php:46-60 | a format serves itself, and otherwise only HTML variants serve HTML variants |
| SnakFormats.PossibleIffSameBase | lib/tests/phpunit/Formatters/SnakFormatTest.php:46-60 | compatibility is exactly having the same base format |
| SnakFormats.PossibleIsEquivalence | lib/tests/phpunit/Formatters/SnakFormatTest.php:46-60 | compatibility is reflexive, symmetric and transitive |
| SnakFormats.BaseFormatRows | lib/tests/phpunit/Formatters/SnakFormatTest.php:17-29 | verbose and verbose-preview HTML have base HTML; wiki has base wiki |
| SnakFormats.PossibleFormatRows | lib/tests/phpunit/Formatters/SnakFormatTest.php:46-52 | HTML serves HTML and its verbose variants; verbose serves verbose-preview; plain does not serve HTML |
| CommonsMedia.Validate | repo/tests/phpunit/includes/Validators/CommonsMediaExistsValidatorTest.php:24-70 | raises InvalidArgumentException exactly for a non-string; a string or StringValue is valid iff the lookup finds the file |
| CommonsMedia.StringValueLikeString | repo/tests/phpunit/includes/Validators/CommonsMediaExistsValidatorTest.php:51-63 | a StringValue is judged exactly like the string it wraps |
| CommonsMedia.ValidateRows | repo/tests/phpunit/includes/Validators/CommonsMediaExistsValidatorTest.php:24-70 | Foo.png is valid, plain or wrapped; Foo.NOT-FOUND.png is invalid; 5 raises |

## Left out

- The code of several classes is not modelled statement by statement; their modules model the behaviour that the tests exercising them and the code calling them fix:
  - `EntityRedirectResolvingDecorator`, `EntityRedirect`, `SnakFormat`, `TermSearchOptions`, `TermSearchResult`, `CommonsMediaExistsValidator`;
  - the `EntityChange` parent class with its `setFields`, `setMetadata` and `addUserMetadata`;
  - the fingerprint, statement and sitelink serializers used by `ItemSerializer`.
- `CreateRedirect.NewEntityRedirect`: the rejection of a redirect from an id to itself is an assumption: the code of the `EntityRedirect` constructor is not modelled statement by statement, and no test fixes this case. With it, a request from Q11 to Q11 gives `target-is-incompatible` in the model.
- `EntityChange` parent class: the model assumes the following.
  - `setFields` and `setMetadata` replace the given keys and keep the others.
  - `addUserMetadata` writes the user id as a field, and the name and central id as metadata.
  - The filtering of metadata keys by the parent class is not modelled.
- Item serialization:
  - An `id` entry appears only when the item has an id.
  - Statements carry only a main snak and a rank. Guids, qualifiers and references are not modelled.
  - The order of the statement list across properties is not recovered: `claims` reads back as one group per property.
  - Ids inside an item (its own id, the properties of its statements, badges) are taken to be valid ids, as the id classes guarantee.
- Legacy formats:
  - The legacy value-snak tuple is taken as `['value', n, 'string', text]`. Only string values are modelled.
  - Legacy sitelinks carry no badges.
- Entity ids:
  - Only item (`Q`) and property (`P`) ids are modelled, upper-case, with at most one repository prefix.
  - The parser used by the API module is taken to be this one.
- The CreateRedirect API module class is left out: parameter declarations, token and write-mode flags, the service locator, and summary formatting. Only the error code it reports is modelled.
- Storage failures during a save are a parameter of the entity store (types that cannot be redirected) rather than real database errors.
- Replica lag, database reads, caching and concurrency are left out. The two snapshots are given values.
- The `Title`, `User` and `Status` machinery of the permission checker is left out:
  - `getUserPermissionsErrors` is an abstract function;
  - the namespace lookup is total;
  - the `quick` flag is passed through only as the rigor argument.
- PHP arrays:
  - Arrays are either lists or string-keyed maps; the empty array is both. `Wire.AsList` and `Wire.AsMap` encode this rule; it is a modelling choice, not a promise of the serializer tests.
  - Insertion order inside a map is not modelled.
  - `ksort` is modelled as character-by-character string order on the serialized ids. Byte order and numeric-string keys are not modelled.
- `ListProperties.Slice`: only non-negative offsets and limits are modelled. `array_slice` with negative arguments is not.
- The HTML of the special page is left out: `showForm`, `formatRow`, caching and navigation. Prefetching terms is recorded only as the list of ids prefetched.
- `RedirectResolving.NewDecorator`: the default of one level is an assumption. The decorator's code is not shown, and the only tests that use the default (EntityRedirectResolvingDecoratorTest.php:150 and :160) do not depend on the number of levels.
- `TermSearch.TermSearchOptions.constructor`: the defaults of the options are not fixed by the tests. The constructor promises only that the limit is within the cap.
- `TermSearch.TermSearchOptions.SetLimit`: the tests fix no behaviour for a non-positive limit. The model stores it like any other limit below the cap.
- `SnakFormats.IsPossibleFormat`:
  - The constant strings of the formats are not modelled; the formats are an enumeration.
  - The rule "same format, or both HTML variants" is the one that agrees with every row of the test.
- UI wiring, client page updates, Lua test harnesses, HTTP data-type lookups, the real-item fixtures and the entity-id link formatter are outside the modelled core.
