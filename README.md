# Qwiq REST link types and work item fields, in Dafny

This project models the core of Microsoft.Qwiq, a client library that puts one work item store
interface over a SOAP and a REST work-tracking backend.

The centre of the model is the REST store's `GetLinks`. It takes the relation types the service
returns and builds the link type collection from them:

- it keeps the records whose `usage` is `"workItemLink"`;
- it derives each record's base name with the regular expression `(.*)-(.*)`, which is greedy and so
  splits at the last hyphen, falling back to the whole name when the captured base is blank;
- it groups the records by base name, ignoring case;
- it sets each link type's `IsDirectional` and `IsActive` flags to the conjunction over its group;
- it picks the forward and reverse ends, where a symmetric type's reverse end is the same object as its
  forward end;
- it stores the negated legacy ids on the ends of the three system link types (Hierarchy, Related and
  Dependency).

Around it, the project models the store constructor's argument checks, the id query's null and empty
cases, and `WorkItemCore`, the mutable, case-insensitive field bag of a work item.

The files:

- `wrappers.dfy`: `Option`, `Result` and `Outcome`. Exceptions and `null` are values of these types.
- `strings.dfy`: the .NET string operations that are used: OrdinalIgnoreCase comparison, `char.IsWhiteSpace`,
  `string.IsNullOrWhiteSpace` and a suffix test.
- `link_names.dfy`: the link-name regular expression and the base-name rule.
- `link_spec.dfy`: what `GetLinks` computes, on values. `Build` is the first loop (the two dictionaries `d`
  and `d2`, with their insertion order). `ReconcileGroup` is one pass of the second loop. `Reconcile` is
  the whole method.
- `link_props.dfy`: the properties of `LinkTypeReconciliation`.
- `link_scenarios.dfy`: two worked examples, proved: a directional Dependency pair and a lone Related record.
- `link_types.dfy`: `GetLinks` as the code runs it. It is imperative: the link type and end objects are
  classes, the objects are created in the first loop and completed in place in the second loop, and the
  end of a symmetric type is one object shared by both sides. Each method is proved to produce exactly
  the result `LinkTypeReconciliation` gives.
- `store.dfy`: the store constructors and `Query(IEnumerable<int>)`.
- `work_item_core.dfy`: the field dictionary and `WorkItemCore`, as classes with `modifies` frames.

On unusual inputs the code behaves as follows:

- A directional group without a record ending in `Reverse` passes `null` to the end constructor. The model
  treats this as the exception `ReverseEndMissing`.
- A group that is not a single non-directional record and has no record ending in `Forward` leaves the
  forward end `null`. The next line dereferences it. The model treats this as `ForwardEndMissing`.
- More than one record ending in the suffix makes `SingleOrDefault` throw: `AmbiguousEnd`.
- The first exception ends `GetLinks`.
- The result depends on the input order. Each link type is named after the first spelling of
  its base name in the input, and the collection lists the types in the order their base names first
  appear (`ReconcileNamesFirstSpelling`, `ReconcileKeys`).
- For a non-directional system type, both ends are one object. The reverse id is assigned last, so the
  shared end keeps it: a non-directional Hierarchy type has -Parent on both sides (`HierarchyIds`).

## Model

| member | source | states |
|---|---|---|
| LinkTypeNames.LastHyphen | src/Qwiq.Core.Rest/WorkItemStore.cs:15-17 | the greedy `(.*)-` stops at a hyphen after which no hyphen follows, and finds none exactly when the name has no hyphen |
| LinkTypeNames.BaseNameIsPrefix | src/Qwiq.Core.Rest/WorkItemStore.cs:147-150 | the base name is a prefix of the raw name, and is the whole name exactly when there is no hyphen or the text before the last hyphen is blank |
| LinkTypeNames.BaseNameSplitsAtLastHyphen | src/Qwiq.Core.Rest/WorkItemStore.cs:147-150 | when the base name is not the whole name, the raw name is base + "-" + a direction that contains no hyphen |
| LinkTypeNames.BaseNameOfJoined | src/Qwiq.Core.Rest/WorkItemStore.cs:147-150 | joining a non-blank base and a hyphen-free direction with "-" gives back that base |
| LinkTypeReconciliation.BuildWellFormed | src/Qwiq.Core.Rest/WorkItemStore.cs:142-156 | after the first loop, the keys are distinct and index both dictionaries, and every group is non-empty and folds its name to its key |
| LinkTypeReconciliation.RecordsWithKey | src/Qwiq.Core.Rest/WorkItemStore.cs:145-153 | the work-item links with a given key, exactly, and empty iff there are none |
| LinkTypeReconciliation.WorkItemLinks | src/Qwiq.Core.Rest/WorkItemStore.cs:145 | exactly the records whose usage is "workItemLink", and empty iff there are none |
| LinkTypeReconciliation.EndingWith | src/Qwiq.Core.Rest/WorkItemStore.cs:168 | exactly the records whose name ends with the suffix |
| LinkTypeReconciliation.ReconcileGroup | src/Qwiq.Core.Rest/WorkItemStore.cs:160-208 | a completed type keeps the group's name; it is directional iff all records are, and active iff all are enabled; its forward end is a forward link whose name ends in "Forward"; a non-directional type's reverse end is its forward end |
| LinkTypeReconciliation.Collect | src/Qwiq.Core.Rest/WorkItemStore.cs:158-211 | the loop succeeds iff every pass does, in order, with their values; otherwise it fails with the first failing pass's exception |
| LinkTypeReconciliation.ReconcileAll | src/Qwiq.Core.Rest/WorkItemStore.cs:158-211 | the same, over the groups of the second loop |
| LinkTypeProperties.BuildRecords | src/Qwiq.Core.Rest/WorkItemStore.cs:152-153 | a key has a group iff some work-item link has that key, and the group holds all of them in input order |
| LinkTypeProperties.BuildFirstName | src/Qwiq.Core.Rest/WorkItemStore.cs:155 | a group is named with the base name of the first work-item link that has its key |
| LinkTypeProperties.BuildIgnoresOtherUsages | src/Qwiq.Core.Rest/WorkItemStore.cs:145 | the first loop gives the same dictionaries when the other usages are removed first |
| LinkTypeProperties.ReconcileIgnoresOtherUsages | src/Qwiq.Core.Rest/WorkItemStore.cs:145 | records of any other usage produce no link type and no end |
| LinkTypeProperties.ReconcileWithoutLinks | src/Qwiq.Core.Rest/WorkItemStore.cs:142-211 | input without work-item links, the empty input included, gives an empty collection |
| LinkTypeProperties.ReconcileEntry | src/Qwiq.Core.Rest/WorkItemStore.cs:158-209 | each entry is what its group makes, where the group is all work-item links whose base name equals the entry's name ignoring case |
| LinkTypeProperties.ReconcileKeys | src/Qwiq.Core.Rest/WorkItemStore.cs:155-211 | one entry per key of d2, in d2's insertion order, each named so that it folds to its key |
| LinkTypeProperties.ReconcileNamesDistinct | src/Qwiq.Core.Rest/WorkItemStore.cs:143-155 | no two entries have names equal ignoring case |
| LinkTypeProperties.ReconcileCoversEveryLink | src/Qwiq.Core.Rest/WorkItemStore.cs:145-155 | every work-item link's base name has an entry |
| LinkTypeProperties.ReconcileEntriesFromLinks | src/Qwiq.Core.Rest/WorkItemStore.cs:145-155 | every entry comes from some work-item link |
| LinkTypeProperties.ReconcileNamesFirstSpelling | src/Qwiq.Core.Rest/WorkItemStore.cs:155 | the entry of a base name carries the spelling of its first work-item link |
| LinkTypeProperties.ReconcileFlags | src/Qwiq.Core.Rest/WorkItemStore.cs:163-164 | IsDirectional iff every record of the group is directional, and IsActive iff every one is enabled |
| LinkTypeProperties.GroupFailure | src/Qwiq.Core.Rest/WorkItemStore.cs:166-177 | a group fails exactly when it is not a lone non-directional record and has no single "Forward" record, or is directional without a single "Reverse" record; several matches give AmbiguousEnd, none gives ForwardEndMissing or ReverseEndMissing |
| LinkTypeProperties.DirectionalEnds | src/Qwiq.Core.Rest/WorkItemStore.cs:168-176 | a directional type's ends are the unique "Forward" record, as a forward link, and the unique "Reverse" record, as a reverse link |
| LinkTypeProperties.ForwardEndOfGroup | src/Qwiq.Core.Rest/WorkItemStore.cs:166-170 | in every group other than a lone non-directional record, directional or not, exactly one record ends in "Forward" and the forward end (the shared end, when not directional) carries its name |
| LinkTypeProperties.NonDirectionalEnds | src/Qwiq.Core.Rest/WorkItemStore.cs:166-177 | a lone non-directional record always succeeds: it gives one end serving both sides, a forward link, renamed with "-Forward" only when its name lacks the suffix |
| LinkTypeProperties.CoreNamesDistinct | src/Qwiq.Core.Rest/WorkItemStore.cs:184-204 | the three system names differ even ignoring case, so at most one branch applies |
| LinkTypeProperties.HierarchyIds | src/Qwiq.Core.Rest/WorkItemStore.cs:184-207 | Hierarchy gets -Child forward and -Parent in reverse; with one shared end, -Parent on both |
| LinkTypeProperties.RelatedIds | src/Qwiq.Core.Rest/WorkItemStore.cs:192-207 | Related gets -Related on both ends |
| LinkTypeProperties.DependencyIds | src/Qwiq.Core.Rest/WorkItemStore.cs:198-207 | Dependency gets -Successor forward and -Predecessor in reverse; with one shared end, -Predecessor on both |
| LinkTypeProperties.CustomTypeIdsUnset | src/Qwiq.Core.Rest/WorkItemStore.cs:180 | a type outside the system set keeps the unset id 0 on both ends |
| LinkTypeScenarios.PairGrouping | src/Qwiq.Core.Rest/WorkItemStore.cs:145-156 | a "base-Forward"/"base-Reverse" pair falls into one group named base |
| LinkTypeScenarios.PairGroup | src/Qwiq.Core.Rest/WorkItemStore.cs:163-177 | that group becomes a directional, active type whose ends are the two records |
| LinkTypeScenarios.SingleGroupReconciles | src/Qwiq.Core.Rest/WorkItemStore.cs:158-211 | input whose first loop yields one group gives the one link type that group makes |
| LinkTypeScenarios.PairReconciles | src/Qwiq.Core.Rest/WorkItemStore.cs:139-212 | a pair with a non-blank base reconciles to exactly one link type |
| LinkTypeScenarios.DependencyIsWellKnown | src/Qwiq.Core.Rest/WorkItemStore.cs:180-204 | the Dependency name selects the successor and predecessor ids |
| LinkTypeScenarios.RelatedIsWellKnown | src/Qwiq.Core.Rest/WorkItemStore.cs:180-197 | the Related name selects the related id for both ends |
| LinkTypeScenarios.PatchedDependency | src/Qwiq.Core.Rest/WorkItemStore.cs:198-207 | patching a directional Dependency type stores -Successor forward and -Predecessor in reverse |
| LinkTypeScenarios.DependencyPair | src/Qwiq.Core.Rest/WorkItemStore.cs:139-212 | the two Dependency records give one directional, active Dependency type with ends -Successor and -Predecessor |
| LinkTypeScenarios.LoneRelatedGrouping | src/Qwiq.Core.Rest/WorkItemStore.cs:145-155 | a lone Related record forms a group named Related |
| LinkTypeScenarios.LoneGroup | src/Qwiq.Core.Rest/WorkItemStore.cs:166-177 | a lone non-directional record without the suffix becomes one shared end renamed with "-Forward" |
| LinkTypeScenarios.PatchedRelated | src/Qwiq.Core.Rest/WorkItemStore.cs:192-207 | patching a non-directional Related type stores -Related on its shared end |
| LinkTypeScenarios.LoneRelated | src/Qwiq.Core.Rest/WorkItemStore.cs:139-212 | a lone non-directional Related record gives a non-directional, active Related type with one end "…Related-Forward" carrying -Related |
| RestLinkTypes.WorkItemLinkTypeEnd.constructor | src/Qwiq.Core.Rest/WorkItemStore.cs:172-176 | an end made from a record takes its name and starts as a reverse link with no id and no owner |
| RestLinkTypes.WorkItemLinkType.constructor | src/Qwiq.Core.Rest/WorkItemStore.cs:155 | a link type is created with its name and no ends |
| RestLinkTypes.WorkItemLinkType.SetForwardEnd | src/Qwiq.Core.Rest/WorkItemStore.cs:172 | sets the forward end and changes nothing else |
| RestLinkTypes.WorkItemLinkType.SetReverseEnd | src/Qwiq.Core.Rest/WorkItemStore.cs:173-177 | sets the reverse end and changes nothing else |
| RestLinkTypes.AssignWellKnownIds | src/Qwiq.Core.Rest/WorkItemStore.cs:180-208 | the if-chain and the two assignments through possibly shared ends leave the type completed, with exactly the ids `LinkTypeReconciliation.PatchIds` gives |
| RestLinkTypes.CompleteLinkType | src/Qwiq.Core.Rest/WorkItemStore.cs:160-208 | one pass completes the type in place, with new ends, exactly as `LinkTypeReconciliation.ReconcileGroup` says, or raises the same exception |
| RestLinkTypes.GroupByBaseName | src/Qwiq.Core.Rest/WorkItemStore.cs:142-156 | the first loop fills d and keeps d2's order exactly as `LinkTypeReconciliation.Build`, with one new, distinct object per key, named with the first spelling |
| RestLinkTypes.CompleteAll | src/Qwiq.Core.Rest/WorkItemStore.cs:158-209 | the second loop completes every object of d2 in order as `LinkTypeReconciliation.ReconcileGroup` says, or raises the first group's exception |
| RestLinkTypes.GetLinks | src/Qwiq.Core.Rest/WorkItemStore.cs:139-212 | the returned objects are new, distinct and completed, and their values are `LinkTypeReconciliation.Reconcile`'s collection, in order; it raises exactly when `Reconcile` does, with the same exception |
| RestWorkItemStore.NewStore | src/Qwiq.Core.Rest/WorkItemStore.cs:37-52 | construction succeeds iff all three factories are non-null and the page size lies in [minimum, maximum]; nulls are reported in parameter order, before the page size |
| RestWorkItemStore.NewStoreFromCollection | src/Qwiq.Core.Rest/WorkItemStore.cs:29-35 | the derived client factory is never null, so this constructor never reports wisFactory |
| RestWorkItemStore.DefaultPageSizeAccepted | src/Qwiq.Core.Rest/WorkItemStore.cs:32-52 | the default page size, the maximum batch size, passes the range check whenever the range is non-empty |
| RestWorkItemStore.Query | src/Qwiq.Core.Rest/WorkItemStore.cs:114-123 | a null id list raises ArgumentNullException("ids"); an empty list, and only that, gives the empty collection; any other list is run as a query over a copy of exactly those ids |
| RestWorkItemStore.QueryUsesFactoryOnlyForIds | src/Qwiq.Core.Rest/WorkItemStore.cs:117-121 | the query factory is used exactly when the id list is present and non-empty |
| WorkItemFields.FieldDictionary.constructor | src/Qwiq.Core/WorkItemCore.cs:17 | a new dictionary is empty and uses the given comparer |
| WorkItemFields.FieldDictionary.TryGetValue | src/Qwiq.Core/WorkItemCore.cs:59 | found iff some stored key equals the name under the comparer, with that key's value, and null otherwise |
| WorkItemFields.FieldDictionary.Put | src/Qwiq.Core/WorkItemCore.cs:64 | the name's key now maps to the value and every other key is unchanged |
| WorkItemFields.WorkItemCore.constructor | src/Qwiq.Core/WorkItemCore.cs:15-18 | a null dictionary gives a new, empty, case-insensitive store; any other dictionary is shared, not copied |
| WorkItemFields.WorkItemCore.Empty | src/Qwiq.Core/WorkItemCore.cs:10-13 | the parameterless constructor gives a new, empty, case-insensitive store |
| WorkItemFields.WorkItemCore.GetValue | src/Qwiq.Core/WorkItemCore.cs:57-60 | the stored value, or null for a name never set |
| WorkItemFields.WorkItemCore.SetValue | src/Qwiq.Core/WorkItemCore.cs:62-65 | afterwards every name equal to the given one under the comparer reads the value, and every other name reads what it read before |
| WorkItemFields.WorkItemCore.GetItem | src/Qwiq.Core/WorkItemCore.cs:39-44 | a null name raises ArgumentNullException("name"); any other name reads its stored value or null |
| WorkItemFields.WorkItemCore.SetItem | src/Qwiq.Core/WorkItemCore.cs:45-49 | a null name raises and leaves the store unchanged; otherwise set-then-get returns the value for every spelling equal ignoring case (default store), other fields are unchanged, and a second set overwrites the first |
| WorkItemFields.WorkItemCore.GetCurrentFieldValue | src/Qwiq.Core/WorkItemCore.cs:82-86 | a null definition raises ArgumentNullException("fieldDefinition"); otherwise it reads the definition's reference name |
| WorkItemFields.WorkItemCore.SetFieldValue | src/Qwiq.Core/WorkItemCore.cs:88-92 | a null definition raises and changes nothing; otherwise it sets the definition's reference name as SetValue does |

## Left out

- Fetching the relation types (`GetRelationTypesAsync`) is left out: the fetched records are the input of `GetLinks`.
- The lazy, cached and thread-safe construction of the link types, projects and field definitions is left out. It concerns caching and concurrency, not the result. `Dispose` and the HTTP clients are left out for the same reason.
- `Query(string)`, `QueryLinks`, `Query(int id)` and the identity and time zone properties are left out: each calls into the query factory or the server, whose code is not part of this model.
- RestWorkItemStore.Query: the created query's result is abstract. The model returns the query that would be run (`RunQuery`), not the work items.
- Relation type records always carry their `usage`, `directional` and `enabled` attributes and a non-null name. A missing attribute (KeyNotFoundException) or a null name (ArgumentNullException from `Regex.Match` at line 147) is not modelled.
- The source of `WorkItemLinkTypeEnd`, `WorkItemLinkType` and `WorkItemLinkTypeCollection` is not shown. The constructor of the end, `SetForwardEnd` and `SetReverseEnd` are modelled by their evident effect. The collection is the sequence of link type objects in d2's order.
- The source of `CoreLinkTypeReferenceNames` is not shown. The model assumes it holds exactly three names, `Hierarchy` = "System.LinkTypes.Hierarchy", `Related` = "System.LinkTypes.Related" and `Dependency` = "System.LinkTypes.Dependency". `CoreNamesDistinct`, the id lemmas and the scenarios rely on these values.
- The source of `CoreLinkTypes` and of the query's batch-size bounds (`Rest.Query`) is not shown, so their numeric values are parameters of the model (`CoreLinkTypes`, `BatchSizes`).
- RestLinkTypes.GetLinks: the rename at line 170 changes the raw record in place. In the model, records are values, so the rename shows only in the forward end's name, the one place it is read.
- RestLinkTypes.AssignWellKnownIds: ids are unbounded integers. The wrap-around of `-int.MinValue` is not modelled.
- DotNetStrings.Fold: it upper-cases the ASCII letters only. OrdinalIgnoreCase also folds other letters, so non-ASCII names that differ only in case are treated as distinct.
- DotNetStrings.EndsWith: it is ordinal and case-sensitive. The code calls the culture-sensitive `EndsWith(string)`, which agrees with it on the ASCII suffixes "Forward" and "Reverse" but not for every character.
- WorkItemFields.FieldDictionary: the key spelling that .NET keeps (the first one inserted) is not stored. Only the comparison key is stored, because no member of WorkItemCore enumerates the keys.
- WorkItemFields.WorkItemCore.GetValue: a caller-supplied dictionary is modelled as a .NET `Dictionary` with the ordinal or the OrdinalIgnoreCase comparer. Any other `IDictionary` implementation, or another comparer, is not modelled.
- `GetValue<T>` with `TypeParser`, `Id`, `Rev`, `Url`, and `Equals`/`GetHashCode` are left out. They delegate to `TypeParser` and `NullableIdentifiableComparer`, which are not part of this model.
- The `_fields != null` test at line 59 is not modelled: the constructor never leaves the dictionary null, so the test is always true.
