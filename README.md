# The STU3 bundle factory of the HAPI FHIR server

This project models `Dstu3BundleFactory`, the class a HAPI FHIR RESTful
server uses to build the STU3 `Bundle` it returns for searches, history and
batch/transaction responses. The factory keeps two pieces of state: the
server base (`myBase`) and the bundle being filled (`myBundle`, created on
first use or handed in by the caller). It does four things:

- **Top-level entries.** One entry per result, in order. Each entry gets:
  - a full URL, without the version: an absolute id keeps its own base;
    otherwise, when the server base is not blank and the id has an id part, the id
    is qualified with the server base and the resource type; otherwise the
    entry has no full URL;
  - for a resource marked with a transaction method, the request method and,
    when a full URL was formed, the request URL;
  - for a batch or transaction *response*, when the version is not blank, the
    response status (`201 Created` for version "1", otherwise `200 OK`) and
    an ETag, both taken from the version;
  - the search mode.

  A DELETE entry carries no resource body.
- **The include closure.** The factory follows the references of every
  result and adds each referenced resource once, by id, as an `include`
  entry. It skips:
  - references the inclusion rule rejects;
  - unresolved references;
  - targets without an id part;
  - targets that are contained in the result.

  The factory repeats this round by round. Each round follows the references
  of the resources the previous round added. It stops after a round that
  yields no references.
- **Bundle-level properties.** The id, lastUpdated, the `self`/`next`/`previous`
  links, the type and the total. Each is written only while it is still
  empty, so the first caller to supply a value wins. A bundle that still has
  no id gets a random UUID.
- **Reading the bundle back.** `toListOfResources` returns each entry's
  resource. For an entry without one, it returns a placeholder of the type
  named by the response location, when the location is set and names a
  type. An entry with neither a resource nor a typed location is skipped;
  so are the DELETE entries the factory writes itself.

The Dafny modules follow that split:

- `FhirTypes` defines the values: ids, resources, entries, links and the
  `Bundle` class.
- `ReferenceClosure` specifies the include closure as functions and proves
  what it adds.
- `EntryPopulation` specifies the entries and the read-back.
- `RootProperties` specifies the bundle-level properties.
- `Dstu3BundleFactory` holds the factory. The factory is a class whose
  methods mirror the Java loops and are proved against those functions.
- `IncludeScenarios` works the closure through small object graphs.

The object graph is a sequence of resources (`heap`). A resolved reference
holds the index of its target in that sequence. The reference walker
(`newTerser().getAllResourceReferences`) becomes each resource's `refs`
field, in document order.

The added-set compares whole ids, version included: an `IIdType` compares
by its value, and that value carries the version. So two versions of one
resource are both included (`ReferenceClosure.Key`).

## Model

Source paths are relative to the repository root.

| member | source | states |
|---|---|---|
| Dstu3BundleFactory.SeedIds | hapi-fhir-structures-dstu3/src/main/java/org/hl7/fhir/dstu3/hapi/rest/server/Dstu3BundleFactory.java:77-81 | the loop yields the seed set: every result with a non-empty id has that id in the set (untyped ids stay untyped), and every id in the set is the non-empty id of some result |
| Dstu3BundleFactory.CollectContainedIds | hapi-fhir-structures-dstu3/src/main/java/org/hl7/fhir/dstu3/hapi/rest/server/Dstu3BundleFactory.java:85-93 | an id is collected if and only if it belongs to a contained resource and is not blank |
| Dstu3BundleFactory.RunPass | hapi-fhir-structures-dstu3/src/main/java/org/hl7/fhir/dstu3/hapi/rest/server/Dstu3BundleFactory.java:97-126 | the loop over the frontier, with its `continue`s, computes the pass function; what it adds is fresh: resolved targets with an id part, keys not in the old set, pairwise distinct, and the new set is the old one plus their keys |
| Dstu3BundleFactory.CollectReferences | hapi-fhir-structures-dstu3/src/main/java/org/hl7/fhir/dstu3/hapi/rest/server/Dstu3BundleFactory.java:131-136 | the next frontier is the concatenation of the added resources' references, in order; a reference is in it if and only if some added resource has it |
| Dstu3BundleFactory.IncludeClosure | hapi-fhir-structures-dstu3/src/main/java/org/hl7/fhir/dstu3/hapi/rest/server/Dstu3BundleFactory.java:96-137 | the do-while terminates (the added-set grows strictly within the finite object graph) and leaves the closure's added-set, with the closure's resources appended to the included list |
| ReferenceClosure.Key | hapi-fhir-structures-dstu3/src/main/java/org/hl7/fhir/dstu3/hapi/rest/server/Dstu3BundleFactory.java:114-121 | the key keeps the id's base, id part and version; a typed id is its own key; an untyped id is qualified with the resource's runtime type name, so untyped ids of different types stay apart |
| ReferenceClosure.Admits | hapi-fhir-structures-dstu3/src/main/java/org/hl7/fhir/dstu3/hapi/rest/server/Dstu3BundleFactory.java:100-112 | a reference is followed if and only if the rule (when there is one) accepts it, it resolves to an object of the graph, the target has an id part and the target's id is not a contained id; an unresolved reference is never followed |
| ReferenceClosure.Visit | hapi-fhir-structures-dstu3/src/main/java/org/hl7/fhir/dstu3/hapi/rest/server/Dstu3BundleFactory.java:99-125 | handling one reference keeps what was found, and appends exactly one resource, the target, if and only if the reference is admitted and the target's key is not in the added-set, adding that key; otherwise the set is unchanged |
| ReferenceClosure.RefsOf | hapi-fhir-structures-dstu3/src/main/java/org/hl7/fhir/dstu3/hapi/rest/server/Dstu3BundleFactory.java:131-136 | a reference is in the next frontier if and only if some resource of the list has it |
| ReferenceClosure.ContainedIds | hapi-fhir-structures-dstu3/src/main/java/org/hl7/fhir/dstu3/hapi/rest/server/Dstu3BundleFactory.java:85-93 | an id is in the set if and only if it is the id of a contained resource and is not empty |
| ReferenceClosure.Seed | hapi-fhir-structures-dstu3/src/main/java/org/hl7/fhir/dstu3/hapi/rest/server/Dstu3BundleFactory.java:77-81 | every result with a non-empty id has that id in the seed, and every id in the seed is the non-empty id of some result |
| ReferenceClosure.Gather | hapi-fhir-structures-dstu3/src/main/java/org/hl7/fhir/dstu3/hapi/rest/server/Dstu3BundleFactory.java:83-137 | one closure segment per top-level result, and the final added-set contains the seed |
| ReferenceClosure.Included | hapi-fhir-structures-dstu3/src/main/java/org/hl7/fhir/dstu3/hapi/rest/server/Dstu3BundleFactory.java:74-128 | every included resource is an object of the graph with an id part |
| ReferenceClosure.Pass | hapi-fhir-structures-dstu3/src/main/java/org/hl7/fhir/dstu3/hapi/rest/server/Dstu3BundleFactory.java:97-126 | one pass keeps what was found before and only appends fresh resources, none of them contained in the current result |
| ReferenceClosure.VisitStep | hapi-fhir-structures-dstu3/src/main/java/org/hl7/fhir/dstu3/hapi/rest/server/Dstu3BundleFactory.java:100-124 | handling one reference keeps the list found so far and appends at most fresh, non-contained targets |
| ReferenceClosure.Closure | hapi-fhir-structures-dstu3/src/main/java/org/hl7/fhir/dstu3/hapi/rest/server/Dstu3BundleFactory.java:96-137 | every resource the rounds add is a fresh target not added before and never one of the result's contained ids |
| ReferenceClosure.PassCovers | hapi-fhir-structures-dstu3/src/main/java/org/hl7/fhir/dstu3/hapi/rest/server/Dstu3BundleFactory.java:99-126 | after a pass, the target key of every admitted reference of the frontier is in the added-set |
| ReferenceClosure.PassProvenance | hapi-fhir-structures-dstu3/src/main/java/org/hl7/fhir/dstu3/hapi/rest/server/Dstu3BundleFactory.java:99-126 | every resource a pass adds is the target of an admitted reference of the frontier |
| ReferenceClosure.ClosureCovers | hapi-fhir-structures-dstu3/src/main/java/org/hl7/fhir/dstu3/hapi/rest/server/Dstu3BundleFactory.java:96-137 | completeness: the target of every admitted reference, whether it sits in the starting references or in a resource the closure added, has its key in the final added-set |
| ReferenceClosure.ClosureProvenance | hapi-fhir-structures-dstu3/src/main/java/org/hl7/fhir/dstu3/hapi/rest/server/Dstu3BundleFactory.java:96-137 | soundness: each resource the closure adds is the target of an admitted reference found either in the starting references or in a resource added before it |
| ReferenceClosure.GatherFresh | hapi-fhir-structures-dstu3/src/main/java/org/hl7/fhir/dstu3/hapi/rest/server/Dstu3BundleFactory.java:77-137 | across all results, the included resources are fresh with respect to the seed, pairwise distinct by key, and the final added-set is the seed plus their keys |
| ReferenceClosure.GatherSkipsContained | hapi-fhir-structures-dstu3/src/main/java/org/hl7/fhir/dstu3/hapi/rest/server/Dstu3BundleFactory.java:85-112 | nothing included for a result has an id among that result's contained ids |
| ReferenceClosure.GatherCovers | hapi-fhir-structures-dstu3/src/main/java/org/hl7/fhir/dstu3/hapi/rest/server/Dstu3BundleFactory.java:77-137 | every admitted reference of every result, or of what its closure added, has its target key in the final added-set |
| ReferenceClosure.IncludedOnce | hapi-fhir-structures-dstu3/src/main/java/org/hl7/fhir/dstu3/hapi/rest/server/Dstu3BundleFactory.java:77-128 | no resource is included twice (keys pairwise distinct); no included key is a seeded result id; an included resource with a typed id never has a top-level result's id |
| ReferenceClosure.IncludedComplete | hapi-fhir-structures-dstu3/src/main/java/org/hl7/fhir/dstu3/hapi/rest/server/Dstu3BundleFactory.java:77-137 | every admitted reference's target is either a top-level result (by id) or among the included resources |
| ReferenceClosure.RefsOfConcat | hapi-fhir-structures-dstu3/src/main/java/org/hl7/fhir/dstu3/hapi/rest/server/Dstu3BundleFactory.java:131-136 | the collected references of two lists are those of the first followed by those of the second |
| ReferenceClosure.KeysOfConcat | hapi-fhir-structures-dstu3/src/main/java/org/hl7/fhir/dstu3/hapi/rest/server/Dstu3BundleFactory.java:114-121 | the keys of a concatenation are the union of the keys |
| EntryPopulation.PopulateBundleEntryFullUrl | hapi-fhir-structures-dstu3/src/main/java/org/hl7/fhir/dstu3/hapi/rest/server/Dstu3BundleFactory.java:261-274 | an id comes back if and only if the resource has a base URL, or the server base is not blank and the id has an id part; an absolute id is returned as is, otherwise it gets the server base and the resource type; the entry's full URL is the versionless form, and nothing else of the entry changes |
| EntryPopulation.ResponseStatus | hapi-fhir-structures-dstu3/src/main/java/org/hl7/fhir/dstu3/hapi/rest/server/Dstu3BundleFactory.java:159-163 | `201 Created` if and only if the version is "1"; `200 OK` if and only if it is another non-blank version; no status if and only if the version is blank |
| EntryPopulation.TopEntry | hapi-fhir-structures-dstu3/src/main/java/org/hl7/fhir/dstu3/hapi/rest/server/Dstu3BundleFactory.java:139-175 | resource body unless DELETE; full URL exactly when one can be formed, and then the versionless URL that populateBundleEntryFullUrl sets; request method as marked; request URL present exactly when a method is marked and an id came back, and then the unqualified form of that returned id; response status and ETag only for batch/transaction responses, from the version; search mode as marked; no location |
| EntryPopulation.IncludeEntry | hapi-fhir-structures-dstu3/src/main/java/org/hl7/fhir/dstu3/hapi/rest/server/Dstu3BundleFactory.java:181-185 | body is the resource, search mode `include`; full URL exactly when one can be formed, and then the versionless URL that populateBundleEntryFullUrl sets (same id part, no version); no request or response part |
| EntryPopulation.TopEntries | hapi-fhir-structures-dstu3/src/main/java/org/hl7/fhir/dstu3/hapi/rest/server/Dstu3BundleFactory.java:83-176 | one entry per top-level result |
| EntryPopulation.IncludeEntries | hapi-fhir-structures-dstu3/src/main/java/org/hl7/fhir/dstu3/hapi/rest/server/Dstu3BundleFactory.java:181-185 | one entry per included resource |
| EntryPopulation.BundleEntries | hapi-fhir-structures-dstu3/src/main/java/org/hl7/fhir/dstu3/hapi/rest/server/Dstu3BundleFactory.java:65-186 | as many entries as results plus included resources |
| EntryPopulation.Flatten | hapi-fhir-structures-dstu3/src/main/java/org/hl7/fhir/dstu3/hapi/rest/server/Dstu3BundleFactory.java:276-294 | the read-back list is never longer than the entries |
| EntryPopulation.Kept | hapi-fhir-structures-dstu3/src/main/java/org/hl7/fhir/dstu3/hapi/rest/server/Dstu3BundleFactory.java:139-152 | a resource is kept if and only if it is a result not marked DELETE, and the kept list is no longer than the results |
| EntryPopulation.TopEntriesAt | hapi-fhir-structures-dstu3/src/main/java/org/hl7/fhir/dstu3/hapi/rest/server/Dstu3BundleFactory.java:83-176 | one entry per result, the k-th being the entry of the k-th result |
| EntryPopulation.IncludeEntriesAt | hapi-fhir-structures-dstu3/src/main/java/org/hl7/fhir/dstu3/hapi/rest/server/Dstu3BundleFactory.java:181-185 | one include entry per included resource, in discovery order |
| EntryPopulation.EntriesLayout | hapi-fhir-structures-dstu3/src/main/java/org/hl7/fhir/dstu3/hapi/rest/server/Dstu3BundleFactory.java:83-185 | the top-level entries come first, one per result, then the include entries, one per included resource |
| EntryPopulation.BundleLayout | hapi-fhir-structures-dstu3/src/main/java/org/hl7/fhir/dstu3/hapi/rest/server/Dstu3BundleFactory.java:65-186 | the appended entries number results plus includes; entry k < n is result k's entry; entry n+k is the include entry of the k-th included resource; every entry past the results is marked `include` |
| EntryPopulation.NothingIncludedWithoutReferences | hapi-fhir-structures-dstu3/src/main/java/org/hl7/fhir/dstu3/hapi/rest/server/Dstu3BundleFactory.java:105-107 | when no result has a resolved reference, nothing is included |
| EntryPopulation.UnresolvedPassAddsNothing | hapi-fhir-structures-dstu3/src/main/java/org/hl7/fhir/dstu3/hapi/rest/server/Dstu3BundleFactory.java:105-107 | a pass over unresolved references adds nothing and leaves the set unchanged |
| EntryPopulation.Placeholder | hapi-fhir-structures-dstu3/src/main/java/org/hl7/fhir/dstu3/hapi/rest/server/Dstu3BundleFactory.java:283-288 | the new instance has the location's type and the location as its id, and nothing else: no contained resources, no references, no transaction method, no search mode |
| EntryPopulation.Emitted | hapi-fhir-structures-dstu3/src/main/java/org/hl7/fhir/dstu3/hapi/rest/server/Dstu3BundleFactory.java:280-291 | an entry yields its resource when it has one, otherwise a placeholder exactly when the location is set and has a type, otherwise nothing |
| EntryPopulation.FlattenBound | hapi-fhir-structures-dstu3/src/main/java/org/hl7/fhir/dstu3/hapi/rest/server/Dstu3BundleFactory.java:276-294 | the list is never longer than the entries, and is as long exactly when every entry yields something |
| EntryPopulation.FlattenConcat | hapi-fhir-structures-dstu3/src/main/java/org/hl7/fhir/dstu3/hapi/rest/server/Dstu3BundleFactory.java:279-292 | reading back two runs of entries gives the first's resources followed by the second's |
| EntryPopulation.FlattenTopEntries | hapi-fhir-structures-dstu3/src/main/java/org/hl7/fhir/dstu3/hapi/rest/server/Dstu3BundleFactory.java:139-152 | reading back the top-level entries gives the results minus the DELETEs, in order |
| EntryPopulation.FlattenIncludeEntries | hapi-fhir-structures-dstu3/src/main/java/org/hl7/fhir/dstu3/hapi/rest/server/Dstu3BundleFactory.java:181-185 | reading back the include entries gives the included resources, in order |
| EntryPopulation.FlattenBundleEntries | hapi-fhir-structures-dstu3/src/main/java/org/hl7/fhir/dstu3/hapi/rest/server/Dstu3BundleFactory.java:65-186 | round trip: what addResourcesToBundle appends reads back as the non-DELETE results followed by the included resources |
| RootProperties.AddLinkIfAbsent | hapi-fhir-structures-dstu3/src/main/java/org/hl7/fhir/dstu3/hapi/rest/server/Dstu3BundleFactory.java:206-214 | no change when the relation is present; the relation is present afterwards if and only if it was or the URL is not blank; the old links are kept as a prefix; at most one link is appended, with this relation and URL; other relations are unaffected |
| RootProperties.WithPagingLinks | hapi-fhir-structures-dstu3/src/main/java/org/hl7/fhir/dstu3/hapi/rest/server/Dstu3BundleFactory.java:206-214 | old links kept as a prefix; each of self, next and previous is present afterwards if and only if it was or its URL is not blank; at most three links are appended; each appended link is a self, next or previous link carrying the URL supplied for that relation, and its relation was absent from the old links |
| RootProperties.WithIdDateLinks | hapi-fhir-structures-dstu3/src/main/java/org/hl7/fhir/dstu3/hapi/rest/server/Dstu3BundleFactory.java:198-214 | id and lastUpdated are set only when empty; links follow the paging rules; type and total untouched |
| RootProperties.WithTotalResults | hapi-fhir-structures-dstu3/src/main/java/org/hl7/fhir/dstu3/hapi/rest/server/Dstu3BundleFactory.java:220-234 | afterwards the id is never empty: an existing id is kept, and an empty one is replaced by the fresh id; type and total are kept if set, otherwise they take the supplied values; links and lastUpdated are unchanged |
| RootProperties.WithRootProperties | hapi-fhir-structures-dstu3/src/main/java/org/hl7/fhir/dstu3/hapi/rest/server/Dstu3BundleFactory.java:188-217 | first writer wins for id, lastUpdated, type and total; the links follow the paging rules; the id is never empty afterwards |
| RootProperties.AddLinkKeepsUnique | hapi-fhir-structures-dstu3/src/main/java/org/hl7/fhir/dstu3/hapi/rest/server/Dstu3BundleFactory.java:206-214 | adding a link keeps every relation that appeared at most once appearing at most once |
| RootProperties.RootPropertiesKeepLinksUnique | hapi-fhir-structures-dstu3/src/main/java/org/hl7/fhir/dstu3/hapi/rest/server/Dstu3BundleFactory.java:188-217 | addRootPropertiesToBundle never creates a second link of a relation |
| RootProperties.RootPropertiesIdempotent | hapi-fhir-structures-dstu3/src/main/java/org/hl7/fhir/dstu3/hapi/rest/server/Dstu3BundleFactory.java:188-234 | a second call with the same arguments changes nothing, whatever UUID it would draw |
| RootProperties.TotalsFirstWriterWins | hapi-fhir-structures-dstu3/src/main/java/org/hl7/fhir/dstu3/hapi/rest/server/Dstu3BundleFactory.java:220-234 | over any non-empty series of addTotalResultsToBundle calls, total and type end up as the bundle's own or the first supplied, and the id as the bundle's own or the first UUID |
| Dstu3BundleFactory.BundleFactory.constructor | hapi-fhir-structures-dstu3/src/main/java/org/hl7/fhir/dstu3/hapi/rest/server/Dstu3BundleFactory.java:57-63 | a new factory has no base and no bundle |
| Dstu3BundleFactory.BundleFactory.EnsureBundle | hapi-fhir-structures-dstu3/src/main/java/org/hl7/fhir/dstu3/hapi/rest/server/Dstu3BundleFactory.java:236-240 | afterwards there is a bundle: the same one if there was one, otherwise a fresh empty one; properties and entries as before |
| Dstu3BundleFactory.BundleFactory.InitializeWithBundleResource | hapi-fhir-structures-dstu3/src/main/java/org/hl7/fhir/dstu3/hapi/rest/server/Dstu3BundleFactory.java:256-259 | the factory works on the caller's bundle object itself (aliasing), so its properties and entries are the caller's; a null argument drops the bundle, which reads as empty until the next call makes a new one; base unchanged |
| Dstu3BundleFactory.BundleFactory.HasLink | hapi-fhir-structures-dstu3/src/main/java/org/hl7/fhir/dstu3/hapi/rest/server/Dstu3BundleFactory.java:247-254 | true if and only if some link of the bundle has the relation |
| Dstu3BundleFactory.BundleFactory.AddLinkUnlessPresent | hapi-fhir-structures-dstu3/src/main/java/org/hl7/fhir/dstu3/hapi/rest/server/Dstu3BundleFactory.java:206-214 | the links become the link rule applied to the old links; every other field is unchanged |
| Dstu3BundleFactory.BundleFactory.SetIdDateLinks | hapi-fhir-structures-dstu3/src/main/java/org/hl7/fhir/dstu3/hapi/rest/server/Dstu3BundleFactory.java:198-214 | the bundle-level properties become the id/date/link rules applied to the old ones; entries unchanged |
| Dstu3BundleFactory.BundleFactory.AddTotalResultsToBundle | hapi-fhir-structures-dstu3/src/main/java/org/hl7/fhir/dstu3/hapi/rest/server/Dstu3BundleFactory.java:219-234 | ensures a bundle, then its properties become the totals rule applied to the old ones; entries and base unchanged |
| Dstu3BundleFactory.BundleFactory.AddRootPropertiesToBundle | hapi-fhir-structures-dstu3/src/main/java/org/hl7/fhir/dstu3/hapi/rest/server/Dstu3BundleFactory.java:188-217 | ensures a bundle, remembers the server base, and its properties become the root-properties rule applied to the old ones; entries unchanged |
| Dstu3BundleFactory.BundleFactory.AddResourcesToBundle | hapi-fhir-structures-dstu3/src/main/java/org/hl7/fhir/dstu3/hapi/rest/server/Dstu3BundleFactory.java:65-186 | ensures a bundle and appends exactly the top-level entries then the include entries (layout and read-back proved by BundleLayout and FlattenBundleEntries); properties and base unchanged |
| Dstu3BundleFactory.BundleFactory.AddTopLevelResults | hapi-fhir-structures-dstu3/src/main/java/org/hl7/fhir/dstu3/hapi/rest/server/Dstu3BundleFactory.java:74-176 | the loop leaves the included resources of all results, in discovery order, and appends one entry per result |
| Dstu3BundleFactory.BundleFactory.AddTopLevelResult | hapi-fhir-structures-dstu3/src/main/java/org/hl7/fhir/dstu3/hapi/rest/server/Dstu3BundleFactory.java:83-176 | one round of the loop advances the added-set, the included list and the entries from results 0..i-1 to results 0..i |
| Dstu3BundleFactory.BundleFactory.AppendTopEntry | hapi-fhir-structures-dstu3/src/main/java/org/hl7/fhir/dstu3/hapi/rest/server/Dstu3BundleFactory.java:139-176 | appends result i's entry, so the entries of results 0..i-1 become those of results 0..i; properties unchanged |
| Dstu3BundleFactory.BundleFactory.AppendIncludeEntries | hapi-fhir-structures-dstu3/src/main/java/org/hl7/fhir/dstu3/hapi/rest/server/Dstu3BundleFactory.java:181-185 | appends one include entry per included resource, in order; properties unchanged |
| Dstu3BundleFactory.BundleFactory.ToListOfResources | hapi-fhir-structures-dstu3/src/main/java/org/hl7/fhir/dstu3/hapi/rest/server/Dstu3BundleFactory.java:276-294 | the list is what each entry yields (resource or placeholder), in order, and no longer than the entries |
| IncludeScenarios.ChainFollowed | hapi-fhir-structures-dstu3/src/main/java/org/hl7/fhir/dstu3/hapi/rest/server/Dstu3BundleFactory.java:96-137 | a chain a → b → c with no rule includes b, then c (the second round follows the first round's references) |
| IncludeScenarios.ChainClosure | hapi-fhir-structures-dstu3/src/main/java/org/hl7/fhir/dstu3/hapi/rest/server/Dstu3BundleFactory.java:96-137 | the two rounds of the chain yield b, then c |
| IncludeScenarios.ChainFirstRound | hapi-fhir-structures-dstu3/src/main/java/org/hl7/fhir/dstu3/hapi/rest/server/Dstu3BundleFactory.java:96-137 | the first round adds b and the do-while continues with b's references |
| IncludeScenarios.ChainLastRound | hapi-fhir-structures-dstu3/src/main/java/org/hl7/fhir/dstu3/hapi/rest/server/Dstu3BundleFactory.java:96-137 | the round that adds c, which has no references, ends the do-while |
| IncludeScenarios.ContainedSkipped | hapi-fhir-structures-dstu3/src/main/java/org/hl7/fhir/dstu3/hapi/rest/server/Dstu3BundleFactory.java:108-112 | a reference to a resource whose id is one of the result's contained ids is not followed |
| IncludeScenarios.UntypedResultIncludedAgain | hapi-fhir-structures-dstu3/src/main/java/org/hl7/fhir/dstu3/hapi/rest/server/Dstu3BundleFactory.java:77-121 | a result whose id lacks its type and refers to itself comes back as an include of itself: the seed keeps the id untyped, while the check compares the typed id |
| IncludeScenarios.TypedResultNotIncludedAgain | hapi-fhir-structures-dstu3/src/main/java/org/hl7/fhir/dstu3/hapi/rest/server/Dstu3BundleFactory.java:77-121 | with a typed id the same self-reference includes nothing |

## Left out

- Id parsing and printing. `IdType` strings become a record of server base,
  resource type, id part and version. Equality of ids is equality of the
  records, which is what the code's `IIdType` comparison amounts to. This
  includes the version, so the "already added" check is version-sensitive.
- `FhirContext` is not modelled. The resource type name is a field of each
  resource. The reference walker is each resource's `refs` list. A resolved
  reference holds the index of its target in the object graph.
- The inclusion rule `BundleInclusionRule.shouldIncludeReferencedResource` is
  a predicate passed in as a parameter. Its own logic is not part of this
  model.
- The random UUID of an id-less bundle is the `freshId` parameter. The model
  requires it not to be blank.
- The ETag's text format (`RestfulServerUtils.createEtag`) is not modelled.
  The entry records the version it is made from.
- Date parsing of lastUpdated is not modelled. The value is kept as an
  opaque string.
- The `theServerBase` argument of addResourcesToBundle is accepted and
  ignored, as the code does. The factory uses the base remembered by
  addRootPropertiesToBundle.
- Dstu3BundleFactory.BundleFactory.AddResourcesToBundle: requires that, for a
  batch or transaction response, every result can get a full URL. Otherwise
  line 159 dereferences a null id and Java throws. That failure is not
  modelled.
- Dstu3BundleFactory.BundleFactory.AddTopLevelResults: each entry is built
  as a value and then appended. The code appends an empty entry first and
  fills it in. No other reader sees it in between, so the end state is the
  same.
- Dstu3BundleFactory.BundleFactory.ToListOfResources: requires a bundle. On
  a factory that has none, Java throws a null-pointer exception, and that
  failure is not modelled. The placeholder for a location-only entry
  carries only the type and the id, not the registry's freshly constructed
  instance.
- `getResourceBundle` is a plain getter and is not modelled. The model
  exposes the bundle as a field.
- A top-level result whose id lacks a resource type is seeded untyped.
  Included ids are compared typed, so such a result can be included again
  when something refers to it. The model keeps this behaviour and shows it
  with `IncludeScenarios.UntypedResultIncludedAgain`. Ids of server results
  normally carry their type, so this is not listed as a defect.
- A resolved reference whose index lies outside the object graph stands for
  no object and is treated like an unresolved one (`ReferenceClosure.Admits`).
- Concurrency and the HAPI interceptor framework are not modelled.
  `IServerInterceptor.java` and `ExtractOperationConfig.java` are not part
  of this model.
