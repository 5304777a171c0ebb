/**
 * The bundle factory of the STU3 server: it owns a Bundle (created on first
 * use or handed in by the caller) and the server base, and fills the bundle
 * with entries, links, id, type and total.  Line numbers in this module
 * refer to Dstu3BundleFactory.java.
 */
module Dstu3BundleFactory {
  import opened FhirTypes
  import opened ReferenceClosure
  import opened EntryPopulation
  import opened RootProperties

  /** The ids of the top-level results that are not empty (lines 77-81). */
  method SeedIds(results: seq<Resource>) returns (added: set<Identity>)
    ensures added == Seed(results)
    ensures forall r :: r in results && !IsEmpty(r.id) ==> r.id in added
    ensures forall x :: x in added ==> !IsEmpty(x) && exists r :: r in results && r.id == x
  {
    added := {};
    for i := 0 to |results|
      invariant added == Seed(results[..i])
    {
      assert results[..i + 1][..i] == results[..i];
      if !IsEmpty(results[i].id) {
        added := added + {results[i].id};
      }
    }
    assert results[..|results|] == results;
  }

  /** The ids of a resource's contained resources that are not blank (lines 85-93). */
  method CollectContainedIds(r: Resource) returns (ids: set<Identity>)
    ensures ids == ContainedIds(r.contained)
    ensures forall c :: c in ids <==> c in r.contained && !IsEmpty(c)
  {
    ids := {};
    for i := 0 to |r.contained|
      invariant ids == ContainedIds(r.contained[..i])
      invariant forall c :: c in ids <==> c in r.contained[..i] && !IsEmpty(c)
    {
      assert r.contained[..i + 1] == r.contained[..i] + [r.contained[i]];
      if !IsEmpty(r.contained[i]) {
        ids := ids + {r.contained[i]};
      }
    }
    assert r.contained[..|r.contained|] == r.contained;
  }

  /**
   * One pass of the do-while (lines 97-126): every reference of the frontier
   * in order, skipping those the rule rejects, the unresolved ones, targets
   * without an id part and contained ids, and adding each new target.
   */
  method RunPass(scope: Scope, references: seq<RefInfo>, added0: set<Identity>)
    returns (added: set<Identity>, addedThisPass: seq<Resource>)
    ensures (added, addedThisPass) == Pass(scope, references, added0, [])
    ensures Fresh(scope.heap, added0, addedThisPass, added)
  {
    added, addedThisPass := added0, [];
    for j := 0 to |references|
      invariant Pass(scope, references[j..], added, addedThisPass) == Pass(scope, references, added0, [])
    {
      assert references[j..][1..] == references[j + 1..];
      var nextRefInfo := references[j];
      if scope.rule.Some? && !scope.rule.value(nextRefInfo, scope.includes) {
        continue;
      }
      if nextRefInfo.target.Some? && nextRefInfo.target.value < |scope.heap| {
        var nextRes := scope.heap[nextRefInfo.target.value];
        if HasIdPart(nextRes.id) {
          if nextRes.id in scope.contained {
            continue;
          }
          var id := nextRes.id;
          if !HasResourceType(id) {
            id := WithResourceType(id, nextRes.typeName);
          }
          if id !in added {
            added := added + {id};
            addedThisPass := addedThisPass + [nextRes];
          }
        }
      }
    }
    var r := Pass(scope, references, added0, []);
    assert r.1[0..] == r.1;
  }

  /** The references of the resources one pass added, in order (lines 131-136). */
  method CollectReferences(addedThisPass: seq<Resource>) returns (references: seq<RefInfo>)
    ensures references == RefsOf(addedThisPass)
    ensures forall ref :: ref in references <==> exists x :: x in addedThisPass && ref in x.refs
  {
    references := [];
    for i := 0 to |addedThisPass|
      invariant references == RefsOf(addedThisPass[..i])
      invariant forall ref :: ref in references <==> exists x :: x in addedThisPass[..i] && ref in x.refs
    {
      assert addedThisPass[..i + 1][..i] == addedThisPass[..i];
      assert addedThisPass[..i + 1] == addedThisPass[..i] + [addedThisPass[i]];
      references := references + addedThisPass[i].refs;
    }
    assert addedThisPass[..|addedThisPass|] == addedThisPass;
  }

  lemma AppendAssoc<T>(x: seq<T>, y: seq<T>, z: seq<T>)
    ensures (x + y) + z == x + (y + z)
  {
  }

  /**
   * The do-while of lines 96-137 for one top-level result: passes until a
   * pass adds nothing with references, appending each pass's resources to
   * `included0`.
   */
  method IncludeClosure(scope: Scope, references0: seq<RefInfo>, added0: set<Identity>, included0: seq<Resource>)
    returns (added: set<Identity>, included: seq<Resource>)
    ensures added == Closure(scope, references0, added0).0
    ensures included == included0 + Closure(scope, references0, added0).1
  {
    added, included := added0, included0;
    var references := references0;
    while true
      invariant Closure(scope, references, added).0 == Closure(scope, references0, added0).0
      invariant included + Closure(scope, references, added).1 == included0 + Closure(scope, references0, added0).1
      decreases |KeysOf(scope.heap) - added|
    {
      ghost var c0 := Closure(scope, references, added);
      ghost var before := included;
      var a1, addedThisPass := RunPass(scope, references, added);
      ClosureUnfold(scope, references, added);
      included := included + addedThisPass;
      references := CollectReferences(addedThisPass);
      if references == [] {
        added := a1;
        break;
      }
      ghost var rest := Closure(scope, references, a1);
      assert c0.1 == addedThisPass + rest.1;
      AppendAssoc(before, addedThisPass, rest.1);
      FreshShrinks(scope.heap, added, addedThisPass, a1);
      added := a1;
    }
  }

  /**
   * The factory: the server base used for full URLs (`myBase`) and the bundle
   * being filled (`myBundle`, null until first use).
   */
  class BundleFactory {
    var base: Option<string>
    var bundle: Bundle?

    constructor ()
      ensures base == None && bundle == null
    {
      base := None;
      bundle := null;
    }

    /** The bundle-level properties, empty while there is no bundle yet. */
    function CurrentRoot(): RootProps
      reads this, bundle
    {
      if bundle == null then EmptyRoot else bundle.Root()
    }

    /** The entries, none while there is no bundle yet. */
    function CurrentEntries(): seq<Entry>
      reads this, bundle
    {
      if bundle == null then [] else bundle.entries
    }

    /** ensureBundle (lines 236-240): a new, empty bundle unless there is one. */
    method EnsureBundle()
      modifies this
      ensures bundle != null && base == old(base)
      ensures old(bundle) != null ==> bundle == old(bundle)
      ensures old(bundle) == null ==> fresh(bundle)
      ensures bundle.Root() == old(CurrentRoot()) && bundle.entries == old(CurrentEntries())
    {
      if bundle == null {
        bundle := new Bundle();
      }
    }

    /**
     * initializeWithBundleResource (lines 256-259): fill the caller's bundle
     * from now on; null drops the current bundle, so that the next call
     * starts a new one.
     */
    method InitializeWithBundleResource(b: Bundle?)
      modifies this
      ensures bundle == b && base == old(base)
      ensures b != null ==> CurrentRoot() == b.Root() && CurrentEntries() == b.entries
      ensures b == null ==> CurrentRoot() == EmptyRoot && CurrentEntries() == []
    {
      bundle := b;
    }

    /** hasLink (lines 247-254): whether some link of `b` has relation `linkType`. */
    method HasLink(linkType: string, b: Bundle) returns (found: bool)
      ensures found <==> HasRelation(b.links, linkType)
    {
      for i := 0 to |b.links|
        invariant forall k :: 0 <= k < i ==> b.links[k].relation != linkType
      {
        if b.links[i].relation == linkType {
          return true;
        }
      }
      return false;
    }

    /** One of lines 206-214: a link of this relation unless one exists or the URL is blank. */
    method AddLinkUnlessPresent(b: Bundle, relation: string, url: Option<string>)
      modifies b
      ensures b.links == AddLinkIfAbsent(old(b.links), relation, url)
      ensures b.id == old(b.id) && b.lastUpdated == old(b.lastUpdated)
      ensures b.bundleType == old(b.bundleType) && b.total == old(b.total) && b.entries == old(b.entries)
    {
      var present := HasLink(relation, b);
      if !present && NotBlank(url) {
        b.links := b.links + [Link(relation, url.value)];
      }
    }

    /**
     * addTotalResultsToBundle (lines 220-234); `freshId` stands for the random
     * UUID an id-less bundle gets.
     */
    method AddTotalResultsToBundle(total: Option<int>, bundleType: Option<BundleType>, freshId: string)
      requires !IsBlank(freshId)
      modifies this, bundle
      ensures bundle != null && base == old(base)
      ensures old(bundle) != null ==> bundle == old(bundle)
      ensures old(bundle) == null ==> fresh(bundle)
      ensures bundle.Root() == WithTotalResults(old(CurrentRoot()), total, bundleType, freshId)
      ensures bundle.entries == old(CurrentEntries())
    {
      EnsureBundle();
      var b := bundle;
      if IdUnset(b.id) {
        b.id := Some(freshId);
      }
      if b.bundleType.None? && bundleType.Some? {
        b.bundleType := bundleType;
      }
      if b.total.None? && total.Some? {
        b.total := total;
      }
    }

    /**
     * addRootPropertiesToBundle (lines 188-217): remember the server base,
     * then set id and lastUpdated if unset, add each paging link whose
     * relation is absent and whose URL is given, and finish with
     * addTotalResultsToBundle.
     */
    method AddRootPropertiesToBundle(
      id: Option<string>, links: BundleLinks, total: Option<int>,
      lastUpdated: Option<string>, freshId: string)
      requires !IsBlank(freshId)
      modifies this, bundle
      ensures bundle != null && base == links.serverBase
      ensures old(bundle) != null ==> bundle == old(bundle)
      ensures old(bundle) == null ==> fresh(bundle)
      ensures bundle.Root() == WithRootProperties(old(CurrentRoot()), id, links, total, lastUpdated, freshId)
      ensures bundle.entries == old(CurrentEntries())
    {
      EnsureBundle();
      base := links.serverBase;
      SetIdDateLinks(bundle, id, links, lastUpdated);
      AddTotalResultsToBundle(total, links.bundleType, freshId);
    }

    /** Lines 199-214 on the bundle `b`: id and lastUpdated when unset, then each absent paging link. */
    method SetIdDateLinks(b: Bundle, id: Option<string>, links: BundleLinks, lastUpdated: Option<string>)
      modifies b
      ensures b.Root() == WithIdDateLinks(old(b.Root()), id, links, lastUpdated)
      ensures b.entries == old(b.entries)
    {
      if IdUnset(b.id) {
        b.id := id;
      }
      if b.lastUpdated.None? && lastUpdated.Some? {
        b.lastUpdated := lastUpdated;
      }
      AddLinkUnlessPresent(b, LINK_SELF, links.self);
      AddLinkUnlessPresent(b, LINK_NEXT, links.next);
      AddLinkUnlessPresent(b, LINK_PREVIOUS, links.prev);
    }

    /**
     * addResourcesToBundle (lines 65-186): one entry per result, in order,
     * then one entry per resource reached through the include closure, in
     * discovery order.  `serverBase` is accepted and ignored, as in the
     * source, which uses the remembered base instead.
     */
    method AddResourcesToBundle(
      results: seq<Resource>, heap: seq<Resource>, bundleType: Option<BundleType>,
      serverBase: Option<string>, rule: Option<InclusionRule>, includes: set<IncludeSpec>)
      requires FullUrlsKnown(base, bundleType, results)
      modifies this, bundle
      ensures bundle != null && base == old(base)
      ensures old(bundle) != null ==> bundle == old(bundle)
      ensures old(bundle) == null ==> fresh(bundle)
      ensures bundle.Root() == old(CurrentRoot())
      ensures bundle.entries == old(CurrentEntries()) + BundleEntries(base, bundleType, heap, rule, includes, results)
    {
      EnsureBundle();
      var b := bundle;
      ghost var entries0 := b.entries;
      var includedResources := AddTopLevelResults(b, results, bundleType, heap, rule, includes);
      AppendIncludeEntries(b, includedResources);
      AppendAssoc(entries0, TopEntries(base, bundleType, results), IncludeEntries(base, includedResources));
    }

    /**
     * The loop of lines 77-176: seed the added-set with the results' ids,
     * then for each result run its include closure and append its entry.
     * The resources the closures added come back in discovery order.
     */
    method AddTopLevelResults(
      b: Bundle, results: seq<Resource>, bundleType: Option<BundleType>, heap: seq<Resource>,
      rule: Option<InclusionRule>, includes: set<IncludeSpec>)
      returns (includedResources: seq<Resource>)
      requires FullUrlsKnown(base, bundleType, results)
      modifies b
      ensures includedResources == Included(heap, rule, includes, results)
      ensures b.entries == old(b.entries) + TopEntries(base, bundleType, results)
      ensures b.Root() == old(b.Root())
    {
      includedResources := [];
      var addedResourceIds := SeedIds(results);

      for i := 0 to |results|
        invariant b.Root() == old(b.Root())
        invariant addedResourceIds == Gather(heap, rule, includes, Seed(results), results[..i]).added
        invariant includedResources == Concat(Gather(heap, rule, includes, Seed(results), results[..i]).segments)
        invariant FullUrlsKnown(base, bundleType, results[..i])
        invariant b.entries == old(b.entries) + TopEntries(base, bundleType, results[..i])
      {
        addedResourceIds, includedResources :=
          AddTopLevelResult(b, results, i, bundleType, heap, rule, includes, old(b.entries), addedResourceIds, includedResources);
      }
      assert results[..|results|] == results;
      assert includedResources == Concat(Gather(heap, rule, includes, Seed(results), results).segments);
    }

    /**
     * One round of the loop of lines 83-176, for result `i`: its include
     * closure on the added-set so far, then its entry.
     */
    method AddTopLevelResult(
      b: Bundle, results: seq<Resource>, i: nat, bundleType: Option<BundleType>, heap: seq<Resource>,
      rule: Option<InclusionRule>, includes: set<IncludeSpec>, ghost entries0: seq<Entry>,
      added0: set<Identity>, included0: seq<Resource>)
      returns (added: set<Identity>, included: seq<Resource>)
      requires i < |results| && FullUrlsKnown(base, bundleType, results)
      requires added0 == Gather(heap, rule, includes, Seed(results), results[..i]).added
      requires included0 == Concat(Gather(heap, rule, includes, Seed(results), results[..i]).segments)
      requires FullUrlsKnown(base, bundleType, results[..i])
      requires b.entries == entries0 + TopEntries(base, bundleType, results[..i])
      modifies b
      ensures added == Gather(heap, rule, includes, Seed(results), results[..i + 1]).added
      ensures included == Concat(Gather(heap, rule, includes, Seed(results), results[..i + 1]).segments)
      ensures FullUrlsKnown(base, bundleType, results[..i + 1])
      ensures b.entries == entries0 + TopEntries(base, bundleType, results[..i + 1])
      ensures b.Root() == old(b.Root())
    {
      var next := results[i];
      var containedIds := CollectContainedIds(next);
      var scope := Scope(heap, containedIds, rule, includes);
      added, included := IncludeClosure(scope, next.refs, added0, included0);
      GatherAdvance(heap, rule, includes, Seed(results), results, i, added0, included0, added, included);
      AppendTopEntry(b, results, i, bundleType, entries0);
    }

    /** Appends the entry for the i-th top-level result after those of the earlier ones. */
    method AppendTopEntry(b: Bundle, results: seq<Resource>, i: nat, bundleType: Option<BundleType>, ghost entries0: seq<Entry>)
      requires i < |results| && FullUrlsKnown(base, bundleType, results)
      requires b.entries == entries0 + TopEntries(base, bundleType, results[..i])
      modifies b
      ensures FullUrlsKnown(base, bundleType, results[..i + 1])
      ensures b.entries == entries0 + TopEntries(base, bundleType, results[..i + 1])
      ensures b.Root() == old(b.Root())
    {
      TopEntriesStep(entries0, base, bundleType, results, i);
      b.entries := b.entries + [TopEntry(base, bundleType, results[i])];
    }

    /** Lines 181-185: one entry per included resource, marked as an include. */
    method AppendIncludeEntries(b: Bundle, includedResources: seq<Resource>)
      modifies b
      ensures b.entries == old(b.entries) + IncludeEntries(base, includedResources)
      ensures b.Root() == old(b.Root())
    {
      for k := 0 to |includedResources|
        invariant b.Root() == old(b.Root())
        invariant b.entries == old(b.entries) + IncludeEntries(base, includedResources[..k])
      {
        assert includedResources[..k + 1][..k] == includedResources[..k];
        AppendAssoc(old(b.entries), IncludeEntries(base, includedResources[..k]), [IncludeEntry(base, includedResources[k])]);
        b.entries := b.entries + [IncludeEntry(base, includedResources[k])];
      }
      assert includedResources[..|includedResources|] == includedResources;
    }

    /**
     * toListOfResources (lines 276-294): each entry's resource, or for an
     * entry without one a placeholder built from its response location.
     */
    method ToListOfResources() returns (list: seq<Resource>)
      requires bundle != null
      ensures list == Flatten(bundle.entries)
      ensures |list| <= |bundle.entries|
    {
      var es := bundle.entries;
      list := [];
      for i := 0 to |es|
        invariant list == Flatten(es[..i])
      {
        assert es[..i + 1][..i] == es[..i];
        var next := es[i];
        if next.resource.Some? {
          list := list + [next.resource.value];
        } else if next.responseLocation.Some? {
          var location := next.responseLocation.value;
          if HasResourceType(location) {
            list := list + [Placeholder(location)];
          }
        }
      }
      assert es[..|es|] == es;
      FlattenBound(es);
    }
  }
}
