/**
 * The entries addResourcesToBundle appends (full URL, request, response and
 * search parts) and the way toListOfResources reads them back.  Line
 * numbers in this module refer to Dstu3BundleFactory.java.
 */
module EntryPopulation {
  import opened FhirTypes
  import opened ReferenceClosure

  const CREATED := "201 Created"
  const OK := "200 OK"

  /** The condition under which populateBundleEntryFullUrl sets a full URL. */
  predicate HasFullUrl(base: Option<string>, r: Resource) {
    HasBaseUrl(r.id) || (NotBlank(base) && HasIdPart(r.id))
  }

  /**
   * populateBundleEntryFullUrl (lines 261-274): the entry with its full URL
   * set, and the identity the caller goes on to use (None for Java's null).
   */
  function PopulateBundleEntryFullUrl(base: Option<string>, r: Resource, e: Entry): (out: (Entry, Option<Identity>))
    ensures out.1.Some? <==> HasFullUrl(base, r)
    ensures HasBaseUrl(r.id) ==> out.1 == Some(r.id)
    ensures !HasBaseUrl(r.id) && out.1.Some? ==>
      out.1.value.base == base && out.1.value.resourceType == Some(r.typeName)
    ensures out.1.Some? ==>
      HasBaseUrl(out.1.value) && out.1.value.idPart == r.id.idPart && out.1.value.version == r.id.version
    ensures out.0 == e.(fullUrl := if out.1.Some? then Some(Versionless(out.1.value)) else e.fullUrl)
  {
    if HasBaseUrl(r.id) then
      (e.(fullUrl := Some(Versionless(r.id))), Some(r.id))
    else if NotBlank(base) && HasIdPart(r.id) then
      var id := WithServerBase(r.id, base.value, r.typeName);
      (e.(fullUrl := Some(Versionless(id))), Some(id))
    else
      (e, None)
  }

  /** The response status of a batch or transaction response entry (lines 159-163). */
  function ResponseStatus(version: Option<string>): (status: Option<string>)
    ensures status == Some(CREATED) <==> version == Some("1")
    ensures status == Some(OK) <==> NotBlank(version) && version != Some("1")
    ensures status.None? <==> !NotBlank(version)
  {
    if version == Some("1") then
      assert !IsWhitespace(version.value[0]);
      Some(CREATED)
    else if NotBlank(version) then Some(OK)
    else None
  }

  /** The entry for a top-level resource (lines 139-175). */
  function TopEntry(base: Option<string>, bundleType: Option<BundleType>, r: Resource): (e: Entry)
    requires IsResponse(bundleType) ==> HasFullUrl(base, r)
    ensures e.resource == if r.transactionMethod == Some(DELETE) then None else Some(r)
    ensures e.fullUrl.Some? <==> HasFullUrl(base, r)
    ensures e.fullUrl.Some? ==> e.fullUrl.value.version == None && e.fullUrl.value.idPart == r.id.idPart
    ensures e.fullUrl == PopulateBundleEntryFullUrl(base, r, NewEntry).0.fullUrl
    ensures e.requestMethod == r.transactionMethod
    ensures e.requestUrl.Some? <==> r.transactionMethod.Some? && HasFullUrl(base, r)
    ensures e.requestUrl.Some? ==> e.requestUrl.value.base == None && e.requestUrl.value.idPart == r.id.idPart
    ensures e.requestUrl ==
      if r.transactionMethod.Some? && HasFullUrl(base, r)
      then Some(Unqualified(PopulateBundleEntryFullUrl(base, r, NewEntry).1.value))
      else None
    ensures IsResponse(bundleType) ==> e.responseStatus == ResponseStatus(r.id.version)
    ensures IsResponse(bundleType) ==>
      e.responseEtag == if NotBlank(r.id.version) then Some(ETag(r.id.version.value)) else None
    ensures !IsResponse(bundleType) ==> e.responseStatus == None && e.responseEtag == None
    ensures e.responseLocation == None
    ensures e.searchMode == r.searchMode
  {
    var (e1, id) := PopulateBundleEntryFullUrl(base, r, NewEntry.(resource := Some(r)));
    var e2 :=
      if r.transactionMethod.Some? then
        e1.(requestMethod := r.transactionMethod,
            requestUrl := if id.Some? then Some(Unqualified(id.value)) else e1.requestUrl)
      else e1;
    var e3 := if r.transactionMethod == Some(DELETE) then e2.(resource := None) else e2;
    var e4 :=
      if IsResponse(bundleType) then
        var version := id.value.version;
        var e := if version == Some("1") then e3.(responseStatus := Some(CREATED))
                 else if NotBlank(version) then e3.(responseStatus := Some(OK))
                 else e3;
        if NotBlank(version) then e.(responseEtag := Some(ETag(version.value))) else e
      else e3;
    if r.searchMode.Some? then e4.(searchMode := r.searchMode) else e4
  }

  /** The entry for an included resource (lines 181-185). */
  function IncludeEntry(base: Option<string>, r: Resource): (e: Entry)
    ensures e.resource == Some(r) && e.searchMode == Some(Include)
    ensures e.fullUrl.Some? <==> HasFullUrl(base, r)
    ensures e.fullUrl.Some? ==> e.fullUrl.value.version == None && e.fullUrl.value.idPart == r.id.idPart
    ensures e.fullUrl == PopulateBundleEntryFullUrl(base, r, NewEntry).0.fullUrl
    ensures e.requestMethod == None && e.requestUrl == None
    ensures e.responseStatus == None && e.responseEtag == None && e.responseLocation == None
  {
    PopulateBundleEntryFullUrl(base, r, NewEntry.(resource := Some(r), searchMode := Some(Include))).0
  }

  predicate FullUrlsKnown(base: Option<string>, bundleType: Option<BundleType>, rs: seq<Resource>) {
    IsResponse(bundleType) ==> forall r :: r in rs ==> HasFullUrl(base, r)
  }

  /** The entries of the top-level results, in order (lines 83-176). */
  function TopEntries(base: Option<string>, bundleType: Option<BundleType>, rs: seq<Resource>): (es: seq<Entry>)
    requires FullUrlsKnown(base, bundleType, rs)
    ensures |es| == |rs|
  {
    if rs == [] then []
    else TopEntries(base, bundleType, rs[..|rs| - 1]) + [TopEntry(base, bundleType, rs[|rs| - 1])]
  }

  /** The entries of the included resources, in order (lines 181-185). */
  function IncludeEntries(base: Option<string>, rs: seq<Resource>): (es: seq<Entry>)
    ensures |es| == |rs|
  {
    if rs == [] then [] else IncludeEntries(base, rs[..|rs| - 1]) + [IncludeEntry(base, rs[|rs| - 1])]
  }

  /** Everything one call of addResourcesToBundle appends to the bundle. */
  function BundleEntries(
    base: Option<string>, bundleType: Option<BundleType>, heap: seq<Resource>,
    rule: Option<InclusionRule>, includes: set<IncludeSpec>, results: seq<Resource>): (es: seq<Entry>)
    requires FullUrlsKnown(base, bundleType, results)
    ensures |es| == |results| + |Included(heap, rule, includes, results)|
  {
    TopEntries(base, bundleType, results) + IncludeEntries(base, Included(heap, rule, includes, results))
  }

  /** Appending the entry of result `i` extends the entries of the results before it. */
  lemma TopEntriesStep(
    entries0: seq<Entry>, base: Option<string>, bundleType: Option<BundleType>, rs: seq<Resource>, i: nat)
    requires FullUrlsKnown(base, bundleType, rs) && i < |rs|
    ensures FullUrlsKnown(base, bundleType, rs[..i]) && FullUrlsKnown(base, bundleType, rs[..i + 1])
    ensures entries0 + TopEntries(base, bundleType, rs[..i]) + [TopEntry(base, bundleType, rs[i])]
      == entries0 + TopEntries(base, bundleType, rs[..i + 1])
  {
    assert rs[..i + 1][..i] == rs[..i];
    assert forall r :: r in rs[..i + 1] ==> r in rs;
  }

  lemma {:induction false} TopEntriesAt(base: Option<string>, bundleType: Option<BundleType>, rs: seq<Resource>)
    requires FullUrlsKnown(base, bundleType, rs)
    ensures |TopEntries(base, bundleType, rs)| == |rs|
    ensures forall k :: 0 <= k < |rs| ==> TopEntries(base, bundleType, rs)[k] == TopEntry(base, bundleType, rs[k])
    decreases |rs|
  {
    if rs != [] {
      var init := rs[..|rs| - 1];
      TopEntriesAt(base, bundleType, init);
      forall k | 0 <= k < |rs| - 1 ensures rs[k] == init[k] { }
    }
  }

  lemma {:induction false} IncludeEntriesAt(base: Option<string>, rs: seq<Resource>)
    ensures |IncludeEntries(base, rs)| == |rs|
    ensures forall k :: 0 <= k < |rs| ==> IncludeEntries(base, rs)[k] == IncludeEntry(base, rs[k])
    decreases |rs|
  {
    if rs != [] {
      var init := rs[..|rs| - 1];
      IncludeEntriesAt(base, init);
      forall k | 0 <= k < |rs| - 1 ensures rs[k] == init[k] { }
    }
  }

  /** The layout of top-level entries followed by include entries, for any list of included resources. */
  lemma EntriesLayout(base: Option<string>, bundleType: Option<BundleType>, results: seq<Resource>, inc: seq<Resource>)
    requires FullUrlsKnown(base, bundleType, results)
    ensures |TopEntries(base, bundleType, results) + IncludeEntries(base, inc)| == |results| + |inc|
    ensures forall k :: 0 <= k < |results| ==>
      (TopEntries(base, bundleType, results) + IncludeEntries(base, inc))[k] == TopEntry(base, bundleType, results[k])
    ensures forall k :: 0 <= k < |inc| ==>
      (TopEntries(base, bundleType, results) + IncludeEntries(base, inc))[|results| + k] == IncludeEntry(base, inc[k])
  {
    TopEntriesFirst(base, bundleType, results, inc);
    IncludeEntriesAfter(base, TopEntries(base, bundleType, results), inc, |results|);
  }

  lemma TopEntriesFirst(base: Option<string>, bundleType: Option<BundleType>, results: seq<Resource>, inc: seq<Resource>)
    requires FullUrlsKnown(base, bundleType, results)
    ensures forall k :: 0 <= k < |results| ==>
      (TopEntries(base, bundleType, results) + IncludeEntries(base, inc))[k] == TopEntry(base, bundleType, results[k])
  {
    var top := TopEntries(base, bundleType, results);
    TopEntriesAt(base, bundleType, results);
    PrefixAt(top, IncludeEntries(base, inc));
  }

  lemma IncludeEntriesAfter(base: Option<string>, top: seq<Entry>, inc: seq<Resource>, n: nat)
    requires n == |top|
    ensures forall k :: 0 <= k < |inc| ==> (top + IncludeEntries(base, inc))[n + k] == IncludeEntry(base, inc[k])
  {
    IncludeEntriesAt(base, inc);
    SuffixAt(top, IncludeEntries(base, inc), n);
  }

  lemma PrefixAt<T>(x: seq<T>, y: seq<T>)
    ensures forall k :: 0 <= k < |x| ==> (x + y)[k] == x[k]
  {
  }

  lemma SuffixAt<T>(x: seq<T>, y: seq<T>, n: nat)
    requires n == |x|
    ensures forall k :: 0 <= k < |y| ==> (x + y)[n + k] == y[k]
  {
  }

  /**
   * One entry per input resource, in input order, then one entry per
   * included resource, in discovery order, each marked as an include.
   */
  lemma BundleLayout(
    base: Option<string>, bundleType: Option<BundleType>, heap: seq<Resource>,
    rule: Option<InclusionRule>, includes: set<IncludeSpec>, results: seq<Resource>)
    requires FullUrlsKnown(base, bundleType, results)
    ensures |BundleEntries(base, bundleType, heap, rule, includes, results)|
      == |results| + |Included(heap, rule, includes, results)|
    ensures forall k :: 0 <= k < |results| ==>
      BundleEntries(base, bundleType, heap, rule, includes, results)[k] == TopEntry(base, bundleType, results[k])
    ensures forall k :: 0 <= k < |Included(heap, rule, includes, results)| ==>
      BundleEntries(base, bundleType, heap, rule, includes, results)[|results| + k]
        == IncludeEntry(base, Included(heap, rule, includes, results)[k])
    ensures forall k :: |results| <= k < |BundleEntries(base, bundleType, heap, rule, includes, results)| ==>
      BundleEntries(base, bundleType, heap, rule, includes, results)[k].searchMode == Some(Include)
  {
    var inc := Included(heap, rule, includes, results);
    EntriesLayout(base, bundleType, results, inc);
    var es := BundleEntries(base, bundleType, heap, rule, includes, results);
    forall k | |results| <= k < |es| ensures es[k].searchMode == Some(Include) {
      assert es[|results| + (k - |results|)] == IncludeEntry(base, inc[k - |results|]);
    }
  }

  /** When no reference of any result is resolved, nothing is included. */
  lemma {:induction false} NothingIncludedWithoutReferences(
    heap: seq<Resource>, rule: Option<InclusionRule>, includes: set<IncludeSpec>,
    seed: set<Identity>, rs: seq<Resource>)
    requires forall r, ref :: r in rs && ref in r.refs ==> ref.target.None?
    ensures Concat(Gather(heap, rule, includes, seed, rs).segments) == []
    decreases |rs|
  {
    if rs != [] {
      var init := rs[..|rs| - 1];
      var last := rs[|rs| - 1];
      NothingIncludedWithoutReferences(heap, rule, includes, seed, init);
      var g0 := Gather(heap, rule, includes, seed, init);
      var scope := ScopeOf(heap, rule, includes, last);
      UnresolvedPassAddsNothing(scope, last.refs, g0.added);
      assert Closure(scope, last.refs, g0.added).1 == [];
    }
  }

  lemma {:induction false} UnresolvedPassAddsNothing(scope: Scope, refs: seq<RefInfo>, added: set<Identity>)
    requires forall ref :: ref in refs ==> ref.target.None?
    ensures Pass(scope, refs, added, []) == (added, [])
    decreases |refs|
  {
    if refs != [] {
      UnresolvedPassAddsNothing(scope, refs[1..], added);
    }
  }

  /** What toListOfResources makes of one entry with no body (lines 283-289). */
  function Placeholder(location: Identity): (r: Resource)
    requires HasResourceType(location)
    ensures r.id == location && r.typeName == location.resourceType.value
    ensures r.contained == [] && r.refs == []
    ensures r.transactionMethod == None && r.searchMode == None
  {
    Resource(location, location.resourceType.value, [], [], None, None)
  }

  /** What toListOfResources emits for one entry (lines 280-291). */
  function Emitted(e: Entry): (o: Option<Resource>)
    ensures e.resource.Some? ==> o == e.resource
    ensures e.resource.None? ==>
      (o.Some? <==> e.responseLocation.Some? && HasResourceType(e.responseLocation.value))
    ensures e.resource.None? && o.Some? ==> o.value == Placeholder(e.responseLocation.value)
  {
    if e.resource.Some? then e.resource
    else if e.responseLocation.Some? && HasResourceType(e.responseLocation.value) then
      Some(Placeholder(e.responseLocation.value))
    else None
  }

  /** The result of toListOfResources over a list of entries. */
  function Flatten(es: seq<Entry>): (list: seq<Resource>)
    ensures |list| <= |es|
  {
    if es == [] then []
    else
      var o := Emitted(es[|es| - 1]);
      Flatten(es[..|es| - 1]) + (if o.Some? then [o.value] else [])
  }

  lemma {:induction false} FlattenBound(es: seq<Entry>)
    ensures |Flatten(es)| <= |es|
    ensures |Flatten(es)| == |es| <==> forall k :: 0 <= k < |es| ==> Emitted(es[k]).Some?
    decreases |es|
  {
    if es != [] {
      var init := es[..|es| - 1];
      FlattenBound(init);
      if forall k :: 0 <= k < |es| ==> Emitted(es[k]).Some? {
        assert forall k :: 0 <= k < |init| ==> Emitted(init[k]).Some? by {
          forall k | 0 <= k < |init| ensures Emitted(init[k]).Some? { assert init[k] == es[k]; }
        }
      } else if |Flatten(init)| == |init| {
        var k :| 0 <= k < |es| && Emitted(es[k]).None?;
        if k < |init| { assert init[k] == es[k]; }
      }
    }
  }

  lemma {:induction false} FlattenConcat(x: seq<Entry>, y: seq<Entry>)
    ensures Flatten(x + y) == Flatten(x) + Flatten(y)
    decreases |y|
  {
    if y == [] {
      assert x + y == x;
    } else {
      FlattenConcat(x, y[..|y| - 1]);
      assert (x + y)[..|x + y| - 1] == x + y[..|y| - 1];
    }
  }

  /** The top-level results whose entries keep their body: all but DELETEs. */
  function Kept(rs: seq<Resource>): (kept: seq<Resource>)
    ensures |kept| <= |rs|
    ensures forall x :: x in kept <==> x in rs && x.transactionMethod != Some(DELETE)
  {
    if rs == [] then []
    else Kept(rs[..|rs| - 1]) + (if rs[|rs| - 1].transactionMethod == Some(DELETE) then [] else [rs[|rs| - 1]])
  }

  lemma {:induction false} FlattenTopEntries(base: Option<string>, bundleType: Option<BundleType>, rs: seq<Resource>)
    requires FullUrlsKnown(base, bundleType, rs)
    ensures Flatten(TopEntries(base, bundleType, rs)) == Kept(rs)
    decreases |rs|
  {
    if rs != [] {
      var init := rs[..|rs| - 1];
      FlattenTopEntries(base, bundleType, init);
      FlattenConcat(TopEntries(base, bundleType, init), [TopEntry(base, bundleType, rs[|rs| - 1])]);
      assert Flatten([TopEntry(base, bundleType, rs[|rs| - 1])])
        == Flatten([]) + (if Emitted(TopEntry(base, bundleType, rs[|rs| - 1])).Some? then [Emitted(TopEntry(base, bundleType, rs[|rs| - 1])).value] else []);
    }
  }

  lemma {:induction false} FlattenIncludeEntries(base: Option<string>, rs: seq<Resource>)
    ensures Flatten(IncludeEntries(base, rs)) == rs
    decreases |rs|
  {
    if rs != [] {
      var init := rs[..|rs| - 1];
      FlattenIncludeEntries(base, init);
      FlattenConcat(IncludeEntries(base, init), [IncludeEntry(base, rs[|rs| - 1])]);
      assert Flatten([IncludeEntry(base, rs[|rs| - 1])])
        == Flatten([]) + [IncludeEntry(base, rs[|rs| - 1]).resource.value];
      assert init + [rs[|rs| - 1]] == rs;
    }
  }

  /**
   * Reading back what addResourcesToBundle appended gives the top-level
   * results, minus the DELETEs (whose entries have neither body nor
   * location), followed by the included resources.
   */
  lemma FlattenBundleEntries(
    base: Option<string>, bundleType: Option<BundleType>, heap: seq<Resource>,
    rule: Option<InclusionRule>, includes: set<IncludeSpec>, results: seq<Resource>)
    requires FullUrlsKnown(base, bundleType, results)
    ensures Flatten(BundleEntries(base, bundleType, heap, rule, includes, results))
      == Kept(results) + Included(heap, rule, includes, results)
  {
    var inc := Included(heap, rule, includes, results);
    FlattenConcat(TopEntries(base, bundleType, results), IncludeEntries(base, inc));
    FlattenTopEntries(base, bundleType, results);
    FlattenIncludeEntries(base, inc);
  }
}
