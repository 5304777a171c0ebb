/**
 * The bundle-level properties: id, lastUpdated, the self/next/previous links,
 * type and total.  Each is written only while it is still empty, so the first
 * caller to supply a value wins.  Line numbers in this module refer to
 * Dstu3BundleFactory.java.
 */
module RootProperties {
  import opened FhirTypes

  /** The bundle id element is empty when absent or blank. */
  predicate IdUnset(id: Option<string>) {
    id.None? || IsBlank(id.value)
  }

  /** The answer hasLink computes (lines 247-254). */
  predicate HasRelation(links: seq<Link>, relation: string) {
    exists i :: 0 <= i < |links| && links[i].relation == relation
  }

  /** At most one link carries `relation`. */
  predicate UniqueRelation(links: seq<Link>, relation: string) {
    forall i, j :: 0 <= i < j < |links| && links[i].relation == relation ==> links[j].relation != relation
  }

  /** One of lines 206-214: add a link unless the relation is present or the URL is blank. */
  function AddLinkIfAbsent(links: seq<Link>, relation: string, url: Option<string>): (r: seq<Link>)
    ensures HasRelation(links, relation) ==> r == links
    ensures HasRelation(r, relation) <==> HasRelation(links, relation) || NotBlank(url)
    ensures |links| <= |r| <= |links| + 1 && r[..|links|] == links
    ensures forall i :: |links| <= i < |r| ==> r[i].relation == relation && Some(r[i].url) == url
    ensures forall other :: other != relation ==> (HasRelation(r, other) <==> HasRelation(links, other))
  {
    if !HasRelation(links, relation) && NotBlank(url) then
      assert (links + [Link(relation, url.value)])[|links|].relation == relation;
      links + [Link(relation, url.value)]
    else links
  }

  /**
   * addTotalResultsToBundle (lines 220-234): an empty id becomes `freshId`
   * (the random UUID), and type and total are set when empty and supplied.
   */
  function WithTotalResults(p: RootProps, total: Option<int>, bundleType: Option<BundleType>, freshId: string)
    : (q: RootProps)
    requires !IsBlank(freshId)
    ensures !IdUnset(q.id)
    ensures !IdUnset(p.id) ==> q.id == p.id
    ensures IdUnset(p.id) ==> q.id == Some(freshId)
    ensures p.bundleType.Some? ==> q.bundleType == p.bundleType
    ensures p.bundleType.None? ==> q.bundleType == bundleType
    ensures p.total.Some? ==> q.total == p.total
    ensures p.total.None? ==> q.total == total
    ensures q.links == p.links && q.lastUpdated == p.lastUpdated
  {
    var p1 := if IdUnset(p.id) then p.(id := Some(freshId)) else p;
    var p2 := if p1.bundleType.None? && bundleType.Some? then p1.(bundleType := bundleType) else p1;
    if p2.total.None? && total.Some? then p2.(total := total) else p2
  }

  /** The three link checks of lines 206-214: self, then next, then previous. */
  function WithPagingLinks(links: seq<Link>, bundleLinks: BundleLinks): (r: seq<Link>)
    ensures |links| <= |r| && r[..|links|] == links
    ensures HasRelation(r, LINK_SELF) <==> HasRelation(links, LINK_SELF) || NotBlank(bundleLinks.self)
    ensures HasRelation(r, LINK_NEXT) <==> HasRelation(links, LINK_NEXT) || NotBlank(bundleLinks.next)
    ensures HasRelation(r, LINK_PREVIOUS) <==> HasRelation(links, LINK_PREVIOUS) || NotBlank(bundleLinks.prev)
    ensures |r| <= |links| + 3
    ensures forall i :: |links| <= i < |r| ==> !HasRelation(links, r[i].relation)
    ensures forall i :: |links| <= i < |r| ==>
      || (r[i].relation == LINK_SELF && Some(r[i].url) == bundleLinks.self)
      || (r[i].relation == LINK_NEXT && Some(r[i].url) == bundleLinks.next)
      || (r[i].relation == LINK_PREVIOUS && Some(r[i].url) == bundleLinks.prev)
  {
    var l1 := AddLinkIfAbsent(links, LINK_SELF, bundleLinks.self);
    var l2 := AddLinkIfAbsent(l1, LINK_NEXT, bundleLinks.next);
    var l3 := AddLinkIfAbsent(l2, LINK_PREVIOUS, bundleLinks.prev);
    assert l3[..|links|] == links by {
      assert l3[..|l2|] == l2 && l2[..|l1|] == l1 && l1[..|links|] == links;
      assert l3[..|links|] == l2[..|links|] == l1[..|links|];
    }
    assert LINK_SELF != LINK_NEXT && LINK_SELF != LINK_PREVIOUS && LINK_NEXT != LINK_PREVIOUS;
    forall i | |links| <= i < |l3|
      ensures || (l3[i].relation == LINK_SELF && Some(l3[i].url) == bundleLinks.self)
              || (l3[i].relation == LINK_NEXT && Some(l3[i].url) == bundleLinks.next)
              || (l3[i].relation == LINK_PREVIOUS && Some(l3[i].url) == bundleLinks.prev)
      ensures !HasRelation(links, l3[i].relation)
    {
      if i < |l1| {
        assert l3[i] == l2[i] == l1[i];
      } else if i < |l2| {
        assert l3[i] == l2[i];
      }
    }
    l3
  }

  /** Lines 199-214: id and lastUpdated when unset, then the paging links. */
  function WithIdDateLinks(p: RootProps, id: Option<string>, links: BundleLinks, lastUpdated: Option<string>)
    : (q: RootProps)
    ensures IdUnset(p.id) ==> q.id == id
    ensures !IdUnset(p.id) ==> q.id == p.id
    ensures p.lastUpdated.Some? ==> q.lastUpdated == p.lastUpdated
    ensures p.lastUpdated.None? ==> q.lastUpdated == lastUpdated
    ensures q.links == WithPagingLinks(p.links, links)
    ensures q.bundleType == p.bundleType && q.total == p.total
  {
    var p1 := if IdUnset(p.id) then p.(id := id) else p;
    var p2 := if p1.lastUpdated.None? && lastUpdated.Some? then p1.(lastUpdated := lastUpdated) else p1;
    p2.(links := WithPagingLinks(p.links, links))
  }

  /**
   * addRootPropertiesToBundle (lines 196-216) on the bundle-level properties:
   * id, lastUpdated and links first-writer-wins, then addTotalResultsToBundle.
   */
  function WithRootProperties(
    p: RootProps, id: Option<string>, links: BundleLinks, total: Option<int>,
    lastUpdated: Option<string>, freshId: string): (q: RootProps)
    requires !IsBlank(freshId)
    ensures !IdUnset(q.id)
    ensures !IdUnset(p.id) ==> q.id == p.id
    ensures IdUnset(p.id) && !IdUnset(id) ==> q.id == id
    ensures p.lastUpdated.Some? ==> q.lastUpdated == p.lastUpdated
    ensures p.lastUpdated.None? ==> q.lastUpdated == lastUpdated
    ensures q.links == WithPagingLinks(p.links, links)
    ensures p.bundleType.Some? ==> q.bundleType == p.bundleType
    ensures p.bundleType.None? ==> q.bundleType == links.bundleType
    ensures p.total.Some? ==> q.total == p.total
    ensures p.total.None? ==> q.total == total
  {
    WithTotalResults(WithIdDateLinks(p, id, links, lastUpdated), total, links.bundleType, freshId)
  }

  /** Appending a link of one relation keeps every relation unique that was. */
  lemma AddLinkKeepsUnique(links: seq<Link>, relation: string, url: Option<string>, other: string)
    requires UniqueRelation(links, other)
    ensures UniqueRelation(AddLinkIfAbsent(links, relation, url), other)
  {
    var r := AddLinkIfAbsent(links, relation, url);
    if r != links {
      forall i, j | 0 <= i < j < |r| && r[i].relation == other ensures r[j].relation != other {
        if j == |links| {
          assert r[i] == links[i];
          assert r[j].relation == relation;
        } else {
          assert r[i] == links[i] && r[j] == links[j];
        }
      }
    }
  }

  /** No call adds a second link for self, next or previous. */
  lemma RootPropertiesKeepLinksUnique(
    p: RootProps, id: Option<string>, links: BundleLinks, total: Option<int>,
    lastUpdated: Option<string>, freshId: string, relation: string)
    requires !IsBlank(freshId)
    requires UniqueRelation(p.links, relation)
    ensures UniqueRelation(WithRootProperties(p, id, links, total, lastUpdated, freshId).links, relation)
  {
    var l1 := AddLinkIfAbsent(p.links, LINK_SELF, links.self);
    AddLinkKeepsUnique(p.links, LINK_SELF, links.self, relation);
    var l2 := AddLinkIfAbsent(l1, LINK_NEXT, links.next);
    AddLinkKeepsUnique(l1, LINK_NEXT, links.next, relation);
    AddLinkKeepsUnique(l2, LINK_PREVIOUS, links.prev, relation);
  }

  /** Calling addRootPropertiesToBundle a second time with the same arguments changes nothing. */
  lemma RootPropertiesIdempotent(
    p: RootProps, id: Option<string>, links: BundleLinks, total: Option<int>,
    lastUpdated: Option<string>, freshId: string, freshId2: string)
    requires !IsBlank(freshId) && !IsBlank(freshId2)
    ensures var q := WithRootProperties(p, id, links, total, lastUpdated, freshId);
      WithRootProperties(q, id, links, total, lastUpdated, freshId2) == q
  {
    var q := WithRootProperties(p, id, links, total, lastUpdated, freshId);
    var q2 := WithRootProperties(q, id, links, total, lastUpdated, freshId2);
    assert HasRelation(q.links, LINK_SELF) || !NotBlank(links.self);
    assert HasRelation(q.links, LINK_NEXT) || !NotBlank(links.next);
    assert HasRelation(q.links, LINK_PREVIOUS) || !NotBlank(links.prev);
    assert q2.links == q.links;
  }

  /** One addTotalResultsToBundle call: the supplied total and type and the fresh id. */
  datatype TotalsCall = TotalsCall(total: Option<int>, bundleType: Option<BundleType>, freshId: string)

  predicate FreshIdsNotBlank(calls: seq<TotalsCall>) {
    forall c :: c in calls ==> !IsBlank(c.freshId)
  }

  /** The bundle-level properties after a series of addTotalResultsToBundle calls. */
  function ApplyTotals(p: RootProps, calls: seq<TotalsCall>): RootProps
    requires FreshIdsNotBlank(calls)
    decreases |calls|
  {
    if calls == [] then p
    else ApplyTotals(WithTotalResults(p, calls[0].total, calls[0].bundleType, calls[0].freshId), calls[1..])
  }

  /** The first value a series of calls supplies. */
  function FirstTotal(calls: seq<TotalsCall>): Option<int> {
    if calls == [] then None else if calls[0].total.Some? then calls[0].total else FirstTotal(calls[1..])
  }

  function FirstType(calls: seq<TotalsCall>): Option<BundleType> {
    if calls == [] then None
    else if calls[0].bundleType.Some? then calls[0].bundleType else FirstType(calls[1..])
  }

  /**
   * First writer wins over any number of calls: the total and the type end
   * up as the first ones supplied (unless the bundle had them already), and
   * the id as the first fresh id (unless the bundle had one already).
   */
  lemma {:induction false} TotalsFirstWriterWins(p: RootProps, calls: seq<TotalsCall>)
    requires FreshIdsNotBlank(calls) && calls != []
    ensures ApplyTotals(p, calls).total == if p.total.Some? then p.total else FirstTotal(calls)
    ensures ApplyTotals(p, calls).bundleType == if p.bundleType.Some? then p.bundleType else FirstType(calls)
    ensures ApplyTotals(p, calls).id == if IdUnset(p.id) then Some(calls[0].freshId) else p.id
    decreases |calls|
  {
    var q := WithTotalResults(p, calls[0].total, calls[0].bundleType, calls[0].freshId);
    if |calls| > 1 {
      TotalsFirstWriterWins(q, calls[1..]);
      assert !IdUnset(q.id);
    }
  }
}
