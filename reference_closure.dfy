/**
 * The transitive include closure of addResourcesToBundle: round by round, every
 * reference of the current frontier is followed, and each resolved target that
 * passes the filters and has not been added yet joins the included resources.
 *
 * The object graph is a sequence `heap` of resources; a reference's resolved
 * target is an index into it.  Because the heap is finite, so is the set of
 * keys that can ever be added, which is what makes the rounds terminate.
 * Line numbers in this module refer to Dstu3BundleFactory.java.
 */
module ReferenceClosure {
  import opened FhirTypes

  /**
   * The key under which an included resource is recorded in the added-set:
   * its id, qualified with its runtime type when the id carries none.
   */
  function Key(r: Resource): (k: Identity)
    ensures k.base == r.id.base && k.idPart == r.id.idPart && k.version == r.id.version
    ensures HasResourceType(r.id) ==> k == r.id
    ensures !HasResourceType(r.id) ==> k.resourceType == Some(r.typeName)
    ensures HasResourceType(k) <==> HasResourceType(r.id) || !IsBlank(r.typeName)
  {
    if HasResourceType(r.id) then r.id else WithResourceType(r.id, r.typeName)
  }

  function KeysOf(q: seq<Resource>): set<Identity> {
    set r | r in q :: Key(r)
  }

  /**
   * What one top-level resource's closure works with: the object graph, the
   * ids of that resource's contained resources, the optional inclusion rule
   * and the request's `_include` parameters.
   */
  datatype Scope = Scope(
    heap: seq<Resource>,
    contained: set<Identity>,
    rule: Option<InclusionRule>,
    includes: set<IncludeSpec>)

  predicate Accepts(scope: Scope, ref: RefInfo) {
    scope.rule.None? || scope.rule.value(ref, scope.includes)
  }

  /**
   * A reference whose target may be included: the rule (if any) accepts it,
   * it is resolved, the target has an id part and that id is not the id of a
   * contained resource.  A handle outside the heap stands for no object and
   * counts as unresolved.
   */
  predicate Admits(scope: Scope, ref: RefInfo): (b: bool)
    ensures ref.target.None? ==> !b
    ensures scope.rule.Some? && !scope.rule.value(ref, scope.includes) ==> !b
    ensures b ==> ref.target.Some? && ref.target.value < |scope.heap| && HasIdPart(Key(Target(scope, ref)))
    ensures b ==> Target(scope, ref).id !in scope.contained
    ensures
      && (scope.rule.None? || scope.rule.value(ref, scope.includes))
      && ref.target.Some? && ref.target.value < |scope.heap|
      && HasIdPart(Target(scope, ref).id)
      && Target(scope, ref).id !in scope.contained
      ==> b
  {
    && Accepts(scope, ref)
    && ref.target.Some? && ref.target.value < |scope.heap|
    && HasIdPart(scope.heap[ref.target.value].id)
    && scope.heap[ref.target.value].id !in scope.contained
  }

  function Target(scope: Scope, ref: RefInfo): Resource
    requires ref.target.Some? && ref.target.value < |scope.heap|
  {
    scope.heap[ref.target.value]
  }

  /**
   * `q` is a list of resources newly discovered on top of the added-set `a`,
   * which becomes `a2`: each comes from the heap and has an id part, their
   * keys are new and pairwise distinct, and `a2` is `a` plus those keys.
   */
  ghost predicate Fresh(heap: seq<Resource>, a: set<Identity>, q: seq<Resource>, a2: set<Identity>) {
    && a2 == a + KeysOf(q)
    && (forall k :: 0 <= k < |q| ==> q[k] in heap && HasIdPart(q[k].id) && Key(q[k]) !in a)
    && (forall j, k :: 0 <= j < k < |q| ==> Key(q[j]) != Key(q[k]))
  }

  lemma KeysOfConcat(q1: seq<Resource>, q2: seq<Resource>)
    ensures KeysOf(q1 + q2) == KeysOf(q1) + KeysOf(q2)
  {
    forall x | x in KeysOf(q1 + q2) ensures x in KeysOf(q1) + KeysOf(q2) {
      var r :| r in q1 + q2 && Key(r) == x;
    }
  }

  lemma {:induction false} FreshConcat(
    heap: seq<Resource>, a: set<Identity>, q1: seq<Resource>, a1: set<Identity>,
    q2: seq<Resource>, a2: set<Identity>)
    requires Fresh(heap, a, q1, a1) && Fresh(heap, a1, q2, a2)
    ensures Fresh(heap, a, q1 + q2, a2)
  {
    KeysOfConcat(q1, q2);
    var q := q1 + q2;
    forall k | 0 <= k < |q|
      ensures q[k] in heap && HasIdPart(q[k].id) && Key(q[k]) !in a
    {
      if k >= |q1| { assert q[k] == q2[k - |q1|]; }
    }
    forall j, k | 0 <= j < k < |q| ensures Key(q[j]) != Key(q[k]) {
      if k < |q1| {
      } else if j < |q1| {
        assert q[j] in q1;
        assert Key(q[j]) in a1;
        assert q[k] == q2[k - |q1|];
      } else {
        assert q[j] == q2[j - |q1|] && q[k] == q2[k - |q1|];
      }
    }
  }

  /** Every newly discovered key comes from the heap, so the keys still addable shrink. */
  lemma FreshShrinks(heap: seq<Resource>, a: set<Identity>, q: seq<Resource>, a2: set<Identity>)
    requires Fresh(heap, a, q, a2) && q != []
    ensures |KeysOf(heap) - a2| < |KeysOf(heap) - a|
  {
    var x := Key(q[0]);
    assert x in KeysOf(heap) by { assert q[0] in heap; }
    assert x in KeysOf(q);
    var rest := (KeysOf(heap) - a) - {x};
    assert KeysOf(heap) - a2 <= rest;
    assert |rest| == |KeysOf(heap) - a| - 1;
    SubsetCard(KeysOf(heap) - a2, rest);
  }

  lemma SubsetCard<T>(s: set<T>, t: set<T>)
    requires s <= t
    ensures |s| <= |t|
  {
    assert t == s + (t - s);
    assert s * (t - s) == {};
  }

  /** One reference of a pass: lines 99-125. */
  function Visit(scope: Scope, ref: RefInfo, added: set<Identity>, found: seq<Resource>)
    : (v: (set<Identity>, seq<Resource>))
    ensures |found| <= |v.1| <= |found| + 1 && v.1[..|found|] == found
    ensures |v.1| == |found| + 1 <==> Admits(scope, ref) && Key(Target(scope, ref)) !in added
    ensures |v.1| == |found| + 1 ==>
      v.1[|found|] == Target(scope, ref) && v.0 == added + {Key(Target(scope, ref))}
    ensures |v.1| == |found| ==> v.0 == added
  {
    if !Admits(scope, ref) then (added, found)
    else if Key(Target(scope, ref)) in added then (added, found)
    else (added + {Key(Target(scope, ref))}, found + [Target(scope, ref)])
  }

  /**
   * One pass over a frontier of references, left to right, threading the
   * added-set and this pass's newly added resources (lines 97-126).
   */
  function Pass(scope: Scope, refs: seq<RefInfo>, added: set<Identity>, found: seq<Resource>)
    : (r: (set<Identity>, seq<Resource>))
    ensures |found| <= |r.1| && r.1[..|found|] == found
    ensures Fresh(scope.heap, added, r.1[|found|..], r.0)
    ensures forall k :: |found| <= k < |r.1| ==> r.1[k].id !in scope.contained
    decreases |refs|
  {
    if refs == [] then
      assert found[|found|..] == [];
      (added, found)
    else
      var v := Visit(scope, refs[0], added, found);
      VisitStep(scope, refs[0], added, found);
      var r := Pass(scope, refs[1..], v.0, v.1);
      FreshExtends(scope.heap, scope.contained, added, found, v.0, v.1, r.0, r.1);
      r
  }

  /** Two extensions of a found-list, each fresh and free of contained ids, make one. */
  lemma FreshExtends(
    heap: seq<Resource>, contained: set<Identity>,
    a0: set<Identity>, f0: seq<Resource>, a1: set<Identity>, f1: seq<Resource>, a2: set<Identity>, f2: seq<Resource>)
    requires |f0| <= |f1| && f1[..|f0|] == f0 && Fresh(heap, a0, f1[|f0|..], a1)
    requires forall k :: |f0| <= k < |f1| ==> f1[k].id !in contained
    requires |f1| <= |f2| && f2[..|f1|] == f1 && Fresh(heap, a1, f2[|f1|..], a2)
    requires forall k :: |f1| <= k < |f2| ==> f2[k].id !in contained
    ensures |f0| <= |f2| && f2[..|f0|] == f0 && Fresh(heap, a0, f2[|f0|..], a2)
    ensures forall k :: |f0| <= k < |f2| ==> f2[k].id !in contained
  {
    FreshConcat(heap, a0, f1[|f0|..], a1, f2[|f1|..], a2);
    assert f2[|f0|..] == f1[|f0|..] + f2[|f1|..];
    assert f2[..|f0|] == f2[..|f1|][..|f0|];
    forall k | |f0| <= k < |f1| ensures f2[k].id !in contained {
      assert f2[k] == f2[..|f1|][k];
    }
  }

  /** One visit keeps what was found, and adds at most one new resource, not a contained one. */
  lemma VisitStep(scope: Scope, ref: RefInfo, added: set<Identity>, found: seq<Resource>)
    ensures |found| <= |Visit(scope, ref, added, found).1|
    ensures Visit(scope, ref, added, found).1[..|found|] == found
    ensures Fresh(scope.heap, added, Visit(scope, ref, added, found).1[|found|..], Visit(scope, ref, added, found).0)
    ensures forall k :: |found| <= k < |Visit(scope, ref, added, found).1| ==>
      Visit(scope, ref, added, found).1[k].id !in scope.contained
  {
    var v := Visit(scope, ref, added, found);
    if v.1 != found {
      assert v.1[|found|..] == [Target(scope, ref)];
      assert KeysOf([Target(scope, ref)]) == {Key(Target(scope, ref))};
    } else {
      assert v.1[|found|..] == [];
    }
  }

  /** The references the terser finds in a list of resources, in order (lines 131-136). */
  function RefsOf(rs: seq<Resource>): (q: seq<RefInfo>)
    ensures forall ref :: ref in q <==> exists x :: x in rs && ref in x.refs
  {
    if rs == [] then []
    else
      var init := rs[..|rs| - 1];
      assert forall x :: x in rs <==> x in init || x == rs[|rs| - 1];
      RefsOf(init) + rs[|rs| - 1].refs
  }

  /**
   * The do-while of lines 96-137: a pass over `refs`, then, if the resources
   * it added have references of their own, another round over those.  The
   * result is the final added-set and every resource added, in discovery order.
   */
  function Closure(scope: Scope, refs: seq<RefInfo>, added: set<Identity>)
    : (r: (set<Identity>, seq<Resource>))
    ensures Fresh(scope.heap, added, r.1, r.0)
    ensures forall x :: x in r.1 ==> x.id !in scope.contained
    decreases |KeysOf(scope.heap) - added|
  {
    var (a1, p) := Pass(scope, refs, added, []);
    assert p[0..] == p;
    var next := RefsOf(p);
    if next == [] then (a1, p)
    else
      FreshShrinks(scope.heap, added, p, a1);
      var (a2, rest) := Closure(scope, next, a1);
      FreshConcat(scope.heap, added, p, a1, rest, a2);
      (a2, p + rest)
  }

  /** One round of the do-while: a pass, then, unless it found no references, the rounds after it. */
  lemma ClosureUnfold(scope: Scope, refs: seq<RefInfo>, added: set<Identity>)
    ensures RefsOf(Pass(scope, refs, added, []).1) == [] ==>
      Closure(scope, refs, added) == Pass(scope, refs, added, [])
    ensures RefsOf(Pass(scope, refs, added, []).1) != [] ==>
      Closure(scope, refs, added).0
        == Closure(scope, RefsOf(Pass(scope, refs, added, []).1), Pass(scope, refs, added, []).0).0
    ensures RefsOf(Pass(scope, refs, added, []).1) != [] ==>
      Closure(scope, refs, added).1
        == Pass(scope, refs, added, []).1
           + Closure(scope, RefsOf(Pass(scope, refs, added, []).1), Pass(scope, refs, added, []).0).1
  {
  }

  /** The ids of the contained resources that are not blank (lines 85-93). */
  function ContainedIds(cs: seq<Identity>): (ids: set<Identity>)
    ensures forall c :: c in ids <==> c in cs && !IsEmpty(c)
  {
    if cs == [] then {}
    else
      var init := cs[..|cs| - 1];
      assert forall c :: c in cs <==> c in init || c == cs[|cs| - 1];
      ContainedIds(init) + (if IsEmpty(cs[|cs| - 1]) then {} else {cs[|cs| - 1]})
  }

  /** The ids of the top-level results that are not empty (lines 77-81). */
  function Seed(rs: seq<Resource>): (ids: set<Identity>)
    ensures forall r :: r in rs && !IsEmpty(r.id) ==> r.id in ids
    ensures forall x :: x in ids ==> !IsEmpty(x) && exists r :: r in rs && r.id == x
  {
    if rs == [] then {}
    else
      var init := rs[..|rs| - 1];
      assert forall r :: r in rs <==> r in init || r == rs[|rs| - 1];
      Seed(init) + (if IsEmpty(rs[|rs| - 1].id) then {} else {rs[|rs| - 1].id})
  }

  function ScopeOf(heap: seq<Resource>, rule: Option<InclusionRule>, includes: set<IncludeSpec>, r: Resource): Scope {
    Scope(heap, ContainedIds(r.contained), rule, includes)
  }

  function Concat(ss: seq<seq<Resource>>): seq<Resource> {
    if ss == [] then [] else Concat(ss[..|ss| - 1]) + ss[|ss| - 1]
  }

  /** The added-set and, per top-level result, the resources its closure added. */
  datatype Progress = Progress(added: set<Identity>, segments: seq<seq<Resource>>)

  /**
   * The closures of the top-level results `rs`, one after the other, sharing
   * one added-set that starts as `seed` (lines 83-137).
   */
  function Gather(
    heap: seq<Resource>, rule: Option<InclusionRule>, includes: set<IncludeSpec>,
    seed: set<Identity>, rs: seq<Resource>): (g: Progress)
    ensures |g.segments| == |rs|
    ensures seed <= g.added
    decreases |rs|
  {
    if rs == [] then Progress(seed, [])
    else
      var g0 := Gather(heap, rule, includes, seed, rs[..|rs| - 1]);
      var last := rs[|rs| - 1];
      var (a, found) := Closure(ScopeOf(heap, rule, includes, last), last.refs, g0.added);
      Progress(a, g0.segments + [found])
  }

  /**
   * Across all top-level results, the included resources are new on top of
   * the seed, pairwise distinct and drawn from the heap.
   */
  lemma {:induction false} GatherFresh(
    heap: seq<Resource>, rule: Option<InclusionRule>, includes: set<IncludeSpec>,
    seed: set<Identity>, rs: seq<Resource>)
    ensures Fresh(heap, seed, Concat(Gather(heap, rule, includes, seed, rs).segments),
                  Gather(heap, rule, includes, seed, rs).added)
    decreases |rs|
  {
    if rs != [] {
      var init := rs[..|rs| - 1];
      GatherFresh(heap, rule, includes, seed, init);
      var g0 := Gather(heap, rule, includes, seed, init);
      var last := rs[|rs| - 1];
      var c := Closure(ScopeOf(heap, rule, includes, last), last.refs, g0.added);
      var segments := g0.segments + [c.1];
      assert Gather(heap, rule, includes, seed, rs) == Progress(c.0, segments);
      assert segments[..|segments| - 1] == g0.segments;
      FreshConcat(heap, seed, Concat(g0.segments), g0.added, c.1, c.0);
    }
  }

  /** No top-level result's closure adds one of that result's contained ids. */
  lemma {:induction false} GatherSkipsContained(
    heap: seq<Resource>, rule: Option<InclusionRule>, includes: set<IncludeSpec>,
    seed: set<Identity>, rs: seq<Resource>)
    ensures forall i, x :: 0 <= i < |rs| && x in Gather(heap, rule, includes, seed, rs).segments[i] ==>
      x.id !in ContainedIds(rs[i].contained)
    decreases |rs|
  {
    if rs != [] {
      var init := rs[..|rs| - 1];
      GatherSkipsContained(heap, rule, includes, seed, init);
      var g0 := Gather(heap, rule, includes, seed, init);
      var last := rs[|rs| - 1];
      var c := Closure(ScopeOf(heap, rule, includes, last), last.refs, g0.added);
      var segments := g0.segments + [c.1];
      assert Gather(heap, rule, includes, seed, rs) == Progress(c.0, segments);
      assert forall x :: x in c.1 ==> x.id !in ContainedIds(last.contained);
      forall i, x: Resource | 0 <= i < |rs| && x in segments[i] ensures x.id !in ContainedIds(rs[i].contained) {
        if i < |rs| - 1 {
          assert segments[i] == g0.segments[i] && rs[i] == init[i];
        } else {
          assert segments[i] == c.1 && rs[i] == last;
        }
      }
    }
  }

  /** One more top-level resource extends the gathered state by one closure over its references. */
  lemma GatherAdvance(
    heap: seq<Resource>, rule: Option<InclusionRule>, includes: set<IncludeSpec>,
    seed: set<Identity>, rs: seq<Resource>, i: nat,
    added0: set<Identity>, included0: seq<Resource>, added: set<Identity>, included: seq<Resource>)
    requires i < |rs|
    requires added0 == Gather(heap, rule, includes, seed, rs[..i]).added
    requires included0 == Concat(Gather(heap, rule, includes, seed, rs[..i]).segments)
    requires added == Closure(ScopeOf(heap, rule, includes, rs[i]), rs[i].refs, added0).0
    requires included == included0 + Closure(ScopeOf(heap, rule, includes, rs[i]), rs[i].refs, added0).1
    ensures added == Gather(heap, rule, includes, seed, rs[..i + 1]).added
    ensures included == Concat(Gather(heap, rule, includes, seed, rs[..i + 1]).segments)
  {
    GatherStep(heap, rule, includes, seed, rs, i);
  }

  lemma GatherStep(
    heap: seq<Resource>, rule: Option<InclusionRule>, includes: set<IncludeSpec>,
    seed: set<Identity>, rs: seq<Resource>, i: nat)
    requires i < |rs|
    ensures Gather(heap, rule, includes, seed, rs[..i + 1]).added
      == Closure(ScopeOf(heap, rule, includes, rs[i]), rs[i].refs, Gather(heap, rule, includes, seed, rs[..i]).added).0
    ensures Concat(Gather(heap, rule, includes, seed, rs[..i + 1]).segments)
      == Concat(Gather(heap, rule, includes, seed, rs[..i]).segments)
         + Closure(ScopeOf(heap, rule, includes, rs[i]), rs[i].refs, Gather(heap, rule, includes, seed, rs[..i]).added).1
  {
    assert rs[..i + 1][..i] == rs[..i];
    var g := Gather(heap, rule, includes, seed, rs[..i + 1]);
    assert g.segments[..|g.segments| - 1] == Gather(heap, rule, includes, seed, rs[..i]).segments;
  }

  /** The resources addResourcesToBundle appends as included entries, in order. */
  function Included(
    heap: seq<Resource>, rule: Option<InclusionRule>, includes: set<IncludeSpec>,
    results: seq<Resource>): (inc: seq<Resource>)
    ensures forall k :: 0 <= k < |inc| ==> inc[k] in heap && HasIdPart(inc[k].id)
  {
    GatherFresh(heap, rule, includes, Seed(results), results);
    Concat(Gather(heap, rule, includes, Seed(results), results).segments)
  }

  lemma {:induction false} RefsOfConcat(x: seq<Resource>, y: seq<Resource>)
    ensures RefsOf(x + y) == RefsOf(x) + RefsOf(y)
    decreases |y|
  {
    if y == [] {
      assert x + y == x;
    } else {
      var y0 := y[..|y| - 1];
      RefsOfConcat(x, y0);
      assert (x + y)[..|x + y| - 1] == x + y0;
    }
  }

  /** After a pass, the target of every admitted reference of the frontier is in the added-set. */
  lemma {:induction false} PassCovers(scope: Scope, refs: seq<RefInfo>, added: set<Identity>, found: seq<Resource>)
    ensures forall ref :: ref in refs && Admits(scope, ref) ==>
      Key(Target(scope, ref)) in Pass(scope, refs, added, found).0
    decreases |refs|
  {
    if refs != [] {
      var (a1, f1) := Visit(scope, refs[0], added, found);
      PassCovers(scope, refs[1..], a1, f1);
      var r := Pass(scope, refs[1..], a1, f1);
      assert Pass(scope, refs, added, found) == r;
      forall ref | ref in refs && Admits(scope, ref) ensures Key(Target(scope, ref)) in r.0 {
        if ref !in refs[1..] {
          assert ref == refs[0];
          assert Key(Target(scope, ref)) in a1;
        }
      }
    }
  }

  /** `x` is the target of some admitted reference in `refs`. */
  ghost predicate ReachedFrom(scope: Scope, refs: seq<RefInfo>, x: Resource) {
    exists ref :: ref in refs && Admits(scope, ref) && Target(scope, ref) == x
  }

  lemma ReachedFromMore(scope: Scope, refs: seq<RefInfo>, more: seq<RefInfo>, x: Resource)
    requires ReachedFrom(scope, refs, x)
    requires forall ref :: ref in refs ==> ref in more
    ensures ReachedFrom(scope, more, x)
  {
    var ref :| ref in refs && Admits(scope, ref) && Target(scope, ref) == x;
    assert ref in more;
  }

  /** Each resource a pass adds is the target of an admitted reference of the frontier. */
  lemma {:induction false} PassProvenance(scope: Scope, refs: seq<RefInfo>, added: set<Identity>, found: seq<Resource>)
    ensures forall k :: |found| <= k < |Pass(scope, refs, added, found).1| ==>
      ReachedFrom(scope, refs, Pass(scope, refs, added, found).1[k])
    decreases |refs|
  {
    if refs != [] {
      var v := Visit(scope, refs[0], added, found);
      var f1 := v.1;
      PassProvenance(scope, refs[1..], v.0, f1);
      var r := Pass(scope, refs, added, found);
      assert r == Pass(scope, refs[1..], v.0, f1);
      forall k | |found| <= k < |r.1| ensures ReachedFrom(scope, refs, r.1[k]) {
        if k < |f1| {
          assert f1 == found + [Target(scope, refs[0])];
          assert r.1[k] == r.1[..|f1|][k] == f1[k];
          assert refs[0] in refs;
        } else {
          assert ReachedFrom(scope, refs[1..], r.1[k]);
          ReachedFromMore(scope, refs[1..], refs, r.1[k]);
        }
      }
    }
  }

  /**
   * The closure is closed: every admitted reference, of the starting frontier
   * or of any resource the closure added, has its target's key in the final
   * added-set.
   */
  lemma {:induction false} ClosureCovers(scope: Scope, refs: seq<RefInfo>, added: set<Identity>)
    ensures forall ref :: ref in refs + RefsOf(Closure(scope, refs, added).1) && Admits(scope, ref) ==>
      Key(Target(scope, ref)) in Closure(scope, refs, added).0
    decreases |KeysOf(scope.heap) - added|
  {
    var pr := Pass(scope, refs, added, []);
    var a1, p := pr.0, pr.1;
    assert p[0..] == p;
    PassCovers(scope, refs, added, []);
    var next := RefsOf(p);
    var r := Closure(scope, refs, added);
    if next == [] {
      assert r == (a1, p);
      assert refs + RefsOf(r.1) == refs;
    } else {
      FreshShrinks(scope.heap, added, p, a1);
      var c := Closure(scope, next, a1);
      ClosureCovers(scope, next, a1);
      assert r == (c.0, p + c.1);
      RefsOfConcat(p, c.1);
      assert a1 <= c.0;
      forall ref | ref in refs + RefsOf(r.1) && Admits(scope, ref)
        ensures Key(Target(scope, ref)) in r.0
      {
        if ref !in refs {
          assert ref in next + RefsOf(c.1);
        }
      }
    }
  }

  /** Joins the provenance of one round with that of the rounds after it. */
  lemma ProvenanceJoin(scope: Scope, refs: seq<RefInfo>, p: seq<Resource>, rest: seq<Resource>)
    requires forall k :: 0 <= k < |p| ==> ReachedFrom(scope, refs, p[k])
    requires forall m :: 0 <= m < |rest| ==> ReachedFrom(scope, RefsOf(p) + RefsOf(rest[..m]), rest[m])
    ensures forall k :: 0 <= k < |p + rest| ==> ReachedFrom(scope, refs + RefsOf((p + rest)[..k]), (p + rest)[k])
  {
    var r := p + rest;
    forall k | 0 <= k < |r| ensures ReachedFrom(scope, refs + RefsOf(r[..k]), r[k]) {
      if k < |p| {
        assert r[k] == p[k];
        ReachedFromMore(scope, refs, refs + RefsOf(r[..k]), p[k]);
      } else {
        var m := k - |p|;
        assert r[k] == rest[m];
        assert r[..k] == p + rest[..m];
        RefsOfConcat(p, rest[..m]);
        ReachedFromMore(scope, RefsOf(p) + RefsOf(rest[..m]), refs + RefsOf(r[..k]), rest[m]);
      }
    }
  }

  /**
   * Breadth-first provenance: the k-th resource the closure adds is the target
   * of an admitted reference of the starting frontier or of one of the
   * resources added before it.
   */
  lemma {:induction false} ClosureProvenance(scope: Scope, refs: seq<RefInfo>, added: set<Identity>)
    ensures forall k :: 0 <= k < |Closure(scope, refs, added).1| ==>
      ReachedFrom(scope, refs + RefsOf(Closure(scope, refs, added).1[..k]), Closure(scope, refs, added).1[k])
    decreases |KeysOf(scope.heap) - added|
  {
    var pr := Pass(scope, refs, added, []);
    var a1, p := pr.0, pr.1;
    assert p[0..] == p;
    PassProvenance(scope, refs, added, []);
    assert forall k :: 0 <= k < |p| ==> ReachedFrom(scope, refs, p[k]);
    var next := RefsOf(p);
    if next == [] {
      assert Closure(scope, refs, added) == (a1, p);
      forall k | 0 <= k < |p| ensures ReachedFrom(scope, refs + RefsOf(p[..k]), p[k]) {
        ReachedFromMore(scope, refs, refs + RefsOf(p[..k]), p[k]);
      }
    } else {
      FreshShrinks(scope.heap, added, p, a1);
      var c := Closure(scope, next, a1);
      ClosureProvenance(scope, next, a1);
      assert Closure(scope, refs, added) == (c.0, p + c.1);
      ProvenanceJoin(scope, refs, p, c.1);
    }
  }

  /**
   * Each identity is included at most once: the included resources have
   * pairwise distinct keys, none of them a seeded top-level id, so an
   * included resource whose id carries a type never has the id of a
   * top-level result.
   */
  lemma IncludedOnce(
    heap: seq<Resource>, rule: Option<InclusionRule>, includes: set<IncludeSpec>, results: seq<Resource>)
    ensures forall j, k :: 0 <= j < k < |Included(heap, rule, includes, results)| ==>
      Key(Included(heap, rule, includes, results)[j]) != Key(Included(heap, rule, includes, results)[k])
    ensures forall k :: 0 <= k < |Included(heap, rule, includes, results)| ==>
      Key(Included(heap, rule, includes, results)[k]) !in Seed(results)
    ensures forall k, i ::
      (0 <= k < |Included(heap, rule, includes, results)| && 0 <= i < |results|
       && HasResourceType(Included(heap, rule, includes, results)[k].id)) ==>
      Included(heap, rule, includes, results)[k].id != results[i].id
  {
    var inc := Included(heap, rule, includes, results);
    GatherFresh(heap, rule, includes, Seed(results), results);
    forall k, i | 0 <= k < |inc| && 0 <= i < |results| && HasResourceType(inc[k].id)
      ensures inc[k].id != results[i].id
    {
      assert results[i] in results;
    }
  }

  /**
   * Completeness over all top-level results: every reference the rule admits,
   * whether it sits in a result or in a resource that result's closure
   * added, has its target's key in the final added-set.
   */
  lemma {:induction false} GatherCovers(
    heap: seq<Resource>, rule: Option<InclusionRule>, includes: set<IncludeSpec>,
    seed: set<Identity>, rs: seq<Resource>)
    ensures forall i, ref ::
      (0 <= i < |rs|
       && ref in rs[i].refs + RefsOf(Gather(heap, rule, includes, seed, rs).segments[i])
       && Admits(ScopeOf(heap, rule, includes, rs[i]), ref)) ==>
      Key(Target(ScopeOf(heap, rule, includes, rs[i]), ref)) in Gather(heap, rule, includes, seed, rs).added
    decreases |rs|
  {
    if rs != [] {
      var init := rs[..|rs| - 1];
      GatherCovers(heap, rule, includes, seed, init);
      var g0 := Gather(heap, rule, includes, seed, init);
      var last := rs[|rs| - 1];
      var scope := ScopeOf(heap, rule, includes, last);
      var c := Closure(scope, last.refs, g0.added);
      ClosureCovers(scope, last.refs, g0.added);
      var g := Gather(heap, rule, includes, seed, rs);
      assert g == Progress(c.0, g0.segments + [c.1]);
      assert g0.added <= c.0;
      forall i, ref |
        0 <= i < |rs| && ref in rs[i].refs + RefsOf(g.segments[i]) && Admits(ScopeOf(heap, rule, includes, rs[i]), ref)
        ensures Key(Target(ScopeOf(heap, rule, includes, rs[i]), ref)) in g.added
      {
        if i < |rs| - 1 {
          assert g.segments[i] == g0.segments[i] && rs[i] == init[i];
        } else {
          assert g.segments[i] == c.1 && rs[i] == last;
        }
      }
    }
  }

  /**
   * Nothing reachable is lost: the target of every admitted reference of a
   * top-level result or of an included resource is itself a top-level result
   * (by id) or one of the included resources.
   */
  lemma IncludedComplete(
    heap: seq<Resource>, rule: Option<InclusionRule>, includes: set<IncludeSpec>, results: seq<Resource>)
    ensures forall i, ref ::
      (0 <= i < |results|
       && ref in results[i].refs + RefsOf(Gather(heap, rule, includes, Seed(results), results).segments[i])
       && Admits(ScopeOf(heap, rule, includes, results[i]), ref)) ==>
      Key(Target(ScopeOf(heap, rule, includes, results[i]), ref)) in Seed(results)
      || Key(Target(ScopeOf(heap, rule, includes, results[i]), ref)) in KeysOf(Included(heap, rule, includes, results))
  {
    GatherCovers(heap, rule, includes, Seed(results), results);
    GatherFresh(heap, rule, includes, Seed(results), results);
  }
}
