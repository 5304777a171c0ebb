/**
 * The include closure on small object graphs: a chain of references
 * followed to the end, a reference to a contained resource skipped, and a
 * top-level result whose id carries no type being included a second time,
 * all as addResourcesToBundle in Dstu3BundleFactory.java would run them.
 */
module IncludeScenarios {
  import opened FhirTypes
  import opened ReferenceClosure

  /** A pass over a single admitted reference to a resource not added yet adds it. */
  lemma PassOneNew(scope: Scope, refs: seq<RefInfo>, added: set<Identity>)
    requires |refs| == 1 && Admits(scope, refs[0]) && Key(Target(scope, refs[0])) !in added
    ensures Pass(scope, refs, added, []) == (added + {Key(Target(scope, refs[0]))}, [Target(scope, refs[0])])
  {
    assert refs[1..] == [];
  }

  /** A pass over a single reference whose target is already added adds nothing. */
  lemma PassOneKnown(scope: Scope, refs: seq<RefInfo>, added: set<Identity>)
    requires |refs| == 1 && (!Admits(scope, refs[0]) || Key(Target(scope, refs[0])) in added)
    ensures Pass(scope, refs, added, []) == (added, [])
  {
    assert refs[1..] == [];
  }

  lemma RefsOfOne(r: Resource)
    ensures RefsOf([r]) == r.refs
  {
    assert [r][..0] == [];
  }

  lemma SeedOfOne(r: Resource)
    ensures Seed([r]) == if IsEmpty(r.id) then {} else {r.id}
  {
    assert [r][..0] == [];
  }

  lemma IncludedOfOne(heap: seq<Resource>, r: Resource)
    ensures Included(heap, None, {}, [r])
      == Closure(ScopeOf(heap, None, {}, r), r.refs, Seed([r])).1
  {
    assert [r][..0] == [];
    var c := Closure(ScopeOf(heap, None, {}, r), r.refs, Seed([r]));
    assert Gather(heap, None, {}, Seed([r]), []) == Progress(Seed([r]), []);
    assert Gather(heap, None, {}, Seed([r]), [r]).segments == [] + [c.1];
    ConcatOne(c.1);
  }

  lemma ConcatOne(s: seq<Resource>)
    ensures Concat([s]) == s
  {
    assert [s][..0] == [];
  }

  lemma NoContainedIds(r: Resource)
    requires r.contained == []
    ensures ContainedIds(r.contained) == {}
  {
  }

  /** The second round of a chain `a`, `b`, `c`: `b`'s single reference brings in `c`, which refers to nothing. */
  lemma ChainLastRound(scope: Scope, a: Resource, b: Resource, c: Resource)
    requires scope.rule.None? && scope.contained == {}
    requires |b.refs| == 1 && b.refs[0].target.Some? && b.refs[0].target.value < |scope.heap|
    requires scope.heap[b.refs[0].target.value] == c
    requires c.refs == [] && HasIdPart(c.id) && HasResourceType(c.id) && a.id != c.id && b.id != c.id
    ensures Closure(scope, b.refs, {a.id} + {b.id}) == ({a.id} + {b.id} + {c.id}, [c])
  {
    var added := {a.id} + {b.id};
    assert Target(scope, b.refs[0]) == c && Key(c) == c.id;
    PassOneNew(scope, b.refs, added);
    RefsOfOne(c);
    ClosureUnfold(scope, b.refs, added);
  }

  /** The first round of a chain `a`, `b`, `c`: `a`'s single reference brings in `b`, whose references come next. */
  lemma ChainFirstRound(scope: Scope, a: Resource, b: Resource)
    requires scope.rule.None? && scope.contained == {}
    requires |a.refs| == 1 && a.refs[0].target.Some? && a.refs[0].target.value < |scope.heap|
    requires scope.heap[a.refs[0].target.value] == b
    requires b.refs != [] && HasIdPart(b.id) && HasResourceType(b.id) && a.id != b.id
    ensures Closure(scope, a.refs, {a.id}).1 == [b] + Closure(scope, b.refs, {a.id} + {b.id}).1
  {
    assert Target(scope, a.refs[0]) == b && Key(b) == b.id;
    PassOneNew(scope, a.refs, {a.id});
    RefsOfOne(b);
    ClosureUnfold(scope, a.refs, {a.id});
  }

  lemma ChainClosure(scope: Scope, a: Resource, b: Resource, c: Resource)
    requires scope.rule.None? && scope.contained == {}
    requires |a.refs| == 1 && a.refs[0].target.Some? && a.refs[0].target.value < |scope.heap|
    requires |b.refs| == 1 && b.refs[0].target.Some? && b.refs[0].target.value < |scope.heap|
    requires scope.heap[a.refs[0].target.value] == b && scope.heap[b.refs[0].target.value] == c
    requires c.refs == [] && HasIdPart(b.id) && HasResourceType(b.id) && HasIdPart(c.id) && HasResourceType(c.id)
    requires a.id != b.id && a.id != c.id && b.id != c.id
    ensures Closure(scope, a.refs, {a.id}).1 == [b, c]
  {
    assert [b] + [c] == [b, c];
    ChainFirstRound(scope, a, b);
    ChainLastRound(scope, a, b, c);
  }

  /**
   * A result `a` refers to `b`, which refers to `c`, which refers to
   * nothing; ids are typed and distinct.  With no inclusion rule, the
   * bundle includes `b`, then `c`.
   */
  lemma ChainFollowed(heap: seq<Resource>, a: Resource, b: Resource, c: Resource)
    requires heap == [a, b, c] && a.contained == []
    requires |a.refs| == 1 && a.refs[0].target == Some(1)
    requires |b.refs| == 1 && b.refs[0].target == Some(2)
    requires c.refs == []
    requires HasIdPart(a.id) && HasIdPart(b.id) && HasIdPart(c.id)
    requires HasResourceType(b.id) && HasResourceType(c.id)
    requires a.id != b.id && a.id != c.id && b.id != c.id
    ensures Included(heap, None, {}, [a]) == [b, c]
  {
    NoContainedIds(a);
    var scope := Scope(heap, {}, None, {});
    assert ScopeOf(heap, None, {}, a) == scope;
    SeedOfOne(a);
    IncludedOfOne(heap, a);
    ChainClosure(scope, a, b, c);
  }

  /**
   * A result `a` refers to `b`, whose id is also the id of one of `a`'s
   * contained resources: the reference is not followed.
   */
  lemma ContainedSkipped(heap: seq<Resource>, a: Resource, b: Resource)
    requires heap == [a, b] && |a.refs| == 1 && a.refs[0].target == Some(1)
    requires b.id in a.contained && !IsEmpty(b.id)
    ensures Included(heap, None, {}, [a]) == []
  {
    var scope := ScopeOf(heap, None, {}, a);
    IncludedOfOne(heap, a);
    PassOneKnown(scope, a.refs, Seed([a]));
    assert RefsOf([]) == [];
    ClosureUnfold(scope, a.refs, Seed([a]));
  }

  /**
   * The top-level ids are recorded as they are, while included ones are
   * recorded with their type.  A result whose id lacks its type and that
   * refers to itself is therefore not recognised, and comes back as an
   * include of itself.
   */
  lemma UntypedResultIncludedAgain(heap: seq<Resource>, u: Resource)
    requires heap == [u] && u.contained == []
    requires |u.refs| == 1 && u.refs[0].target == Some(0)
    requires HasIdPart(u.id) && !HasResourceType(u.id) && !IsBlank(u.typeName)
    ensures Included(heap, None, {}, [u]) == [u]
  {
    var scope := ScopeOf(heap, None, {}, u);
    NoContainedIds(u);
    SeedOfOne(u);
    var seed := {u.id};
    IncludedOfOne(heap, u);
    var key := WithResourceType(u.id, u.typeName);
    assert Target(scope, u.refs[0]) == u && Key(u) == key && key != u.id;
    PassOneNew(scope, u.refs, seed);
    RefsOfOne(u);
    ClosureUnfold(scope, u.refs, seed);
    PassOneKnown(scope, u.refs, seed + {key});
    assert RefsOf([]) == [];
    ClosureUnfold(scope, u.refs, seed + {key});
  }

  /** With a typed id, the same self-reference includes nothing. */
  lemma TypedResultNotIncludedAgain(heap: seq<Resource>, u: Resource)
    requires heap == [u] && u.contained == []
    requires |u.refs| == 1 && u.refs[0].target == Some(0)
    requires HasIdPart(u.id) && HasResourceType(u.id)
    ensures Included(heap, None, {}, [u]) == []
  {
    var scope := ScopeOf(heap, None, {}, u);
    NoContainedIds(u);
    SeedOfOne(u);
    IncludedOfOne(heap, u);
    assert Target(scope, u.refs[0]) == u && Key(u) == u.id;
    PassOneKnown(scope, u.refs, {u.id});
    assert RefsOf([]) == [];
    ClosureUnfold(scope, u.refs, {u.id});
  }
}
