/**
 * Flattening of a project's POM before it is deployed: every ancestor model
 * is overlaid onto the project's own, build- and site-only sections are
 * dropped, and test-scoped dependencies are removed.
 */
module Pom {
  import opened Wrappers

  /** The content of one element of a POM, kept as uninterpreted text. */
  type Xml = string

  /**
   * The elements of a Maven model. The named ones are those that flattening
   * nulls; `Kept` stands for every other element (groupId, name, licenses, ...).
   */
  datatype Section =
    | Parent | Build | CiManagement | Contributors | Developers | IssueManagement
    | MailingLists | Profiles | Modules | DistributionManagement | PluginRepositories
    | Reporting | Reports | Repositories | Scm | Url | DependencyManagement | Properties
    | Kept(name: string)

  /** The sections a flattened POM never carries. */
  const Nulled: set<Section> :=
    {Parent, Build, CiManagement, Contributors, Developers, IssueManagement,
     MailingLists, Profiles, Modules, DistributionManagement, PluginRepositories,
     Reporting, Reports, Repositories, Scm, Url, DependencyManagement, Properties}

  /** A `<dependency>` element; a POM dependency need not name a scope. */
  datatype Dependency = Dependency(groupId: string, artifactId: string, version: string,
                                   kind: string, scope: Option<string>)

  /** The scope test, compared exactly: `Test` or `TEST` is not the test scope. */
  predicate IsTest(d: Dependency) {
    d.scope == Some("test")
  }

  /** What a model holds: the sections present (a null section is absent) and the dependency list. */
  datatype Content = Content(sections: map<Section, Xml>, dependencies: seq<Dependency>)

  /** A project's model as it appears in a built POM, before and after inheritance. */
  datatype Hierarchy = Hierarchy(bare: Content, ancestors: seq<Content>)

  /** The dependencies that are not test-scoped, in their original order. */
  function NonTest(ds: seq<Dependency>): (r: seq<Dependency>)
    ensures |r| <= |ds|
  {
    if ds == [] then []
    else NonTest(ds[..|ds| - 1]) + (if IsTest(ds[|ds| - 1]) then [] else [ds[|ds| - 1]])
  }

  /**
   * The model at position i of a chain (the project's own first, then each
   * ancestor, nearest first) with every model after it overlaid:
   * `assemble(child, parent)` is the content the child has once the
   * already merged parent is overlaid on it.
   */
  function Inherited(models: seq<Content>, i: nat, assemble: (Content, Content) -> Content): (merged: Content)
    requires i < |models|
    decreases |models| - i
  {
    if i == |models| - 1 then models[i] else assemble(models[i], Inherited(models, i + 1, assemble))
  }

  /** The whole chain of models, the project's own first. */
  function Chain(h: Hierarchy): (chain: seq<Content>)
    ensures |chain| > 0 && chain[0] == h.bare
  {
    [h.bare] + h.ancestors
  }

  /** The POM that flattening produces for a hierarchy. */
  function Flattened(h: Hierarchy, assemble: (Content, Content) -> Content): (flat: Content) {
    var merged := Inherited(Chain(h), 0, assemble);
    Content(merged.sections - Nulled, NonTest(merged.dependencies))
  }

  /** The test-scope filter written the other way round, from the front: a reference for NonTest. */
  function Filtered(ds: seq<Dependency>): (r: seq<Dependency>) {
    if ds == [] then []
    else (if IsTest(ds[0]) then [] else [ds[0]]) + Filtered(ds[1..])
  }

  lemma {:induction false} NonTestAppend(a: seq<Dependency>, b: seq<Dependency>)
    ensures NonTest(a + b) == NonTest(a) + NonTest(b)
    decreases |b|
  {
    if b == [] {
      assert a + b == a;
    } else {
      var n := |b| - 1;
      assert (a + b)[..|a + b| - 1] == a + b[..n];
      NonTestAppend(a, b[..n]);
    }
  }

  /** Filtering from the back, as the loop does, and from the front give the same list. */
  lemma {:induction false} NonTestIsFiltered(ds: seq<Dependency>)
    ensures NonTest(ds) == Filtered(ds)
  {
    if ds != [] {
      NonTestAppend([ds[0]], ds[1..]);
      assert [ds[0]] + ds[1..] == ds;
      assert [ds[0]][..0] == [];
      NonTestIsFiltered(ds[1..]);
    }
  }

  /** A dependency survives the filter exactly when it was listed and is not test-scoped. */
  lemma {:induction false} NonTestMembership(ds: seq<Dependency>, d: Dependency)
    ensures d in NonTest(ds) <==> d in ds && !IsTest(d)
  {
    if ds != [] {
      var n := |ds| - 1;
      NonTestMembership(ds[..n], d);
      assert ds == ds[..n] + [ds[n]];
    }
  }

  /** A list without test-scoped entries passes the filter unchanged. */
  lemma {:induction false} NonTestKeepsAll(ds: seq<Dependency>)
    requires forall k :: 0 <= k < |ds| ==> !IsTest(ds[k])
    ensures NonTest(ds) == ds
  {
    if ds != [] {
      var n := |ds| - 1;
      NonTestKeepsAll(ds[..n]);
      assert ds == ds[..n] + [ds[n]];
    }
  }

  /** Filtering twice gives what filtering once does. */
  lemma NonTestIdempotent(ds: seq<Dependency>)
    ensures NonTest(NonTest(ds)) == NonTest(ds)
  {
    var r := NonTest(ds);
    forall k | 0 <= k < |r| ensures !IsTest(r[k]) {
      NonTestMembership(ds, r[k]);
    }
    NonTestKeepsAll(r);
  }

  /** `[a:compile, b:test, c:<no scope>]` is filtered to `[a, c]`. */
  lemma NonTestExample(a: Dependency, b: Dependency, c: Dependency)
    requires a.scope == Some("compile") && b.scope == Some("test") && c.scope == None
    ensures NonTest([a, b, c]) == [a, c]
  {
    assert [a][..0] == [];
    assert NonTest([a]) == [a];
    assert [a, b][..1] == [a];
    assert NonTest([a, b]) == [a];
    assert [a, b, c][..2] == [a, b];
  }

  /**
   * The merge as the pops perform it: starting from the root, each model
   * popped next has the accumulated model overlaid on it.
   */
  function MergePops(acc: Content, popped: seq<Content>, assemble: (Content, Content) -> Content): (merged: Content)
    decreases |popped|
  {
    if popped == [] then acc else MergePops(assemble(popped[0], acc), popped[1..], assemble)
  }

  function Reverse<T>(s: seq<T>): (r: seq<T>)
    ensures |r| == |s| && forall k :: 0 <= k < |s| ==> r[k] == s[|s| - 1 - k]
  {
    if s == [] then [] else Reverse(s[1..]) + [s[0]]
  }

  lemma {:induction false} MergePopsLast(acc: Content, popped: seq<Content>, c: Content,
                                         assemble: (Content, Content) -> Content)
    ensures MergePops(acc, popped + [c], assemble) == assemble(c, MergePops(acc, popped, assemble))
    decreases |popped|
  {
    if popped == [] {
      assert popped + [c] == [c];
      assert [c][1..] == [];
    } else {
      assert (popped + [c])[1..] == popped[1..] + [c];
      MergePopsLast(assemble(popped[0], acc), popped[1..], c, assemble);
    }
  }

  /**
   * Every model of the chain, merged, is the left fold of the overlay over
   * the models from the root down to it, in pop order.
   */
  lemma {:induction false} InheritedIsMergePops(chain: seq<Content>, i: nat, assemble: (Content, Content) -> Content)
    requires i < |chain|
    ensures Inherited(chain, i, assemble) == MergePops(chain[|chain| - 1], Reverse(chain[i..|chain| - 1]), assemble)
    decreases |chain| - i
  {
    var n := |chain| - 1;
    if i < n {
      InheritedIsMergePops(chain, i + 1, assemble);
      assert Reverse(chain[i..n]) == Reverse(chain[i + 1..n]) + [chain[i]];
      MergePopsLast(chain[n], Reverse(chain[i + 1..n]), chain[i], assemble);
    } else {
      assert Reverse(chain[i..n]) == [];
    }
  }

  /** A three-level hierarchy: the grandparent is overlaid on the parent, and that on the project. */
  lemma ThreeLevels(project: Content, parent: Content, root: Content, assemble: (Content, Content) -> Content)
    ensures Inherited(Chain(Hierarchy(project, [parent, root])), 0, assemble) == assemble(project, assemble(parent, root))
  {
    var chain := Chain(Hierarchy(project, [parent, root]));
    assert chain == [project, parent, root];
    assert Inherited(chain, 2, assemble) == root;
    assert Inherited(chain, 1, assemble) == assemble(parent, root);
  }

  /** Only the kept sections survive; the nulled ones carry nothing. */
  lemma NulledSections(s: Section)
    ensures s in Nulled <==> !s.Kept?
  {
  }

  /**
   * A flattened POM carries no nulled section and every other section of
   * the merged model as it was; its dependencies are those of the merged model
   * that are not test-scoped.
   */
  lemma FlattenedContent(h: Hierarchy, assemble: (Content, Content) -> Content, s: Section, d: Dependency)
    ensures var merged := Inherited(Chain(h), 0, assemble);
            && (s in Flattened(h, assemble).sections <==> s.Kept? && s in merged.sections)
            && (s in Flattened(h, assemble).sections ==> Flattened(h, assemble).sections[s] == merged.sections[s])
            && (d in Flattened(h, assemble).dependencies <==> d in merged.dependencies && !IsTest(d))
  {
    NulledSections(s);
    NonTestMembership(Inherited(Chain(h), 0, assemble).dependencies, d);
  }

  /** Without ancestors the dependencies are the project's own, less the test-scoped ones. */
  lemma FlattenedOrphan(bare: Content, assemble: (Content, Content) -> Content)
    ensures Flattened(Hierarchy(bare, []), assemble).dependencies == NonTest(bare.dependencies)
  {
    assert Chain(Hierarchy(bare, [])) == [bare];
  }

  /** Flattening an already flattened POM, which has no parent, changes nothing. */
  lemma FlattenIdempotent(h: Hierarchy, assemble: (Content, Content) -> Content)
    ensures Flattened(Hierarchy(Flattened(h, assemble), []), assemble) == Flattened(h, assemble)
  {
    var f := Flattened(h, assemble);
    assert Chain(Hierarchy(f, [])) == [f];
    NonTestIdempotent(Inherited(Chain(h), 0, assemble).dependencies);
    assert f.sections - Nulled == f.sections;
  }

  /** A Maven `Model` whose setters change it in place. */
  class Model {
    var sections: map<Section, Xml>
    var dependencies: seq<Dependency>

    /** A model as read from a POM. */
    constructor (c: Content)
      ensures Snapshot() == c
    {
      sections := c.sections;
      dependencies := c.dependencies;
    }

    function Snapshot(): Content
      reads this
    {
      Content(sections, dependencies)
    }

    /** A section setter called with null. */
    method Clear(s: Section)
      modifies this
      ensures sections == old(sections) - {s}
      ensures dependencies == old(dependencies)
    {
      sections := sections - {s};
    }

    method SetDependencies(ds: seq<Dependency>)
      modifies this
      ensures dependencies == ds
      ensures sections == old(sections)
    {
      dependencies := ds;
    }

    /** `assembleModelInheritance(this, parent)`: the parent's content is overlaid on this one. */
    method Inherit(parent: Model, assemble: (Content, Content) -> Content)
      modifies this
      ensures Snapshot() == assemble(old(Snapshot()), old(parent.Snapshot()))
    {
      var c := assemble(Snapshot(), parent.Snapshot());
      sections := c.sections;
      dependencies := c.dependencies;
    }
  }

  /** Nulling the sections one setter at a time, in the order flattening does, nulls exactly the sections of `Nulled`. */
  lemma NullingOrder(m: map<Section, Xml>)
    ensures (((((((((((((((((((m - {Parent}) - {Build}) - {CiManagement}) - {Contributors}) - {CiManagement}) - {Developers}) - {IssueManagement}) - {MailingLists}) - {Profiles}) - {Modules}) - {DistributionManagement}) - {PluginRepositories}) - {Reporting}) - {Reports}) - {Repositories}) - {Scm}) - {Url}) - {DependencyManagement}) - {Properties}) == m - Nulled
  {
  }

  /** No model occurs twice in the stack. */
  predicate Distinct(stack: seq<Model>) {
    forall i, j :: 0 <= i < j < |stack| ==> stack[i] != stack[j]
  }

  /**
   * The ancestor walk: the bare project is pushed first, then each ancestor
   * as it is built, nearest first, so the root ends up on top.
   */
  method PushHierarchy(h: Hierarchy) returns (stack: seq<Model>)
    ensures |stack| == |Chain(h)| && Distinct(stack)
    ensures forall i :: 0 <= i < |stack| ==> fresh(stack[i]) && stack[i].Snapshot() == Chain(h)[i]
  {
    var bare := new Model(h.bare);
    stack := [bare];
    var i := 0;
    while i < |h.ancestors|
      invariant 0 <= i <= |h.ancestors| && |stack| == i + 1 && Distinct(stack)
      invariant forall k :: 0 <= k < |stack| ==> fresh(stack[k]) && stack[k].Snapshot() == Chain(h)[k]
    {
      var parent := new Model(h.ancestors[i]);
      stack := stack + [parent];
      i := i + 1;
    }
  }

  /**
   * The merge: the root is popped first, then each model below it is popped
   * and has the model popped before it overlaid. Every model of the stack
   * ends up holding itself merged with all of its ancestors, and the last one
   * popped, the bare project, is returned.
   */
  method MergeHierarchy(stack: seq<Model>, ghost chain: seq<Content>, assemble: (Content, Content) -> Content) returns (leaf: Model)
    requires |stack| > 0 && Distinct(stack)
    requires |chain| == |stack| && forall i :: 0 <= i < |stack| ==> stack[i].Snapshot() == chain[i]
    modifies stack
    ensures leaf == stack[0]
    ensures forall i {:trigger stack[i]} :: 0 <= i < |stack| ==> stack[i].Snapshot() == Inherited(chain, i, assemble)
  {
    ghost var merged := seq(|chain|, i requires 0 <= i < |chain| => Inherited(chain, i, assemble));
    var rest := stack[..|stack| - 1];
    var currentParent := stack[|stack| - 1];
    var currentProject := currentParent;
    while |rest| != 0
      invariant |rest| < |stack| && forall k :: 0 <= k < |rest| ==> rest[k] == stack[k]
      invariant currentParent == stack[|rest|] && currentProject == currentParent
      invariant forall i :: 0 <= i < |rest| ==> stack[i].Snapshot() == chain[i]
      invariant forall i :: |rest| <= i < |stack| ==> stack[i].Snapshot() == merged[i]
    {
      currentProject := rest[|rest| - 1];
      rest := rest[..|rest| - 1];
      assert currentProject == stack[|rest|];
      currentProject.Inherit(currentParent, assemble);
      assert merged[|rest|] == assemble(chain[|rest|], merged[|rest| + 1]);
      currentParent := currentProject;
    }
    leaf := currentProject;
  }

  /** The dependency loop: every dependency that is not test-scoped is kept, in order. */
  method KeptDependencies(deps: seq<Dependency>) returns (goodDeps: seq<Dependency>)
    ensures goodDeps == NonTest(deps)
  {
    goodDeps := [];
    for i := 0 to |deps|
      invariant goodDeps == NonTest(deps[..i])
    {
      var dep := deps[i];
      if dep.scope.None? || dep.scope.value != "test" {
        goodDeps := goodDeps + [dep];
      }
      assert deps[..i + 1][..i] == deps[..i];
    }
    assert deps[..|deps|] == deps;
  }

  /**
   * Sanitation and filtering of the merged model, in place: every section a
   * flattened POM must not carry is nulled, and the dependencies become
   * those of the merged model that are not test-scoped.
   */
  method Strip(model: Model)
    modifies model
    ensures model.sections == old(model.sections) - Nulled
    ensures model.dependencies == NonTest(old(model.dependencies))
  {
    ghost var original := model.sections;
    model.Clear(Parent);
    model.Clear(Build);
    model.Clear(CiManagement);
    model.Clear(Contributors);
    model.Clear(CiManagement);
    model.Clear(Developers);
    model.Clear(IssueManagement);
    model.Clear(MailingLists);
    model.Clear(Profiles);
    model.Clear(Modules);
    model.Clear(DistributionManagement);
    model.Clear(PluginRepositories);
    model.Clear(Reporting);
    model.Clear(Reports);
    model.Clear(Repositories);
    model.Clear(Scm);
    model.Clear(Url);
    var goodDeps := KeptDependencies(model.dependencies);
    model.SetDependencies(goodDeps);
    model.Clear(DependencyManagement);
    model.Clear(Properties);
    NullingOrder(original);
  }

  /**
   * `filterPom` once the project and its ancestors are built: walk, merge,
   * null the build- and site-only sections, then keep the merged model's
   * dependencies that are not test-scoped.
   */
  method FlattenPom(h: Hierarchy, assemble: (Content, Content) -> Content) returns (flat: Content)
    ensures flat == Flattened(h, assemble)
  {
    var stack := PushHierarchy(h);
    var model := MergeHierarchy(stack, Chain(h), assemble);
    ghost var merged := Inherited(Chain(h), 0, assemble);
    assert model.Snapshot() == merged;
    Strip(model);
    flat := model.Snapshot();
  }
}
