// Which packages must be deprecated together (buildDependantsGraph and
// getRequiredDependants in tools/deployments/deprecate.ts).

module Dependants {
  import opened Common

  /** The fields of a package.json the graph is built from. */
  datatype Manifest = Manifest(name: string, isPrivate: bool, dependencies: map<string, string>, peerDependencies: map<string, string>)

  datatype Entry = Entry(name: string, deps: seq<string>)

  /** For each known package, the packages that depend on it. */
  type Graph = map<string, seq<string>>

  datatype Error =
    | NotAList(name: string)       // an inherited object member was taken for an entry
    | UnknownPackage(name: string)

  /** `{...dependencies, ...peerDependencies}`: a peer range replaces a plain one. */
  function AllDependencies(m: Manifest): map<string, string> {
    m.dependencies + m.peerDependencies
  }

  predicate IsPublic(m: Manifest, a: string) {
    !m.isPrivate && m.name != "" && m.name == a
  }

  /** The peer range counts, or else the plain one. */
  predicate HasWorkspaceDep(m: Manifest, b: string) {
    if b in m.peerDependencies then "workspace:" <= m.peerDependencies[b]
    else b in m.dependencies && "workspace:" <= m.dependencies[b]
  }

  ghost predicate Known(manifests: seq<Manifest>, a: string) {
    exists m :: m in manifests && IsPublic(m, a)
  }

  ghost predicate DependsOn(manifests: seq<Manifest>, a: string, b: string) {
    exists m :: m in manifests && IsPublic(m, a) && HasWorkspaceDep(m, b)
  }

  lemma OneManifestMore(manifests: seq<Manifest>, m: Manifest, a: string, b: string)
    ensures Known(manifests + [m], a) <==> Known(manifests, a) || IsPublic(m, a)
    ensures DependsOn(manifests + [m], a, b) <==> DependsOn(manifests, a, b) || (IsPublic(m, a) && HasWorkspaceDep(m, b))
  {
    assert forall x :: x in manifests + [m] <==> x in manifests || x == m;
    if x :| x in manifests && IsPublic(x, a) {
      assert x in manifests + [m];
    }
    if x :| x in manifests && IsPublic(x, a) && HasWorkspaceDep(x, b) {
      assert x in manifests + [m];
    }
    assert m in manifests + [m];
  }

  ghost predicate Lists(packages: seq<Entry>, a: string, b: string) {
    exists p :: p in packages && p.name == a && b in p.deps
  }

  lemma OneEntryMore(packages: seq<Entry>, e: Entry, a: string, b: string)
    ensures a in Names(packages + [e]) <==> a in Names(packages) || a == e.name
    ensures Lists(packages + [e], a, b) <==> Lists(packages, a, b) || (a == e.name && b in e.deps)
  {
    assert forall p :: p in packages + [e] <==> p in packages || p == e;
    if p :| p in packages && p.name == a && b in p.deps {
      assert p in packages + [e];
    }
    assert e in packages + [e];
  }

  function Names(packages: seq<Entry>): set<string> {
    set p | p in packages :: p.name
  }

  method WorkspaceDeps(m: Manifest) returns (deps: seq<string>)
    ensures Distinct(deps)
    ensures forall d :: d in deps <==> HasWorkspaceDep(m, d)
  {
    deps := [];
    var all := AllDependencies(m);
    var todo := all.Keys;
    while todo != {}
      invariant todo <= all.Keys && Distinct(deps)
      invariant forall d :: d in deps <==> d in all && d !in todo && IsWorkspaceRange(all[d])
    {
      var d :| d in todo;
      if IsWorkspaceRange(all[d]) {
        deps := deps + [d];
      }
      todo := todo - {d};
    }
  }

  method CollectPackages(manifests: seq<Manifest>) returns (packages: seq<Entry>)
    ensures forall a :: a in Names(packages) <==> Known(manifests, a)
    ensures forall a, b :: Lists(packages, a, b) <==> DependsOn(manifests, a, b)
  {
    packages := [];
    for i := 0 to |manifests|
      invariant forall a :: a in Names(packages) <==> Known(manifests[..i], a)
      invariant forall a, b :: Lists(packages, a, b) <==> DependsOn(manifests[..i], a, b)
    {
      var m := manifests[i];
      assert manifests[..i + 1] == manifests[..i] + [m];
      forall a ensures Known(manifests[..i + 1], a) <==> Known(manifests[..i], a) || IsPublic(m, a) {
        OneManifestMore(manifests[..i], m, a, "");
      }
      forall a, b {
        OneManifestMore(manifests[..i], m, a, b);
      }
      if m.isPrivate || m.name == "" {
        continue;
      }
      var deps := WorkspaceDeps(m);
      forall a ensures a in Names(packages + [Entry(m.name, deps)]) <==> a in Names(packages) || a == m.name {
        OneEntryMore(packages, Entry(m.name, deps), a, "");
      }
      forall a, b {
        OneEntryMore(packages, Entry(m.name, deps), a, b);
      }
      packages := packages + [Entry(m.name, deps)];
      assert IsPublic(m, m.name);
      forall a ensures a in Names(packages) <==> Known(manifests[..i + 1], a) {
        assert a == m.name ==> IsPublic(m, a);
      }
    }
    assert manifests[..|manifests|] == manifests;
  }

  /** How often `x` occurs in `s`, each time written as `name`. */
  function Repeat(s: seq<string>, x: string, name: string): seq<string> {
    if s == [] then [] else Repeat(s[..|s| - 1], x, name) + if s[|s| - 1] == x then [name] else []
  }

  /** The names of the packages that list `dep`, in order. */
  function DependantsOf(packages: seq<Entry>, dep: string): seq<string> {
    if packages == [] then []
    else DependantsOf(packages[..|packages| - 1], dep) + Repeat(packages[|packages| - 1].deps, dep, packages[|packages| - 1].name)
  }

  lemma {:induction false} RepeatMembers(s: seq<string>, x: string, name: string)
    ensures forall n :: n in Repeat(s, x, name) <==> n == name && x in s
  {
    if s == [] {
    } else {
      RepeatMembers(s[..|s| - 1], x, name);
      assert s == s[..|s| - 1] + [s[|s| - 1]];
    }
  }

  lemma {:induction false} DependantsMembers(packages: seq<Entry>, dep: string)
    ensures forall n :: n in DependantsOf(packages, dep) <==> exists p :: p in packages && p.name == n && dep in p.deps
  {
    if packages == [] {
    } else {
      var init, last := packages[..|packages| - 1], packages[|packages| - 1];
      assert packages == init + [last];
      DependantsMembers(init, dep);
      RepeatMembers(last.deps, dep, last.name);
    }
  }

  lemma {:induction false} RepeatOnce(s: seq<string>, x: string, name: string)
    requires Distinct(s)
    ensures Repeat(s, x, name) == if x in s then [name] else []
  {
    if s == [] {
    } else {
      var init := s[..|s| - 1];
      assert s == init + [s[|s| - 1]];
      RepeatOnce(init, x, name);
    }
  }

  /** When each package lists its dependencies once, the dependants of `dep` are the packages that
      list it, in order and each once. */
  lemma {:induction false} DependantsInOrder(packages: seq<Entry>, dep: string)
    requires forall p :: p in packages ==> Distinct(p.deps)
    ensures PickedFrom(DependantsOf(packages, dep), packages, (p: Entry) => dep in p.deps, (p: Entry) => p.name)
  {
    var keep, name := (p: Entry) => dep in p.deps, (p: Entry) => p.name;
    if packages == [] {
      PickNone(keep, name);
    } else {
      var init, last := packages[..|packages| - 1], packages[|packages| - 1];
      DependantsInOrder(init, dep);
      RepeatOnce(last.deps, dep, last.name);
      PickNext(DependantsOf(init, dep), init, last, keep, name);
      assert packages == init + [last];
    }
  }

  /** The loops that push into `dependants`. `inherited` are the member names that every plain
      object has: `dep in dependants` is true of them although no list is stored there. */
  method BuildGraph(packages: seq<Entry>, inherited: set<string>) returns (r: Result<Graph, Error>)
    ensures r.Err? <==> exists p, d :: p in packages && d in p.deps && d in inherited && d !in Names(packages)
    ensures r.Ok? ==> r.value.Keys == Names(packages)
    ensures r.Ok? ==> forall a :: a in r.value ==> r.value[a] == DependantsOf(packages, a)
  {
    var names := Names(packages);
    var dependants: Graph := map a | a in names :: [];
    for i := 0 to |packages|
      invariant dependants.Keys == names
      invariant forall a :: a in names ==> dependants[a] == DependantsOf(packages[..i], a)
      invariant forall p, d :: p in packages[..i] && d in p.deps && d in inherited ==> d in names
    {
      assert forall p :: p in packages[..i + 1] <==> p in packages[..i] || p == packages[i];
      assert packages[..i + 1][..i] == packages[..i];
      var pushed := PushDependencies(dependants, packages[i], inherited);
      if pushed.Err? {
        return Err(pushed.error);
      }
      dependants := pushed.value;
    }
    assert packages[..|packages|] == packages;
    return Ok(dependants);
  }

  method PushDependencies(before: Graph, p: Entry, inherited: set<string>) returns (r: Result<Graph, Error>)
    ensures r.Err? <==> exists d :: d in p.deps && d in inherited && d !in before
    ensures r.Ok? ==> r.value.Keys == before.Keys
    ensures r.Ok? ==> forall a :: a in before ==> r.value[a] == before[a] + Repeat(p.deps, a, p.name)
  {
    var dependants := before;
    for k := 0 to |p.deps|
      invariant dependants.Keys == before.Keys
      invariant forall a :: a in before ==> dependants[a] == before[a] + Repeat(p.deps[..k], a, p.name)
      invariant forall d :: d in p.deps[..k] && d in inherited ==> d in before
    {
      var dep := p.deps[k];
      assert forall d :: d in p.deps[..k + 1] <==> d in p.deps[..k] || d == dep;
      assert p.deps[..k + 1][..k] == p.deps[..k];
      if dep in dependants {
        dependants := dependants[dep := dependants[dep] + [p.name]];
      } else if dep in inherited {
        return Err(NotAList(dep));
      }
    }
    assert p.deps[..|p.deps|] == p.deps;
    return Ok(dependants);
  }

  /** The graph is the transpose of the dependency relation among the known packages, unless a
      workspace dependency on an unknown package bears an inherited name; then there is no graph. */
  method BuildDependantsGraph(manifests: seq<Manifest>, inherited: set<string>) returns (r: Result<Graph, Error>)
    ensures r.Err? <==> exists a, b :: DependsOn(manifests, a, b) && b in inherited && !Known(manifests, b)
    ensures r.Ok? ==> forall a :: a in r.value <==> Known(manifests, a)
    ensures r.Ok? ==> forall a :: a in r.value <==> a != "" && exists m :: m in manifests && m.name == a && !m.isPrivate
    ensures r.Ok? ==> forall a, b :: Known(manifests, a) ==> (b in r.value[a] <==> DependsOn(manifests, b, a))
    ensures r.Ok? ==> WellFormed(r.value)
  {
    var packages := CollectPackages(manifests);
    r := BuildGraph(packages, inherited);
    if r.Err? {
      var p, d :| p in packages && d in p.deps && d in inherited && d !in Names(packages);
      assert Lists(packages, p.name, d);
    }
    if r.Ok? {
      forall a | a in r.value ensures forall b :: b in r.value[a] <==> DependsOn(manifests, b, a) {
        DependantsMembers(packages, a);
      }
      assert forall a :: a in r.value <==> a in Names(packages);
    }
  }

  const CONSTRUCTOR: string := "constructor"

  /** A package list without a graph: one public package with a workspace dependency that bears
      a name every object has. */
  const NO_GRAPH: seq<Manifest> := [Manifest("a", false, map[CONSTRUCTOR := "workspace:*"], map[])]

  lemma NoGraphExample(inherited: set<string>)
    requires CONSTRUCTOR in inherited
    ensures exists a, b :: DependsOn(NO_GRAPH, a, b) && b in inherited && !Known(NO_GRAPH, b)
  {
    assert "workspace:" <= "workspace:*";
    assert NO_GRAPH[0] in NO_GRAPH;
    assert "a"[0] != CONSTRUCTOR[0];
    assert DependsOn(NO_GRAPH, "a", CONSTRUCTOR);
  }

  // ---------------------------------------------------------------- required dependants

  ghost predicate WellFormed(g: Graph) {
    forall a, b :: a in g && b in g[a] ==> b in g
  }

  /** The elements of `found`, then the new ones of `deps` that are not provided. */
  function AddMissing(deps: seq<string>, provided: set<string>, found: seq<string>): seq<string> {
    if deps == [] then found
    else
      var before, d := AddMissing(deps[..|deps| - 1], provided, found), deps[|deps| - 1];
      if d !in provided && d !in before then before + [d] else before
  }

  function MissingFrom(names: seq<string>, g: Graph, provided: set<string>): seq<string>
    requires forall n :: n in names ==> n in g
  {
    if names == [] then []
    else AddMissing(g[names[|names| - 1]], provided, MissingFrom(names[..|names| - 1], g, provided))
  }

  function Required(names: seq<string>, g: Graph): seq<string>
    requires forall n :: n in names ==> n in g
  {
    MissingFrom(names, g, set n | n in names)
  }

  ghost predicate FirstUnknown(names: seq<string>, g: Graph, name: string) {
    name !in g && exists i :: 0 <= i < |names| && names[i] == name && forall j :: 0 <= j < i ==> names[j] in g
  }

  /** Everything that depends on the given packages directly, in the order in which it is looked at. */
  function DependantsOfAll(names: seq<string>, g: Graph): seq<string>
    requires forall n :: n in names ==> n in g
  {
    if names == [] then [] else DependantsOfAll(names[..|names| - 1], g) + g[names[|names| - 1]]
  }

  /** What is reported are the packages looked at that are not provided, each once, in the order
      in which they were first looked at. */
  ghost predicate Reports(found: seq<string>, all: seq<string>, provided: set<string>) {
    && Distinct(found)
    && (forall d :: d in found <==> d in all && d !in provided)
    && forall i, j :: 0 <= i < j < |found| ==> SeenFirst(all, found[i], found[j])
  }

  ghost predicate SeenFirst(all: seq<string>, x: string, y: string) {
    exists a: nat :: a < |all| && all[a] == x && y !in all[..a]
  }

  lemma ReportNext(found: seq<string>, all: seq<string>, provided: set<string>, d: string)
    requires Reports(found, all, provided)
    ensures Reports(if d !in provided && d !in found then found + [d] else found, all + [d], provided)
  {
    var more := if d !in provided && d !in found then found + [d] else found;
    forall i, j | 0 <= i < j < |more| ensures SeenFirst(all + [d], more[i], more[j]) {
      var a: nat;
      if j < |found| {
        assert SeenFirst(all, found[i], found[j]);
        a :| a < |all| && all[a] == found[i] && found[j] !in all[..a];
      } else {
        assert found[i] in all;
        a :| a < |all| && all[a] == found[i];
      }
      assert (all + [d])[a] == more[i] && (all + [d])[..a] == all[..a];
    }
  }

  lemma SplitLast<T>(a: seq<T>, b: seq<T>)
    requires b != []
    ensures a + b == a + b[..|b| - 1] + [b[|b| - 1]]
  {
  }

  lemma {:induction false} AddMissingReports(deps: seq<string>, provided: set<string>, found: seq<string>, all: seq<string>)
    requires Reports(found, all, provided)
    ensures Reports(AddMissing(deps, provided, found), all + deps, provided)
  {
    if deps == [] {
      assert all + deps == all;
    } else {
      var init, d := deps[..|deps| - 1], deps[|deps| - 1];
      SplitLast(all, deps);
      AddMissingReports(init, provided, found, all);
      ReportNext(AddMissing(init, provided, found), all + init, provided, d);
    }
  }

  lemma {:induction false} MissingReports(names: seq<string>, g: Graph, provided: set<string>)
    requires forall n :: n in names ==> n in g
    ensures Reports(MissingFrom(names, g, provided), DependantsOfAll(names, g), provided)
  {
    if names == [] {
    } else {
      var init, last := names[..|names| - 1], names[|names| - 1];
      MissingReports(init, g, provided);
      AddMissingReports(g[last], provided, MissingFrom(init, g, provided), DependantsOfAll(init, g));
    }
  }

  method GetRequiredDependants(packageNames: seq<string>, g: Graph, inherited: set<string>) returns (r: Result<seq<string>, Error>)
    ensures r.Err? <==> exists n :: n in packageNames && n !in g
    ensures r.Ok? ==> r.value == Required(packageNames, g)
    ensures r.Ok? ==> Reports(r.value, DependantsOfAll(packageNames, g), set n | n in packageNames)
    ensures r.Err? ==> FirstUnknown(packageNames, g, r.error.name)
    ensures r.Err? ==> r.error == if r.error.name in inherited then NotAList(r.error.name) else UnknownPackage(r.error.name)
  {
    var provided := set n | n in packageNames;
    var missing: seq<string> := [];
    for i := 0 to |packageNames|
      invariant forall n :: n in packageNames[..i] ==> n in g
      invariant missing == MissingFrom(packageNames[..i], g, provided)
    {
      var name := packageNames[i];
      assert packageNames[..i + 1] == packageNames[..i] + [name] && packageNames[..i + 1][..i] == packageNames[..i];
      if name !in g {
        assert forall j :: 0 <= j < i ==> packageNames[j] == packageNames[..i][j];
        assert FirstUnknown(packageNames, g, name);
        return Err(if name in inherited then NotAList(name) else UnknownPackage(name));
      }
      var deps := g[name];
      ghost var found := missing;
      for k := 0 to |deps|
        invariant missing == AddMissing(deps[..k], provided, found)
      {
        assert deps[..k + 1][..k] == deps[..k];
        if deps[k] !in provided && deps[k] !in missing {
          missing := missing + [deps[k]];
        }
      }
      assert deps[..|deps|] == deps;
    }
    assert packageNames[..|packageNames|] == packageNames;
    MissingReports(packageNames, g, provided);
    return Ok(missing);
  }

  lemma {:induction false} AddMissingMembers(deps: seq<string>, provided: set<string>, found: seq<string>)
    ensures forall d :: d in AddMissing(deps, provided, found) <==> d in found || (d in deps && d !in provided)
  {
    if deps == [] {
    } else {
      AddMissingMembers(deps[..|deps| - 1], provided, found);
      assert deps == deps[..|deps| - 1] + [deps[|deps| - 1]];
    }
  }

  lemma {:induction false} MissingMembers(names: seq<string>, g: Graph, provided: set<string>)
    requires forall n :: n in names ==> n in g
    ensures forall d :: d in MissingFrom(names, g, provided) <==> d !in provided && exists n :: n in names && d in g[n]
  {
    if names == [] {
    } else {
      var init, last := names[..|names| - 1], names[|names| - 1];
      assert names == init + [last];
      MissingMembers(init, g, provided);
      AddMissingMembers(g[last], provided, MissingFrom(init, g, provided));
    }
  }

  ghost predicate IsChain(g: Graph, p: seq<string>) {
    |p| >= 1 && forall i :: 0 <= i < |p| - 1 ==> p[i] in g && p[i + 1] in g[p[i]]
  }

  /** `b` depends on `a`, directly or through others. */
  ghost predicate TransitiveDependant(g: Graph, a: string, b: string) {
    exists p :: IsChain(g, p) && p[0] == a && p[|p| - 1] == b
  }

  lemma {:induction false} ChainStaysInside(g: Graph, inside: set<string>, p: seq<string>)
    requires IsChain(g, p) && p[0] in inside
    requires forall a, b :: a in inside && a in g && b in g[a] ==> b in inside
    ensures p[|p| - 1] in inside
  {
    if |p| == 1 {
    } else {
      assert p[0] in g && p[0 + 1] in g[p[0]];
      forall i | 0 <= i < |p[1..]| - 1 ensures p[1..][i] in g && p[1..][i + 1] in g[p[1..][i]] {
        assert p[i + 1] in g && p[i + 1 + 1] in g[p[i + 1]];
      }
      ChainStaysInside(g, inside, p[1..]);
    }
  }

  /** Nothing is required exactly when the given packages contain every transitive dependant
      of each of them. */
  lemma NothingRequiredIffClosed(names: seq<string>, g: Graph)
    requires WellFormed(g) && forall n :: n in names ==> n in g
    ensures Required(names, g) == [] <==> forall a, b :: a in names && TransitiveDependant(g, a, b) ==> b in names
  {
    var provided := set n | n in names;
    MissingMembers(names, g, provided);
    if Required(names, g) == [] {
      forall a, b | a in names && TransitiveDependant(g, a, b) ensures b in names {
        var p :| IsChain(g, p) && p[0] == a && p[|p| - 1] == b;
        forall x, y | x in provided && x in g && y in g[x] ensures y in provided {
          assert y !in Required(names, g);
        }
        ChainStaysInside(g, provided, p);
      }
    } else {
      var d := Required(names, g)[0];
      assert d in Required(names, g);
      var n :| n in names && d in g[n];
      assert IsChain(g, [n, d]);
      assert [n, d][0] == n && [n, d][|[n, d]| - 1] == d;
      assert TransitiveDependant(g, n, d) && d !in names;
    }
  }

  lemma Progress(names: seq<string>, more: seq<string>, g: Graph)
    requires more != [] && forall n :: n in more ==> n in g && n !in names
    ensures g.Keys - (set n | n in names + more) < g.Keys - (set n | n in names)
  {
    assert more[0] in more;
    assert more[0] in g.Keys - (set n | n in names);
    assert more[0] in names + more;
  }

  /** What a user ends up with by adding whatever is reported as required. */
  function AddUntilClosed(names: seq<string>, g: Graph): (all: seq<string>)
    requires WellFormed(g) && forall n :: n in names ==> n in g
    ensures names <= all && forall n :: n in all ==> n in g
    decreases g.Keys - set n | n in names
  {
    var required := Required(names, g);
    if required == [] then names
    else
      MissingMembers(names, g, set n | n in names);
      Progress(names, required, g);
      AddUntilClosed(names + required, g)
  }

  ghost predicate Reached(names: seq<string>, g: Graph, b: string) {
    exists a :: a in names && TransitiveDependant(g, a, b)
  }

  lemma ChainFrom(g: Graph, n: string, a: string, b: string)
    requires n in g && a in g[n] && TransitiveDependant(g, a, b)
    ensures TransitiveDependant(g, n, b)
  {
    var p :| IsChain(g, p) && p[0] == a && p[|p| - 1] == b;
    var q := [n] + p;
    forall i | 0 <= i < |q| - 1 ensures q[i] in g && q[i + 1] in g[q[i]] {
      assert i > 0 ==> p[i - 1] in g && p[i - 1 + 1] in g[p[i - 1]];
    }
    assert IsChain(g, q) && q[0] == n && q[|q| - 1] == b;
  }

  lemma RequiredAreReached(names: seq<string>, g: Graph, b: string)
    requires WellFormed(g) && forall n :: n in names ==> n in g
    ensures Reached(names + Required(names, g), g, b) <==> Reached(names, g, b)
  {
    var more := names + Required(names, g);
    MissingMembers(names, g, set n | n in names);
    if Reached(more, g, b) {
      var a :| a in more && TransitiveDependant(g, a, b);
      if a !in names {
        var n :| n in names && a in g[n];
        ChainFrom(g, n, a, b);
      }
    }
    if Reached(names, g, b) {
      var a :| a in names && TransitiveDependant(g, a, b);
      assert a in more;
    }
  }

  /** That is exactly the given packages and their transitive dependants, the least set that
      contains the given packages and requires nothing. */
  lemma {:induction false} AddUntilClosedIsLeast(names: seq<string>, g: Graph, b: string)
    requires WellFormed(g) && forall n :: n in names ==> n in g
    ensures Required(AddUntilClosed(names, g), g) == []
    ensures b in AddUntilClosed(names, g) <==> Reached(names, g, b)
    decreases g.Keys - set n | n in names
  {
    var required := Required(names, g);
    if required == [] {
      NothingRequiredIffClosed(names, g);
      if b in names {
        assert IsChain(g, [b]) && [b][0] == b && [b][|[b]| - 1] == b;
        assert TransitiveDependant(g, b, b);
      }
    } else {
      MissingMembers(names, g, set n | n in names);
      Progress(names, required, g);
      AddUntilClosedIsLeast(names + required, g, b);
      RequiredAreReached(names, g, b);
    }
  }
}
