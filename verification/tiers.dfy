// Dependency tiers (computeTiers in tools/deployments/publish-packages.ts): a memoised
// depth-first search finds the depth of every package, then each package goes to the
// tier of its depth.

module Tiers {
  import opened Common
  import opened Packages

  type Graph = map<string, Package>

  /** `a` pins the known package `b`; names without a manifest impose no ordering. */
  predicate Edge(g: Graph, a: string, b: string) {
    a in g && b in g && b in g[a].workspaceDependencies
  }

  ghost predicate IsPath(g: Graph, p: seq<string>) {
    |p| >= 1 && p[0] in g && forall i :: 0 <= i < |p| - 1 ==> Edge(g, p[i], p[i + 1])
  }

  ghost predicate IsCycle(g: Graph, p: seq<string>) {
    IsPath(g, p) && |p| >= 2 && p[0] == p[|p| - 1]
  }

  ghost predicate HasCycle(g: Graph) {
    exists p :: IsCycle(g, p)
  }

  /** A chain of dependencies whose tail, from position `k` on, is a cycle. */
  ghost predicate EndsInCycle(g: Graph, p: seq<string>) {
    IsPath(g, p) && exists k :: 0 <= k < |p| - 1 && IsCycle(g, p[k..])
  }

  /** `depths` gives `n` one more than its deepest known dependency, 0 if it has none. */
  ghost predicate DepthAt(g: Graph, depths: map<string, nat>, n: string)
    requires n in depths
  {
    && (forall d :: Edge(g, n, d) ==> d in depths && depths[d] < depths[n])
    && (depths[n] > 0 ==> exists d :: Edge(g, n, d) && d in depths && depths[d] + 1 == depths[n])
  }

  ghost predicate Consistent(g: Graph, depths: map<string, nat>) {
    forall n :: n in depths ==> n in g && DepthAt(g, depths, n)
  }

  ghost predicate Extends(before: map<string, nat>, after: map<string, nat>) {
    forall n :: n in before ==> n in after && after[n] == before[n]
  }

  function Elements(s: seq<string>): set<string> {
    set x | x in s
  }

  /** The closure state of computeTiers. */
  class DepthSearch {
    const byName: Graph
    var depths: map<string, nat>
    var visiting: set<string>

    constructor (byName: Graph)
      ensures this.byName == byName && depths == map[] && visiting == {}
    {
      this.byName := byName;
      depths, visiting := map[], {};
    }

    ghost predicate Valid()
      reads this
    {
      Consistent(byName, depths) && depths.Keys !! visiting && visiting <= byName.Keys
    }

    /** The depth of `name`, reached from the root of the search along `path`. On success
        the cache has grown and is exact; otherwise the error is a path into a cycle. */
    method DepthOf(name: string, path: seq<string>) returns (r: Result<nat, seq<string>>)
      requires Valid() && IsPath(byName, path + [name]) && visiting == Elements(path)
      modifies this
      ensures r.Ok? ==> Valid() && visiting == old(visiting) && Extends(old(depths), depths)
      ensures r.Ok? ==> name in depths && depths[name] == r.value
      ensures r.Err? ==> EndsInCycle(byName, r.error)
      decreases byName.Keys - visiting
    {
      assert (path + [name])[|path|] == name;
      if name in depths {
        return Ok(depths[name]);
      }
      if name in visiting {
        RevisitIsCycle(byName, path, name);
        return Err(path + [name]);
      }
      PathKnown(byName, path + [name]);
      ghost var before := visiting;
      visiting := visiting + {name};
      assert visiting == Elements(path + [name]);
      var depth := 0;
      var deps := byName[name].workspaceDependencies;
      for i := 0 to |deps|
        invariant Valid() && visiting == before + {name} && Extends(old(depths), depths)
        invariant forall d :: d in deps[..i] && d in byName ==> d in depths && depths[d] < depth
        invariant depth > 0 ==> exists d :: d in deps[..i] && d in byName && d in depths && depths[d] + 1 == depth
      {
        assert forall d :: d in deps[..i + 1] <==> d in deps[..i] || d == deps[i];
        if deps[i] !in byName {
          continue;
        }
        ghost var cached := depths;
        StepPath(byName, path + [name], deps[i]);
        var below := DepthOf(deps[i], path + [name]);
        if below.Err? {
          return below;
        }
        assert forall d :: d in deps[..i] && d in byName ==> d in cached;
        if below.value + 1 > depth {
          depth := below.value + 1;
        }
      }
      assert deps[..|deps|] == deps;
      visiting := visiting - {name};
      ghost var cached := depths;
      depths := depths[name := depth];
      CacheOne(byName, cached, name, depth);
      return Ok(depth);
    }
  }

  lemma RevisitIsCycle(g: Graph, path: seq<string>, name: string)
    requires IsPath(g, path + [name]) && name in path
    ensures EndsInCycle(g, path + [name])
  {
    var p := path + [name];
    var k :| 0 <= k < |path| && path[k] == name;
    assert p[k] == name;
    PathKnown(g, p);
    assert IsCycle(g, p[k..]);
  }

  lemma PathKnown(g: Graph, p: seq<string>)
    requires IsPath(g, p)
    ensures forall i :: 0 <= i < |p| ==> p[i] in g
  {
    forall i | 0 <= i < |p| ensures p[i] in g {
      if i > 0 {
        assert Edge(g, p[i - 1], p[i - 1 + 1]);
      }
    }
  }

  lemma StepPath(g: Graph, p: seq<string>, b: string)
    requires IsPath(g, p) && Edge(g, p[|p| - 1], b)
    ensures IsPath(g, p + [b])
  {
    var q := p + [b];
    forall i | 0 <= i < |q| - 1 ensures Edge(g, q[i], q[i + 1]) {
      if i < |p| - 1 {
        assert Edge(g, p[i], p[i + 1]);
      }
    }
  }

  lemma CacheOne(g: Graph, depths: map<string, nat>, name: string, depth: nat)
    requires Consistent(g, depths) && name in g && name !in depths
    requires forall d :: d in g[name].workspaceDependencies && d in g ==> d in depths && depths[d] < depth
    requires depth > 0 ==> exists d :: d in g[name].workspaceDependencies && d in g && d in depths && depths[d] + 1 == depth
    ensures Consistent(g, depths[name := depth])
  {
    var after := depths[name := depth];
    forall n | n in after ensures DepthAt(g, after, n) {
      if n == name {
        if depth > 0 {
          var d :| d in g[name].workspaceDependencies && d in g && d in depths && depths[d] + 1 == depth;
          assert Edge(g, name, d);
        }
      } else {
        assert DepthAt(g, depths, n);
        if depths[n] > 0 {
          var d :| Edge(g, n, d) && d in depths && depths[d] + 1 == depths[n];
          assert Edge(g, n, d) && d in after && after[d] + 1 == after[n];
        }
      }
    }
  }

  // ---------------------------------------------------------------- what a depth means

  /** `d` is the length of the longest chain of dependencies below `n`. */
  ghost predicate LongestChain(g: Graph, n: string, d: nat) {
    && (exists p :: IsPath(g, p) && p[0] == n && |p| == d + 1)
    && (forall p :: IsPath(g, p) && p[0] == n ==> |p| <= d + 1)
  }

  lemma DepthIsLongestChain(g: Graph, depths: map<string, nat>, n: string)
    requires Consistent(g, depths) && n in depths
    ensures LongestChain(g, n, depths[n])
  {
    var p := DeepestPath(g, depths, n);
    forall q | IsPath(g, q) && q[0] == n ensures |q| <= depths[n] + 1 {
      PathsAreShort(g, depths, q);
    }
  }

  lemma {:induction false} DeepestPath(g: Graph, depths: map<string, nat>, n: string) returns (p: seq<string>)
    requires Consistent(g, depths) && n in depths
    ensures IsPath(g, p) && p[0] == n && |p| == depths[n] + 1
    decreases depths[n]
  {
    assert DepthAt(g, depths, n);
    if depths[n] == 0 {
      p := [n];
    } else {
      var d :| Edge(g, n, d) && d in depths && depths[d] + 1 == depths[n];
      var rest := DeepestPath(g, depths, d);
      p := [n] + rest;
      forall i | 0 <= i < |p| - 1 ensures Edge(g, p[i], p[i + 1]) {
        if i > 0 {
          assert Edge(g, rest[i - 1], rest[i - 1 + 1]);
        }
      }
    }
  }

  lemma {:induction false} PathsAreShort(g: Graph, depths: map<string, nat>, p: seq<string>)
    requires Consistent(g, depths) && IsPath(g, p) && p[0] in depths
    ensures |p| <= depths[p[0]] + 1
    ensures p[|p| - 1] in depths && depths[p[|p| - 1]] + |p| - 1 <= depths[p[0]]
    decreases |p|
  {
    assert DepthAt(g, depths, p[0]);
    if |p| == 1 {
    } else {
      assert Edge(g, p[0], p[0 + 1]);
      var rest := p[1..];
      forall i | 0 <= i < |rest| - 1 ensures Edge(g, rest[i], rest[i + 1]) {
        assert Edge(g, p[i + 1], p[i + 1 + 1]);
      }
      PathsAreShort(g, depths, rest);
    }
  }

  /** A complete table of depths exists only for an acyclic graph. */
  lemma DepthsExcludeCycles(g: Graph, depths: map<string, nat>)
    requires Consistent(g, depths) && depths.Keys == g.Keys
    ensures !HasCycle(g)
  {
    if p :| IsCycle(g, p) {
      PathsAreShort(g, depths, p);
      assert false;
    }
  }

  lemma EndsInCycleHasCycle(g: Graph, p: seq<string>)
    requires EndsInCycle(g, p)
    ensures HasCycle(g)
  {
    var k :| 0 <= k < |p| - 1 && IsCycle(g, p[k..]);
  }

  // ---------------------------------------------------------------- the tiers

  function TierCount(packages: seq<Package>, depths: map<string, nat>): nat
    requires forall p :: p in packages ==> p.name in depths
  {
    if packages == [] then 0
    else
      var before, depth := TierCount(packages[..|packages| - 1], depths), depths[packages[|packages| - 1].name];
      if before <= depth then depth + 1 else before
  }

  /** The packages of depth `k`, in input order. */
  function TierAt(packages: seq<Package>, depths: map<string, nat>, k: nat): seq<Package>
    requires forall p :: p in packages ==> p.name in depths
  {
    if packages == [] then []
    else
      TierAt(packages[..|packages| - 1], depths, k) +
      if depths[packages[|packages| - 1].name] == k then [packages[|packages| - 1]] else []
  }

  function Slots(packages: seq<Package>, depths: map<string, nat>, n: nat): (tiers: seq<seq<Package>>)
    requires forall p :: p in packages ==> p.name in depths
    ensures |tiers| == n && forall k :: 0 <= k < n ==> tiers[k] == TierAt(packages, depths, k)
  {
    if n == 0 then [] else Slots(packages, depths, n - 1) + [TierAt(packages, depths, n - 1)]
  }

  function TiersBy(packages: seq<Package>, depths: map<string, nat>): (tiers: seq<seq<Package>>)
    requires forall p :: p in packages ==> p.name in depths
    ensures |tiers| == TierCount(packages, depths)
    ensures forall k :: 0 <= k < |tiers| ==> tiers[k] == TierAt(packages, depths, k)
  {
    Slots(packages, depths, TierCount(packages, depths))
  }

  /** The tier has exactly the packages of depth `k`, as often as the list does and in the
      order of the list. */
  ghost predicate HasDepth(tier: seq<Package>, packages: seq<Package>, depths: map<string, nat>, k: nat) {
    PickedFrom(tier, packages, (p: Package) => p.name in depths && depths[p.name] == k, (p: Package) => p)
  }

  lemma {:induction false} TierInOrder(packages: seq<Package>, depths: map<string, nat>, k: nat)
    requires forall p :: p in packages ==> p.name in depths
    ensures HasDepth(TierAt(packages, depths, k), packages, depths, k)
  {
    var keep, same := (p: Package) => p.name in depths && depths[p.name] == k, (p: Package) => p;
    if packages == [] {
      PickNone(keep, same);
    } else {
      var init, last := packages[..|packages| - 1], packages[|packages| - 1];
      TierInOrder(init, depths, k);
      PickNext(TierAt(init, depths, k), init, last, keep, same);
      assert packages == init + [last];
    }
  }

  method ComputeTiers(packages: seq<Package>) returns (r: Result<seq<seq<Package>>, seq<string>>, ghost depths: map<string, nat>)
    ensures r.Err? <==> HasCycle(ByName(packages))
    ensures r.Err? ==> EndsInCycle(ByName(packages), r.error)
    ensures r.Ok? ==> Consistent(ByName(packages), depths) && depths.Keys == ByName(packages).Keys
    ensures r.Ok? ==> (forall p :: p in packages ==> p.name in depths) && r.value == TiersBy(packages, depths)
    ensures r.Ok? ==> forall k :: 0 <= k < |r.value| ==> HasDepth(r.value[k], packages, depths, k)
  {
    var search := new DepthSearch(ByName(packages));
    ByNameFinds(packages);
    var failed := AllDepths(packages, search);
    if failed.Some? {
      EndsInCycleHasCycle(ByName(packages), failed.value);
      return Err(failed.value), map[];
    }
    depths := search.depths;
    KnownDepths(packages, depths);
    DepthsExcludeCycles(ByName(packages), depths);
    var tiers := Layer(packages, search.depths);
    return Ok(tiers), depths;
  }

  /** The loop that asks for the depth of every package. */
  method AllDepths(packages: seq<Package>, search: DepthSearch) returns (failed: Option<seq<string>>)
    requires search.Valid() && search.visiting == {} && forall p :: p in packages ==> p.name in search.byName
    modifies search
    ensures failed.Some? ==> EndsInCycle(search.byName, failed.value)
    ensures failed.None? ==> search.Valid() && forall p :: p in packages ==> p.name in search.depths
  {
    for i := 0 to |packages|
      invariant search.Valid() && search.visiting == {}
      invariant forall k :: 0 <= k < i ==> packages[k].name in search.depths
    {
      RootPath(search.byName, packages[i].name);
      var d := search.DepthOf(packages[i].name, []);
      if d.Err? {
        return Some(d.error);
      }
    }
    return None;
  }

  lemma RootPath(g: map<string, Package>, name: string)
    requires name in g
    ensures IsPath(g, [] + [name]) && Elements([]) == {}
  {
    assert [] + [name] == [name];
  }

  lemma KnownDepths(packages: seq<Package>, depths: map<string, nat>)
    requires Consistent(ByName(packages), depths) && forall p :: p in packages ==> p.name in depths
    ensures depths.Keys == ByName(packages).Keys
  {
    ByNameFinds(packages);
  }

  /** Pushes each package onto the tier of its depth, adding empty tiers as needed. */
  method Layer(packages: seq<Package>, depths: map<string, nat>) returns (tiers: seq<seq<Package>>)
    requires forall p :: p in packages ==> p.name in depths
    ensures tiers == TiersBy(packages, depths)
    ensures forall k :: 0 <= k < |tiers| ==> HasDepth(tiers[k], packages, depths, k)
  {
    tiers := [];
    for i := 0 to |packages|
      invariant |tiers| == TierCount(packages[..i], depths)
      invariant forall k :: 0 <= k < |tiers| ==> tiers[k] == TierAt(packages[..i], depths, k)
    {
      assert packages[..i + 1][..i] == packages[..i];
      var depth := depths[packages[i].name];
      while |tiers| <= depth
        invariant |tiers| == TierCount(packages[..i], depths) || TierCount(packages[..i], depths) <= |tiers| <= depth + 1
        invariant forall k :: 0 <= k < |tiers| ==> tiers[k] == TierAt(packages[..i], depths, k)
      {
        NoDeeperPackage(packages[..i], depths, |tiers|);
        tiers := tiers + [[]];
      }
      tiers := tiers[depth := tiers[depth] + [packages[i]]];
    }
    assert packages[..|packages|] == packages;
    forall k | 0 <= k < |tiers| ensures HasDepth(tiers[k], packages, depths, k) {
      TierInOrder(packages, depths, k);
    }
  }

  lemma {:induction false} NoDeeperPackage(packages: seq<Package>, depths: map<string, nat>, k: nat)
    requires forall p :: p in packages ==> p.name in depths
    requires TierCount(packages, depths) <= k
    ensures TierAt(packages, depths, k) == []
  {
    if packages == [] {
    } else {
      NoDeeperPackage(packages[..|packages| - 1], depths, k);
    }
  }

  lemma {:induction false} TierAtMembers(packages: seq<Package>, depths: map<string, nat>, k: nat)
    requires forall p :: p in packages ==> p.name in depths
    ensures forall p :: p in TierAt(packages, depths, k) <==> p in packages && depths[p.name] == k
    ensures forall p :: p in packages ==> depths[p.name] < TierCount(packages, depths)
    ensures TierCount(packages, depths) > 0 ==> exists p :: p in packages && depths[p.name] == TierCount(packages, depths) - 1
  {
    if packages == [] {
    } else {
      var init, last := packages[..|packages| - 1], packages[|packages| - 1];
      assert packages == init + [last];
      TierAtMembers(init, depths, k);
    }
  }

  // ---------------------------------------------------------------- valid and optimal layering

  /** Each dependency of a package that is itself among the packages lies in an earlier tier. */
  ghost predicate DependenciesFirst(tiers: seq<seq<Package>>) {
    forall k, p: Package, d :: 0 <= k < |tiers| && p in tiers[k] && d in p.workspaceDependencies && d in ByName(Flatten(tiers))
      ==> PlacedBefore(tiers, k, d)
  }

  ghost predicate PlacedBefore(tiers: seq<seq<Package>>, k: nat, name: string)
    requires k <= |tiers|
  {
    exists j, q :: 0 <= j < k && q in tiers[j] && q.name == name
  }

  lemma {:induction false} FlattenTiers(packages: seq<Package>, depths: map<string, nat>, tiers: seq<seq<Package>>)
    requires forall p :: p in packages ==> p.name in depths
    requires |tiers| >= TierCount(packages, depths)
    requires forall k :: 0 <= k < |tiers| ==> tiers[k] == TierAt(packages, depths, k)
    ensures multiset(Flatten(tiers)) == multiset(packages)
  {
    if packages == [] {
      AllEmpty(tiers);
    } else {
      var init, last := packages[..|packages| - 1], packages[|packages| - 1];
      assert packages == init + [last];
      var d := depths[last.name];
      var before := tiers[d := TierAt(init, depths, d)];
      FlattenTiers(init, depths, before);
      FlattenUpdate(before, d, last);
      assert tiers == before[d := before[d] + [last]];
    }
  }

  lemma {:induction false} AllEmpty<T>(lists: seq<seq<T>>)
    requires forall i :: 0 <= i < |lists| ==> lists[i] == []
    ensures Flatten(lists) == []
  {
    if lists == [] {
    } else {
      AllEmpty(lists[..|lists| - 1]);
    }
  }

  /** No package is lost or doubled, no tier is empty, dependencies come first. */
  lemma {:induction false} TiersAreValid(packages: seq<Package>, depths: map<string, nat>)
    requires UniqueNames(packages)
    requires Consistent(ByName(packages), depths) && depths.Keys == ByName(packages).Keys
    requires forall p :: p in packages ==> p.name in depths
    ensures multiset(Flatten(TiersBy(packages, depths))) == multiset(packages)
    ensures forall k :: 0 <= k < |TiersBy(packages, depths)| ==> TiersBy(packages, depths)[k] != []
    ensures DependenciesFirst(TiersBy(packages, depths))
  {
    var tiers := TiersBy(packages, depths);
    FlattenTiers(packages, depths, tiers);
    forall k | 0 <= k < |tiers| ensures tiers[k] != [] {
      TierAtMembers(packages, depths, k);
      var p :| p in packages && depths[p.name] == |tiers| - 1;
      var q := AncestorAt(packages, depths, p.name, k);
    }
    forall k, p: Package, d | 0 <= k < |tiers| && p in tiers[k] && d in p.workspaceDependencies && d in ByName(Flatten(tiers))
      ensures PlacedBefore(tiers, k, d)
    {
      DependencyBefore(packages, depths, k, p, d);
    }
  }

  lemma DependencyBefore(packages: seq<Package>, depths: map<string, nat>, k: nat, p: Package, d: string)
    requires UniqueNames(packages)
    requires Consistent(ByName(packages), depths) && depths.Keys == ByName(packages).Keys
    requires forall p :: p in packages ==> p.name in depths
    requires multiset(Flatten(TiersBy(packages, depths))) == multiset(packages)
    requires k < TierCount(packages, depths) && p in TierAt(packages, depths, k)
    requires d in p.workspaceDependencies && d in ByName(Flatten(TiersBy(packages, depths)))
    ensures PlacedBefore(TiersBy(packages, depths), k, d)
  {
    var tiers, g := TiersBy(packages, depths), ByName(packages);
    ByNameFinds(packages);
    ByNameFinds(Flatten(tiers));
    var q := ByName(Flatten(tiers))[d];
    assert q in multiset(Flatten(tiers));
    assert q in packages;
    TierAtMembers(packages, depths, k);
    assert g[p.name] == p && DepthAt(g, depths, p.name) && Edge(g, p.name, d);
    TierAtMembers(packages, depths, depths[d]);
    assert q in tiers[depths[d]];
  }

  /** Below a package of depth `depths[n]` there is one of every smaller depth. */
  lemma {:induction false} AncestorAt(packages: seq<Package>, depths: map<string, nat>, n: string, k: nat) returns (q: Package)
    requires Consistent(ByName(packages), depths) && depths.Keys == ByName(packages).Keys
    requires forall p :: p in packages ==> p.name in depths
    requires n in depths && k <= depths[n]
    ensures q in packages && q in TierAt(packages, depths, k)
    decreases depths[n]
  {
    ByNameFinds(packages);
    TierAtMembers(packages, depths, k);
    if depths[n] == k {
      q := ByName(packages)[n];
    } else {
      assert DepthAt(ByName(packages), depths, n);
      var d :| Edge(ByName(packages), n, d) && d in depths && depths[d] + 1 == depths[n];
      q := AncestorAt(packages, depths, d, k);
    }
  }

  /** Any other way to lay out the same packages with dependencies first puts each of them
      no earlier than its depth, so it has at least as many tiers. */
  lemma {:induction false} TiersAreEarliest(packages: seq<Package>, depths: map<string, nat>, other: seq<seq<Package>>)
    requires UniqueNames(packages)
    requires Consistent(ByName(packages), depths) && depths.Keys == ByName(packages).Keys
    requires forall p :: p in packages ==> p.name in depths
    requires multiset(Flatten(other)) == multiset(packages) && DependenciesFirst(other)
    ensures forall i, p :: 0 <= i < |other| && p in other[i] ==> p.name in depths && depths[p.name] <= i
    ensures |TiersBy(packages, depths)| <= |other|
  {
    forall i, p | 0 <= i < |other| && p in other[i] ensures p.name in depths && depths[p.name] <= i {
      NoEarlier(packages, depths, other, i, p);
    }
    if packages != [] {
      TierAtMembers(packages, depths, 0);
      var p :| p in packages && depths[p.name] == TierCount(packages, depths) - 1;
      assert p in multiset(Flatten(other));
      FlattenMember(other, p);
    }
  }

  lemma {:induction false} NoEarlier(packages: seq<Package>, depths: map<string, nat>, other: seq<seq<Package>>, i: nat, p: Package)
    requires UniqueNames(packages)
    requires Consistent(ByName(packages), depths) && depths.Keys == ByName(packages).Keys
    requires multiset(Flatten(other)) == multiset(packages) && DependenciesFirst(other)
    requires i < |other| && p in other[i]
    ensures p.name in depths && depths[p.name] <= i
    decreases i
  {
    ByNameFinds(packages);
    FlattenMember(other, p);
    assert p in multiset(packages);
    assert p in packages;
    var g := ByName(packages);
    assert DepthAt(g, depths, p.name);
    if depths[p.name] > 0 {
      var d :| Edge(g, p.name, d) && d in depths && depths[d] + 1 == depths[p.name];
      assert g[d] in multiset(Flatten(other));
      ByNameFinds(Flatten(other));
      var at :| 0 <= at < |Flatten(other)| && Flatten(other)[at] == g[d];
      assert d in ByName(Flatten(other));
      assert PlacedBefore(other, i, d);
      var j, q :| 0 <= j < i && q in other[j] && q.name == d;
      NoEarlier(packages, depths, other, j, q);
    }
  }
}
