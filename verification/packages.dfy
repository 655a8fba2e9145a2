// The publishable packages of the monorepo and the dependencies they pin
// (findPublishablePackages in tools/deployments/publish-packages.ts).

module Packages {
  import opened Common
  import opened Sorting

  datatype Package = Package(name: string, version: string, dir: string, access: string, workspaceDependencies: seq<string>)

  /** The fields of a package.json that matter here, and the directory it is in. Each dependency
      field lists (package, range) entries. */
  datatype Manifest = Manifest(
    dir: string,
    access: Option<string>,
    name: Option<string>,
    version: Option<string>,
    isPrivate: bool,
    dependencies: seq<(string, string)>,
    peerDependencies: seq<(string, string)>,
    optionalDependencies: seq<(string, string)>)

  predicate Publishable(entry: Option<Manifest>) {
    entry.Some? && !entry.value.isPrivate && entry.value.name.Some? && entry.value.version.Some?
  }

  /** The last publishable manifest of each name. */
  function Manifests(entries: seq<Option<Manifest>>): (m: map<string, Manifest>)
    ensures forall n :: n in m ==> Publishable(Some(m[n])) && m[n].name == Some(n)
  {
    if entries == [] then map[]
    else
      var before, entry := Manifests(entries[..|entries| - 1]), entries[|entries| - 1];
      if Publishable(entry) then before[entry.value.name.value := entry.value] else before
  }

  /** `m` pins `d`: some runtime field gives it a workspace range. */
  predicate Pins(m: Manifest, d: string) {
    exists e :: e in m.dependencies + m.peerDependencies + m.optionalDependencies && e.0 == d && IsWorkspaceRange(e.1)
  }

  function ByName(packages: seq<Package>): map<string, Package> {
    if packages == [] then map[]
    else
      var last := packages[|packages| - 1];
      ByName(packages[..|packages| - 1])[last.name := last]
  }

  ghost predicate UniqueNames(packages: seq<Package>) {
    forall i, j :: 0 <= i < j < |packages| ==> packages[i].name != packages[j].name
  }

  /** Every dependency named by a package is itself one of the packages. */
  ghost predicate KnownDependencies(packages: seq<Package>) {
    forall p, d :: p in packages && d in p.workspaceDependencies ==> d in ByName(packages)
  }

  lemma {:induction false} ByNameFinds(packages: seq<Package>)
    ensures forall n :: n in ByName(packages) <==> exists i :: 0 <= i < |packages| && packages[i].name == n
    ensures forall n :: n in ByName(packages) ==> ByName(packages)[n] in packages && ByName(packages)[n].name == n
    ensures UniqueNames(packages) ==> forall p :: p in packages ==> ByName(packages)[p.name] == p
  {
    if packages == [] {
    } else {
      var init, last := packages[..|packages| - 1], packages[|packages| - 1];
      ByNameFinds(init);
      assert packages == init + [last];
      forall n ensures n in ByName(packages) <==> exists i :: 0 <= i < |packages| && packages[i].name == n {
        if n in ByName(init) {
          var i :| 0 <= i < |init| && init[i].name == n;
          assert packages[i].name == n;
        } else if n != last.name {
          assert forall i :: 0 <= i < |init| ==> packages[i] == init[i];
        } else {
          assert packages[|init|].name == n;
        }
      }
    }
  }

  /** The names a manifest pins among the known ones, each listed once. */
  method WorkspaceDependencies(m: Manifest, known: map<string, Manifest>) returns (deps: seq<string>)
    ensures Distinct(deps)
    ensures forall d :: d in deps <==> d in known && Pins(m, d)
  {
    deps := [];
    var fields := [m.dependencies, m.peerDependencies, m.optionalDependencies];
    ghost var seen: seq<(string, string)> := [];
    for f := 0 to 3
      invariant Distinct(deps)
      invariant seen == [[], m.dependencies, m.dependencies + m.peerDependencies,
                         m.dependencies + m.peerDependencies + m.optionalDependencies][f]
      invariant forall d :: d in deps <==> d in known && exists e :: e in seen && e.0 == d && IsWorkspaceRange(e.1)
    {
      deps, seen := AddField(fields[f], known, deps, seen);
    }
  }

  method AddField(entries: seq<(string, string)>, known: map<string, Manifest>, before: seq<string>,
                  ghost seenBefore: seq<(string, string)>)
    returns (deps: seq<string>, ghost seen: seq<(string, string)>)
    requires Distinct(before)
    requires forall d :: d in before <==> d in known && exists e :: e in seenBefore && e.0 == d && IsWorkspaceRange(e.1)
    ensures Distinct(deps) && seen == seenBefore + entries
    ensures forall d :: d in deps <==> d in known && exists e :: e in seen && e.0 == d && IsWorkspaceRange(e.1)
  {
    deps, seen := before, seenBefore;
    for i := 0 to |entries|
      invariant Distinct(deps) && seen == seenBefore + entries[..i]
      invariant forall d :: d in deps <==> d in known && exists e :: e in seen && e.0 == d && IsWorkspaceRange(e.1)
    {
      var (dependency, range) := entries[i];
      ghost var was := seen;
      seen := seen + [entries[i]];
      assert forall e :: e in seen <==> e in was || e == entries[i];
      if dependency in known && IsWorkspaceRange(range) && dependency !in deps {
        deps := deps + [dependency];
      }
    }
  }

  /** The package that a manifest is read as. */
  ghost predicate ReadAs(manifests: map<string, Manifest>, p: Package) {
    && p.name in manifests
    && var m := manifests[p.name];
       && Some(p.version) == m.version && p.dir == m.dir && p.access == (if m.access.Some? then m.access.value else "public")
       && Distinct(p.workspaceDependencies) && Ordered(AtMost, p.workspaceDependencies)
       && forall d :: d in p.workspaceDependencies <==> d in manifests && Pins(m, d)
  }

  // ---------------------------------------------------------------- what is found, in terms of the files

  /** The i-th package.json that was looked at is that of a public package of this name. */
  ghost predicate IsPublic(entries: seq<Option<Manifest>>, i: nat, name: string) {
    && i < |entries| && entries[i].Some?
    && entries[i].value.name == Some(name) && !entries[i].value.isPrivate && entries[i].value.version.Some?
  }

  /** It is the last one of that name, and has this version. */
  ghost predicate IsLast(entries: seq<Option<Manifest>>, i: nat, name: string, version: string) {
    && IsPublic(entries, i, name) && entries[i].value.version == Some(version)
    && forall j: nat :: i < j < |entries| ==> !IsPublic(entries, j, name)
  }

  ghost predicate SomePublic(entries: seq<Option<Manifest>>, name: string) {
    exists i: nat :: IsPublic(entries, i, name)
  }

  /** Some field that matters at run time gives the package a workspace range. */
  ghost predicate NeedsAtRunTime(m: Manifest, d: string) {
    || (exists e :: e in m.dependencies && e.0 == d && "workspace:" <= e.1)
    || (exists e :: e in m.peerDependencies && e.0 == d && "workspace:" <= e.1)
    || (exists e :: e in m.optionalDependencies && e.0 == d && "workspace:" <= e.1)
  }

  /** The package is what the last public package.json of its name says. */
  ghost predicate IsFoundIn(entries: seq<Option<Manifest>>, p: Package) {
    exists i: nat :: IsLast(entries, i, p.name, p.version) && Describes(entries, entries[i].value, p)
  }

  ghost predicate Describes(entries: seq<Option<Manifest>>, m: Manifest, p: Package) {
    && p.dir == m.dir && (if m.access.None? then p.access == "public" else p.access == m.access.value)
    && Distinct(p.workspaceDependencies) && Ordered(AtMost, p.workspaceDependencies)
    && forall d :: d in p.workspaceDependencies <==> SomePublic(entries, d) && NeedsAtRunTime(m, d)
  }

  /** Every public package is found, and nothing else. */
  ghost predicate FindsPublic(entries: seq<Option<Manifest>>, packages: seq<Package>) {
    && (forall p :: p in packages ==> IsFoundIn(entries, p))
    && (forall name :: SomePublic(entries, name) ==> exists p :: p in packages && p.name == name)
  }

  lemma {:induction false} ManifestIsLast(entries: seq<Option<Manifest>>, name: string) returns (i: nat)
    ensures name in Manifests(entries) <==> SomePublic(entries, name)
    ensures name in Manifests(entries) ==>
      var m := Manifests(entries)[name];
      m.version.Some? && IsLast(entries, i, name, m.version.value) && entries[i] == Some(m)
  {
    i := 0;
    if entries == [] {
    } else {
      var init, n := entries[..|entries| - 1], |entries| - 1;
      i := ManifestIsLast(init, name);
      assert entries == init + [entries[n]];
      assert forall j :: 0 <= j < n ==> (IsPublic(init, j, name) <==> IsPublic(entries, j, name));
      if IsPublic(entries, n, name) {
        i := n;
      }
    }
  }

  lemma FoundIn(entries: seq<Option<Manifest>>, p: Package)
    requires ReadAs(Manifests(entries), p)
    ensures IsFoundIn(entries, p)
  {
    var i := ManifestIsLast(entries, p.name);
    forall d ensures d in p.workspaceDependencies <==> SomePublic(entries, d) && NeedsAtRunTime(entries[i].value, d) {
      var j := ManifestIsLast(entries, d);
      PinsAtRunTime(entries[i].value, d);
    }
    assert Describes(entries, entries[i].value, p);
  }

  lemma PinsAtRunTime(m: Manifest, d: string)
    ensures Pins(m, d) <==> NeedsAtRunTime(m, d)
  {
    if NeedsAtRunTime(m, d) {
      var e :| (e in m.dependencies || e in m.peerDependencies || e in m.optionalDependencies) && e.0 == d && "workspace:" <= e.1;
      assert e in m.dependencies + m.peerDependencies + m.optionalDependencies;
    }
  }

  lemma AllFound(entries: seq<Option<Manifest>>, packages: seq<Package>)
    requires ByName(packages).Keys == Manifests(entries).Keys
    requires forall p :: p in packages ==> ReadAs(Manifests(entries), p)
    ensures FindsPublic(entries, packages)
  {
    forall p | p in packages ensures IsFoundIn(entries, p) {
      FoundIn(entries, p);
    }
    ByNameFinds(packages);
    forall name | SomePublic(entries, name) ensures exists p :: p in packages && p.name == name {
      var i := ManifestIsLast(entries, name);
      assert name in ByName(packages);
    }
  }

  /** The order by name that `localeCompare` gives. */
  function ByLocale(locale: (string, string) -> bool): (Package, Package) -> bool {
    (a: Package, b: Package) => locale(a.name, b.name)
  }

  method FindPublishablePackages(entries: seq<Option<Manifest>>, locale: (string, string) -> bool) returns (packages: seq<Package>)
    requires TotalPreorder(locale)
    ensures UniqueNames(packages)
    ensures KnownDependencies(packages)
    ensures FindsPublic(entries, packages)
    ensures ByName(packages).Keys == Manifests(entries).Keys
    ensures forall p :: p in packages ==> ReadAs(Manifests(entries), p)
    ensures Ordered(ByLocale(locale), packages)
  {
    var manifests: map<string, Manifest>, names: seq<string> := map[], [];
    for i := 0 to |entries|
      invariant manifests == Manifests(entries[..i])
      invariant Distinct(names) && forall n :: n in names <==> n in manifests
    {
      assert entries[..i + 1][..i] == entries[..i];
      if Publishable(entries[i]) {
        var name := entries[i].value.name.value;
        if name !in manifests {
          names := names + [name];
        }
        manifests := manifests[name := entries[i].value];
      }
    }
    assert entries[..|entries|] == entries;
    packages := [];
    for i := 0 to |names|
      invariant |packages| == i && forall k :: 0 <= k < i ==> packages[k].name == names[k]
      invariant forall p :: p in packages ==> ReadAs(manifests, p)
    {
      var m := manifests[names[i]];
      var deps := WorkspaceDependencies(m, manifests);
      SortedNames(deps);
      var access := if m.access.Some? then m.access.value else "public";
      packages := packages + [Package(names[i], m.version.value, m.dir, access, SortBy(AtMost, deps))];
    }
    SortedPackages(packages, names, manifests, locale);
    packages := SortBy(ByLocale(locale), packages);
    AllFound(entries, packages);
  }

  lemma SortedNames(names: seq<string>)
    requires Distinct(names)
    ensures var sorted := SortBy(AtMost, names);
      Distinct(sorted) && Ordered(AtMost, sorted) && forall n :: n in sorted <==> n in names
  {
    StringsOrdered();
    SortBySorts(AtMost, names);
    StillDistinct(names, SortBy(AtMost, names));
    SameMembers(AtMost, names);
  }

  lemma StillDistinct<T(!new)>(a: seq<T>, b: seq<T>)
    requires Distinct(a) && multiset(a) == multiset(b)
    ensures Distinct(b)
  {
    forall i, j | 0 <= i < j < |b| ensures b[i] != b[j] {
      if b[i] == b[j] {
        assert b == b[..i] + [b[i]] + b[i + 1..j] + [b[j]] + b[j + 1..];
        assert multiset(b)[b[i]] >= 2;
        OnceAtMost(a, b[i]);
      }
    }
  }

  lemma {:induction false} OnceAtMost<T(!new)>(a: seq<T>, x: T)
    requires Distinct(a)
    ensures multiset(a)[x] <= 1
  {
    if a == [] {
    } else {
      var init := a[..|a| - 1];
      assert a == init + [a[|a| - 1]];
      OnceAtMost(init, x);
      assert x in multiset(init) ==> x in init;
    }
  }

  lemma SortedPackages(packages: seq<Package>, names: seq<string>, manifests: map<string, Manifest>, locale: (string, string) -> bool)
    requires TotalPreorder(locale) && Distinct(names) && |packages| == |names|
    requires forall k :: 0 <= k < |names| ==> packages[k].name == names[k]
    requires forall n :: n in names <==> n in manifests
    requires forall p :: p in packages ==> ReadAs(manifests, p)
    ensures var sorted := SortBy(ByLocale(locale), packages);
      && Ordered(ByLocale(locale), sorted) && UniqueNames(sorted) && KnownDependencies(sorted)
      && ByName(sorted).Keys == manifests.Keys && forall p :: p in sorted ==> ReadAs(manifests, p)
  {
    LocaleOrders(locale);
    SortBySorts(ByLocale(locale), packages);
    SameMembers(ByLocale(locale), packages);
    UniqueByCount(packages, SortBy(ByLocale(locale), packages));
    NamedLikeManifests(SortBy(ByLocale(locale), packages), packages, names, manifests);
  }

  lemma LocaleOrders(locale: (string, string) -> bool)
    requires TotalPreorder(locale)
    ensures TotalPreorder(ByLocale(locale))
  {
    forall a, b ensures ByLocale(locale)(a, b) || ByLocale(locale)(b, a) {
      assert locale(a.name, b.name) || locale(b.name, a.name);
    }
    forall a, b, c | ByLocale(locale)(a, b) && ByLocale(locale)(b, c) ensures ByLocale(locale)(a, c) {
      assert locale(a.name, b.name) && locale(b.name, c.name);
    }
  }

  lemma NamedLikeManifests(sorted: seq<Package>, packages: seq<Package>, names: seq<string>, manifests: map<string, Manifest>)
    requires |packages| == |names| && forall k :: 0 <= k < |names| ==> packages[k].name == names[k]
    requires forall n :: n in names <==> n in manifests
    requires forall p :: p in sorted <==> p in packages
    ensures ByName(sorted).Keys == manifests.Keys
  {
    ByNameFinds(sorted);
    assert forall p :: p in packages ==> p.name in names;
    forall n ensures n in ByName(sorted) <==> n in manifests {
      if n in manifests {
        var k :| 0 <= k < |names| && names[k] == n;
        assert packages[k] in sorted;
        var i :| 0 <= i < |sorted| && sorted[i] == packages[k];
      }
    }
  }

  lemma UniqueByCount(a: seq<Package>, b: seq<Package>)
    requires UniqueNames(a) && multiset(a) == multiset(b)
    ensures UniqueNames(b)
  {
    StillDistinct(a, b);
    forall i, j | 0 <= i < j < |b| ensures b[i].name != b[j].name {
      assert b[i] in multiset(a) && b[j] in multiset(a);
      assert b[i] in a && b[j] in a;
    }
  }
}
