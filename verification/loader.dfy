// The module hooks that load a config file without caching (packages/config/src/load.ts).
// Modules whose URL carries the no-cache parameter are loaded afresh, pass the parameter on
// to what they import, and are recorded as dependencies of the config.

module Loader {
  import opened Common

  type Query = seq<(string, string)>

  datatype Url =
    | FileUrl(path: string, query: Query)
    | OtherUrl(text: string, query: Query)
    | CfWorkerUrl(entrypoint: string)

  const CF_NO_CACHE_QUERY_KEY: string := "cf-no-cache"

  /** An import statement: its specifier, the URL that default resolution gives it, and its
      attributes. */
  datatype Import = Import(specifier: string, target: Url, isCfWorker: bool, isNoCache: bool)

  /** The modules on disk: what the module at a URL imports, which URLs match the node_modules
      pattern, and the file that a relative specifier denotes next to a module. */
  datatype World = World(imports: Url -> seq<Import>, inNodeModules: Url -> bool, anchor: (Url, string) -> string)

  // ---------------------------------------------------------------- search parameters

  /** URLSearchParams.get: the first value of the key. */
  function Get(query: Query, key: string): Option<string> {
    if query == [] then None
    else if query[0].0 == key then Some(query[0].1)
    else Get(query[1..], key)
  }

  function Without(query: Query, key: string): Query {
    if query == [] then []
    else (if query[0].0 == key then [] else [query[0]]) + Without(query[1..], key)
  }

  /** URLSearchParams.set: replaces the first entry of the key, drops the others, or appends. */
  function Set(query: Query, key: string, value: string): Query {
    if query == [] then [(key, value)]
    else if query[0].0 == key then [(key, value)] + Without(query[1..], key)
    else [query[0]] + Set(query[1..], key, value)
  }

  /** Setting a parameter is what a later get sees; the other parameters stay as they are. */
  lemma {:induction false} GetAfterSet(query: Query, key: string, value: string, other: string)
    ensures Get(Set(query, key, value), key) == Some(value)
    ensures other != key ==> Get(Set(query, key, value), other) == Get(query, other)
  {
    if query != [] {
      if query[0].0 == key {
        assert ([(key, value)] + Without(query[1..], key))[1..] == Without(query[1..], key);
        GetWithout(query[1..], key, other);
      } else {
        assert ([query[0]] + Set(query[1..], key, value))[1..] == Set(query[1..], key, value);
        GetAfterSet(query[1..], key, value, other);
      }
    } else {
      assert [(key, value)][1..] == [];
    }
  }

  lemma {:induction false} GetWithout(query: Query, key: string, other: string)
    ensures other != key ==> Get(Without(query, key), other) == Get(query, other)
  {
    if query == [] {
    } else {
      GetWithout(query[1..], key, other);
      if query[0].0 == key {
        assert Without(query, key) == Without(query[1..], key);
      } else {
        assert ([query[0]] + Without(query[1..], key))[1..] == Without(query[1..], key);
      }
    }
  }

  // ---------------------------------------------------------------- the resolve hook

  /** The value of the parameter; an empty one counts as none. */
  function UuidOf(url: Url): Option<string> {
    if url.CfWorkerUrl? then None
    else
      var uuid := Get(url.query, CF_NO_CACHE_QUERY_KEY);
      if uuid == Some("") then None else uuid
  }

  /** getParentUUID; some resolutions have no parent. */
  function ParentUuid(parent: Option<Url>): Option<string> {
    if parent.Some? then UuidOf(parent.value) else None
  }

  /** appendUUID */
  function Stamp(url: Url, uuid: string): Url
    requires url.FileUrl?
  {
    FileUrl(url.path, Set(url.query, CF_NO_CACHE_QUERY_KEY, uuid))
  }

  /** The URL of the same file with the parameter set to this value, and the others as they were. */
  ghost predicate Marked(url: Url, target: Url, uuid: string) {
    && url.FileUrl? && target.FileUrl? && url.path == target.path && Get(url.query, "cf-no-cache") == Some(uuid)
    && forall key :: key != "cf-no-cache" ==> Get(url.query, key) == Get(target.query, key)
  }

  lemma StampMarks(url: Url, uuid: string)
    requires url.FileUrl?
    ensures Marked(Stamp(url, uuid), url, uuid)
  {
    forall key ensures key != CF_NO_CACHE_QUERY_KEY ==> Get(Stamp(url, uuid).query, key) == Get(url.query, key) {
      GetAfterSet(url.query, CF_NO_CACHE_QUERY_KEY, uuid, key);
    }
    GetAfterSet(url.query, CF_NO_CACHE_QUERY_KEY, uuid, "");
  }

  predicate IsRelative(specifier: string) {
    "./" <= specifier || "../" <= specifier
  }

  /** What a cf-worker reference names: relative specifiers are anchored to the importing module. */
  function Entrypoint(w: World, parent: Option<Url>, specifier: string): string {
    if IsRelative(specifier) && parent.Some? then w.anchor(parent.value, specifier) else specifier
  }

  /** The import leads to a file that belongs to the config's own graph. */
  predicate Trackable(w: World, imp: Import) {
    !imp.isCfWorker && imp.target.FileUrl? && !w.inNodeModules(imp.target)
  }

  /** Whether the hook records the import, found in the module at `parent`. */
  predicate Tracks(w: World, parent: Option<Url>, imp: Import) {
    Trackable(w, imp) && (ParentUuid(parent).Some? || imp.isNoCache)
  }

  function Resolved(w: World, parent: Option<Url>, imp: Import, drawn: string): Url {
    if imp.isCfWorker then CfWorkerUrl(Entrypoint(w, parent, imp.specifier))
    else if Tracks(w, parent, imp) then Stamp(imp.target, if ParentUuid(parent).Some? then ParentUuid(parent).value else drawn)
    else imp.target
  }

  class Hooks {
    const world: World
    var dependencies: set<string>

    constructor (world: World)
      ensures this.world == world && dependencies == {}
    {
      this.world := world;
      dependencies := {};
    }

    /** The resolve hook; `drawn` is the UUID it would draw. */
    method Resolve(parent: Option<Url>, imp: Import, drawn: string) returns (url: Url)
      modifies this
      ensures url == Resolved(world, parent, imp, drawn)
      ensures imp.isCfWorker ==> dependencies == old(dependencies)
      ensures imp.isCfWorker && parent.Some? && ("./" <= imp.specifier || "../" <= imp.specifier) ==>
        url == CfWorkerUrl(world.anchor(parent.value, imp.specifier))
      ensures imp.isCfWorker && (parent.None? || !("./" <= imp.specifier || "../" <= imp.specifier)) ==>
        url == CfWorkerUrl(imp.specifier)
      ensures !imp.isCfWorker ==>
        if imp.target.FileUrl? && !world.inNodeModules(imp.target) && (ParentUuid(parent).Some? || imp.isNoCache)
        then dependencies == old(dependencies) + {imp.target.path}
          && Marked(url, imp.target, if ParentUuid(parent).Some? then ParentUuid(parent).value else drawn)
        else dependencies == old(dependencies) && url == imp.target
      ensures dependencies == old(dependencies) + if Tracks(world, parent, imp) then {imp.target.path} else {}
    {
      if imp.isCfWorker {
        var isRelative := "./" <= imp.specifier || "../" <= imp.specifier;
        return CfWorkerUrl(if isRelative && parent.Some? then world.anchor(parent.value, imp.specifier) else imp.specifier);
      }
      url := imp.target;
      if world.inNodeModules(url) {
        return;
      }
      if !url.FileUrl? {
        return;
      }
      var parentUuid := ParentUuid(parent);
      if parentUuid.None? && !imp.isNoCache {
        return;
      }
      dependencies := dependencies + {url.path};
      StampMarks(url, if parentUuid.Some? then parentUuid.value else drawn);
      url := Stamp(url, if parentUuid.Some? then parentUuid.value else drawn);
    }
  }

  // ---------------------------------------------------------------- loading

  /** What the loader finds in the module at a URL; the load hook answers for a cf-worker
      URL with a module that imports nothing. */
  function ImportsOf(w: World, url: Url): seq<Import> {
    if url.CfWorkerUrl? then [] else w.imports(url)
  }

  /** The UUID drawn when the module at a URL resolves an import that needs one. */
  type Draw = (Url, Import) -> string

  /** The config's UUID is new: it is drawn only once and no import statement spells it out. */
  ghost predicate IsNew(w: World, uuid: string, draw: Draw) {
    && uuid != ""
    && forall u, imp :: imp in ImportsOf(w, u) ==> UuidOf(imp.target) != Some(uuid) && draw(u, imp) != uuid && draw(u, imp) != ""
  }

  /** Where an import in the module at `u` leads. */
  function Target(w: World, u: Url, imp: Import, draw: Draw): Url {
    Resolved(w, Some(u), imp, draw(u, imp))
  }

  /** A finite set of URLs that loading from one of them does not leave. */
  ghost predicate ClosedUnderImports(w: World, urls: set<Url>, draw: Draw) {
    forall u, imp :: u in urls && imp in ImportsOf(w, u) ==> Target(w, u, imp, draw) in urls
  }

  // ---------------------------------------------------------------- routes

  type Edges = (Url, Url) -> bool

  ghost predicate IsRoute(edges: Edges, route: seq<Url>) {
    |route| >= 1 && forall i :: 0 <= i < |route| - 1 ==> edges(route[i], route[i + 1])
  }

  ghost predicate Connected(edges: Edges, a: Url, b: Url) {
    exists route :: IsRoute(edges, route) && route[0] == a && route[|route| - 1] == b
  }

  lemma ConnectedToItself(edges: Edges, a: Url)
    ensures Connected(edges, a, a)
  {
    assert IsRoute(edges, [a]) && [a][0] == a && [a][|[a]| - 1] == a;
  }

  lemma ConnectedOn(edges: Edges, a: Url, u: Url, v: Url)
    requires Connected(edges, a, u) && edges(u, v)
    ensures Connected(edges, a, v)
  {
    var route :| IsRoute(edges, route) && route[0] == a && route[|route| - 1] == u;
    var longer := route + [v];
    forall i | 0 <= i < |longer| - 1 ensures edges(longer[i], longer[i + 1]) {
      assert i < |route| - 1 ==> edges(route[i], route[i + 1]);
    }
    assert IsRoute(edges, longer) && longer[0] == a && longer[|longer| - 1] == v;
  }

  /** What is connected to `a` is `a` or follows something connected to it. */
  lemma LastEdge(edges: Edges, a: Url, v: Url) returns (u: Url)
    requires Connected(edges, a, v) && v != a
    ensures Connected(edges, a, u) && edges(u, v)
  {
    var route :| IsRoute(edges, route) && route[0] == a && route[|route| - 1] == v;
    var init := route[..|route| - 1];
    u := init[|init| - 1];
    assert edges(route[|route| - 2], route[|route| - 2 + 1]);
    RoutePrefix(edges, route);
    assert init[0] == a;
  }

  lemma RoutePrefix(edges: Edges, route: seq<Url>)
    requires IsRoute(edges, route) && |route| > 1
    ensures IsRoute(edges, route[..|route| - 1])
  {
    var init := route[..|route| - 1];
    forall i | 0 <= i < |init| - 1 ensures edges(init[i], init[i + 1]) {
      assert edges(route[i], route[i + 1]);
    }
  }

  /** A route does not leave a set that no edge leaves. */
  lemma {:induction false} StaysInside(edges: Edges, inside: set<Url>, route: seq<Url>)
    requires IsRoute(edges, route) && route[0] in inside
    requires forall u, v :: u in inside && edges(u, v) ==> v in inside
    ensures route[|route| - 1] in inside
  {
    if |route| == 1 {
    } else {
      RoutePrefix(edges, route);
      StaysInside(edges, inside, route[..|route| - 1]);
      assert edges(route[|route| - 2], route[|route| - 2 + 1]);
    }
  }

  // ---------------------------------------------------------------- what is reached

  /** `v` is imported by `u`, as the hook resolves the import. */
  ghost predicate LoadEdge(w: World, u: Url, v: Url, draw: Draw) {
    exists imp :: imp in ImportsOf(w, u) && v == Target(w, u, imp, draw)
  }

  ghost function LoadEdges(w: World, draw: Draw): Edges {
    (u, v) => LoadEdge(w, u, v, draw)
  }

  /** Loading the root comes to load `v`. */
  ghost predicate Loads(w: World, root: Url, v: Url, draw: Draw) {
    Connected(LoadEdges(w, draw), root, v)
  }

  /** `v` is imported by `u` along an edge of the config's own graph. */
  ghost predicate OwnEdge(w: World, u: Url, v: Url, uuid: string) {
    exists imp :: imp in ImportsOf(w, u) && !imp.isCfWorker && imp.target.FileUrl? && !w.inNodeModules(imp.target)
      && v == Stamp(imp.target, uuid)
  }

  ghost function OwnEdges(w: World, uuid: string): Edges {
    (u, v) => OwnEdge(w, u, v, uuid)
  }

  /** `v` can be reached from the root through files outside node_modules, never passing a
      cf-worker reference. */
  ghost predicate Reachable(w: World, root: Url, v: Url, uuid: string) {
    Connected(OwnEdges(w, uuid), root, v)
  }

  /** The import brings in a UUID that its module does not have: a module outside any such
      graph asks for no-cache loading of a file, or spells out the parameter. */
  predicate IsStray(w: World, u: Url, imp: Import) {
    !imp.isCfWorker &&
      if imp.target.FileUrl? && !w.inNodeModules(imp.target) && (UuidOf(u).Some? || imp.isNoCache)
      then UuidOf(u).None? else UuidOf(imp.target).Some?
  }

  /** No module in the import graph below the root has a stray import. */
  ghost predicate NoStrayBelow(w: World, root: Url, draw: Draw) {
    forall u, imp :: Loads(w, root, u, draw) && imp in ImportsOf(w, u) ==> !IsStray(w, u, imp)
  }

  /** The import is of that file, outside node_modules and no cf-worker reference, in a module
      with the parameter or with the attribute that asks for it. */
  predicate NamesTracked(w: World, u: Url, imp: Import, path: string) {
    && !imp.isCfWorker && imp.target.FileUrl? && imp.target.path == path && !w.inNodeModules(imp.target)
    && (UuidOf(u).Some? || imp.isNoCache)
  }

  /** Some import below the root is tracked and names the file. */
  ghost predicate TrackedBelow(w: World, root: Url, path: string, draw: Draw) {
    exists u, imp :: Loads(w, root, u, draw) && imp in ImportsOf(w, u) && NamesTracked(w, u, imp, path)
  }

  lemma StampCarries(url: Url, uuid: string)
    requires url.FileUrl? && uuid != ""
    ensures UuidOf(Stamp(url, uuid)) == Some(uuid)
  {
    GetAfterSet(url.query, CF_NO_CACHE_QUERY_KEY, uuid, "");
  }

  /** Everything reachable from a root that carries the UUID is a file that carries it too. */
  lemma ReachableCarries(w: World, root: Url, v: Url, uuid: string)
    requires uuid != "" && root.FileUrl? && UuidOf(root) == Some(uuid) && Reachable(w, root, v, uuid)
    ensures v.FileUrl? && UuidOf(v) == Some(uuid)
  {
    if v != root {
      var u := LastEdge(OwnEdges(w, uuid), root, v);
      var imp :| imp in ImportsOf(w, u) && !imp.isCfWorker && imp.target.FileUrl? && !w.inNodeModules(imp.target)
      && v == Stamp(imp.target, uuid);
      StampCarries(imp.target, uuid);
    }
  }

  /** An edge of the config's own graph is one of loading, from a module with the UUID. */
  lemma OwnEdgeLoads(w: World, u: Url, v: Url, uuid: string, draw: Draw)
    requires UuidOf(u) == Some(uuid) && OwnEdge(w, u, v, uuid)
    ensures LoadEdge(w, u, v, draw)
  {
    var imp :| imp in ImportsOf(w, u) && !imp.isCfWorker && imp.target.FileUrl? && !w.inNodeModules(imp.target)
      && v == Stamp(imp.target, uuid);
    assert v == Target(w, u, imp, draw);
  }

  /** Whatever is reachable is loaded. */
  lemma {:induction false} ReachableLoads(w: World, root: Url, route: seq<Url>, uuid: string, draw: Draw)
    requires uuid != "" && root.FileUrl? && UuidOf(root) == Some(uuid)
    requires IsRoute(OwnEdges(w, uuid), route) && route[0] == root
    ensures Loads(w, root, route[|route| - 1], draw)
  {
    if |route| == 1 {
      ConnectedToItself(LoadEdges(w, draw), root);
    } else {
      var init, u, v := route[..|route| - 1], route[|route| - 2], route[|route| - 1];
      RoutePrefix(OwnEdges(w, uuid), route);
      ReachableLoads(w, root, init, uuid, draw);
      assert Connected(OwnEdges(w, uuid), root, u) by {
        assert init[0] == root && init[|init| - 1] == u;
      }
      ReachableCarries(w, root, u, uuid);
      assert OwnEdges(w, uuid)(route[|route| - 2], route[|route| - 2 + 1]);
      OwnEdgeLoads(w, u, v, uuid, draw);
      ConnectedOn(LoadEdges(w, draw), root, u, v);
    }
  }

  // ---------------------------------------------------------------- one UUID

  /** A stray import brings in another UUID than the config's. */
  lemma StrayMarks(w: World, u: Url, imp: Import, uuid: string, draw: Draw)
    requires IsNew(w, uuid, draw) && imp in ImportsOf(w, u) && IsStray(w, u, imp)
    ensures UuidOf(Target(w, u, imp, draw)).Some? && UuidOf(Target(w, u, imp, draw)) != Some(uuid)
  {
    if Tracks(w, Some(u), imp) {
      StampCarries(imp.target, draw(u, imp));
    }
  }

  /** The module is untouched by the parameter, or carries the one UUID of the root and is
      reachable from it. */
  ghost predicate Sound(w: World, root: Url, u: Url, uuid: string) {
    UuidOf(u).None? || (u.FileUrl? && UuidOf(u) == Some(uuid) && UuidOf(root) == Some(uuid) && Reachable(w, root, u, uuid))
  }

  /** Imports that are not stray keep modules sound. */
  lemma SoundOn(w: World, root: Url, u: Url, imp: Import, uuid: string, draw: Draw)
    requires uuid != "" && imp in ImportsOf(w, u) && Sound(w, root, u, uuid) && !IsStray(w, u, imp)
    ensures Sound(w, root, Target(w, u, imp, draw), uuid)
  {
    if Tracks(w, Some(u), imp) {
      var v := Target(w, u, imp, draw);
      StampCarries(imp.target, uuid);
      assert OwnEdge(w, u, v, uuid);
      ConnectedOn(OwnEdges(w, uuid), root, u, v);
    }
  }

  /** Without stray imports below the root, everything loaded is sound. */
  lemma {:induction false} AllSound(w: World, root: Url, route: seq<Url>, uuid: string, draw: Draw)
    requires uuid != "" && Sound(w, root, root, uuid) && NoStrayBelow(w, root, draw)
    requires IsRoute(LoadEdges(w, draw), route) && route[0] == root
    ensures Sound(w, root, route[|route| - 1], uuid)
  {
    if |route| == 1 {
    } else {
      var init, u, v := route[..|route| - 1], route[|route| - 2], route[|route| - 1];
      RoutePrefix(LoadEdges(w, draw), route);
      AllSound(w, root, init, uuid, draw);
      assert Loads(w, root, u, draw) by {
        assert init[0] == root && init[|init| - 1] == u;
      }
      assert LoadEdges(w, draw)(route[|route| - 2], route[|route| - 2 + 1]);
      var imp :| imp in ImportsOf(w, u) && v == Target(w, u, imp, draw);
      SoundOn(w, root, u, imp, uuid, draw);
    }
  }

  lemma LoadedIsSound(w: World, root: Url, v: Url, uuid: string, draw: Draw)
    requires uuid != "" && Sound(w, root, root, uuid) && NoStrayBelow(w, root, draw) && Loads(w, root, v, draw)
    ensures Sound(w, root, v, uuid)
  {
    var route :| IsRoute(LoadEdges(w, draw), route) && route[0] == root && route[|route| - 1] == v;
    AllSound(w, root, route, uuid, draw);
  }

  /** All modules loaded with the parameter carry the config's UUID. */
  ghost predicate OneUuid(w: World, root: Url, uuid: string, draw: Draw) {
    forall u :: Loads(w, root, u, draw) && UuidOf(u).Some? ==> UuidOf(u) == Some(uuid)
  }

  /** They do if and only if the import graph below the config has no stray import. */
  lemma OneUuidIffNoStray(w: World, root: Url, uuid: string, draw: Draw)
    requires IsNew(w, uuid, draw) && Sound(w, root, root, uuid)
    ensures OneUuid(w, root, uuid, draw) <==> NoStrayBelow(w, root, draw)
  {
    if NoStrayBelow(w, root, draw) {
      forall u | Loads(w, root, u, draw) && UuidOf(u).Some? ensures UuidOf(u) == Some(uuid) {
        LoadedIsSound(w, root, u, uuid, draw);
      }
    }
    if OneUuid(w, root, uuid, draw) {
      forall u, imp | Loads(w, root, u, draw) && imp in ImportsOf(w, u) ensures !IsStray(w, u, imp) {
        var v := Target(w, u, imp, draw);
        assert LoadEdge(w, u, v, draw);
        ConnectedOn(LoadEdges(w, draw), root, u, v);
        if IsStray(w, u, imp) {
          StrayMarks(w, u, imp, uuid, draw);
        }
      }
    }
  }

  /** Without stray imports no UUID is drawn below the config. */
  lemma {:induction false} NothingDrawn(w: World, root: Url, route: seq<Url>, draw: Draw, draw': Draw)
    requires NoStrayBelow(w, root, draw) && IsRoute(LoadEdges(w, draw'), route) && route[0] == root
    ensures Loads(w, root, route[|route| - 1], draw)
  {
    if |route| == 1 {
      ConnectedToItself(LoadEdges(w, draw), root);
    } else {
      var u, v := route[|route| - 2], route[|route| - 1];
      RoutePrefix(LoadEdges(w, draw'), route);
      NothingDrawn(w, root, route[..|route| - 1], draw, draw');
      assert LoadEdges(w, draw')(route[|route| - 2], route[|route| - 2 + 1]);
      var imp :| imp in ImportsOf(w, u) && v == Target(w, u, imp, draw');
      assert !IsStray(w, u, imp);
      assert v == Target(w, u, imp, draw);
      assert LoadEdge(w, u, v, draw);
      ConnectedOn(LoadEdges(w, draw), root, u, v);
    }
  }

  /** So whether there are any does not depend on the UUIDs that would be drawn: it can be read
      off the import graph before the load. */
  lemma StrayWhateverDrawn(w: World, root: Url, draw: Draw, draw': Draw)
    ensures NoStrayBelow(w, root, draw) <==> NoStrayBelow(w, root, draw')
  {
    NoStrayEither(w, root, draw, draw');
    NoStrayEither(w, root, draw', draw);
  }

  lemma NoStrayEither(w: World, root: Url, draw: Draw, draw': Draw)
    ensures NoStrayBelow(w, root, draw) ==> NoStrayBelow(w, root, draw')
  {
    if NoStrayBelow(w, root, draw) {
      forall u | Loads(w, root, u, draw') ensures Loads(w, root, u, draw) {
        var route :| IsRoute(LoadEdges(w, draw'), route) && route[0] == root && route[|route| - 1] == u;
        NothingDrawn(w, root, route, draw, draw');
      }
    }
  }

  // ---------------------------------------------------------------- the files recorded

  /** The file is reachable from the root. */
  ghost predicate ReachableFile(w: World, root: Url, path: string, uuid: string) {
    exists u :: Reachable(w, root, u, uuid) && u.FileUrl? && u.path == path
  }

  /** Every reachable file is the config or named by a tracked import. */
  lemma ReachableIsTracked(w: World, root: Url, path: string, uuid: string, draw: Draw)
    requires uuid != "" && root.FileUrl? && UuidOf(root) == Some(uuid) && ReachableFile(w, root, path, uuid)
    ensures path == root.path || TrackedBelow(w, root, path, draw)
  {
    var v :| Reachable(w, root, v, uuid) && v.FileUrl? && v.path == path;
    if v != root {
      var u := LastEdge(OwnEdges(w, uuid), root, v);
      var imp :| imp in ImportsOf(w, u) && !imp.isCfWorker && imp.target.FileUrl? && !w.inNodeModules(imp.target)
      && v == Stamp(imp.target, uuid);
      var route :| IsRoute(OwnEdges(w, uuid), route) && route[0] == root && route[|route| - 1] == u;
      ReachableLoads(w, root, route, uuid, draw);
      ReachableCarries(w, root, u, uuid);
      assert Tracks(w, Some(u), imp);
    }
  }

  /** Without stray imports below the config, tracked imports name reachable files only. */
  lemma TrackedIsReachable(w: World, root: Url, path: string, uuid: string, draw: Draw)
    requires uuid != "" && Sound(w, root, root, uuid) && NoStrayBelow(w, root, draw) && TrackedBelow(w, root, path, draw)
    ensures UuidOf(root) == Some(uuid) && ReachableFile(w, root, path, uuid)
  {
    var u, imp :| Loads(w, root, u, draw) && imp in ImportsOf(w, u) && NamesTracked(w, u, imp, path);
    LoadedIsSound(w, root, u, uuid, draw);
    assert !IsStray(w, u, imp);
    var v := Stamp(imp.target, uuid);
    assert OwnEdge(w, u, v, uuid);
    ConnectedOn(OwnEdges(w, uuid), root, u, v);
    assert v.path == path;
  }

  // ---------------------------------------------------------------- loading

  /** Loads a config file: resolves it, then every import of every module taken up, each module
      once. `from` is the module that calls loadConfig. It ends on any finite graph, cyclic or
      not, loads exactly what the imports lead to and records exactly the tracked ones. The
      reachable files are among them; they are the only ones if the import graph below the
      config has no stray import, and nothing is recorded then of a config inside node_modules. */
  method LoadConfig(hooks: Hooks, from: Url, config: Url, uuid: string, draw: Draw, ghost urls: set<Url>)
    returns (ghost root: Url, ghost loaded: set<Url>)
    requires IsNew(hooks.world, uuid, draw) && ClosedUnderImports(hooks.world, urls, draw)
    requires UuidOf(from).None? && UuidOf(config).None? && config.FileUrl?
    requires Resolved(hooks.world, Some(from), ConfigImport(config), uuid) in urls
    requires hooks.dependencies == {}
    modifies hooks
    ensures root == Resolved(hooks.world, Some(from), ConfigImport(config), uuid)
    ensures Sound(hooks.world, root, root, uuid) && (UuidOf(root) == Some(uuid) <==> !hooks.world.inNodeModules(config))
    ensures forall u :: u in loaded <==> Loads(hooks.world, root, u, draw)
    ensures forall path :: path in hooks.dependencies <==>
      (!hooks.world.inNodeModules(config) && path == config.path) || TrackedBelow(hooks.world, root, path, draw)
    ensures FollowsImports(hooks.world, loaded, hooks.dependencies)
    ensures !hooks.world.inNodeModules(config) ==>
      forall path :: ReachableFile(hooks.world, root, path, uuid) ==> path in hooks.dependencies
    ensures !hooks.world.inNodeModules(config) && NoStrayBelow(hooks.world, root, draw) ==>
      forall path :: path in hooks.dependencies <==> ReachableFile(hooks.world, root, path, uuid)
    ensures hooks.world.inNodeModules(config) && NoStrayBelow(hooks.world, root, draw) ==> hooks.dependencies == {}
  {
    var w := hooks.world;
    var first := hooks.Resolve(Some(from), ConfigImport(config), uuid);
    root := first;
    var taken, todo := {first}, [first];
    ghost var handled: set<Url> := {};
    RootIsSound(w, from, config, uuid);
    ConnectedToItself(LoadEdges(w, draw), root);
    while |todo| > 0
      invariant handled <= taken <= urls && first in taken && forall u :: u in todo ==> u in taken
      invariant forall u :: u in taken ==> u in handled || u in todo
      invariant forall u :: u in handled ==> Handled(w, u, taken, draw)
      invariant AllLoad(w, root, taken, draw)
      invariant Recorded(w, handled, hooks.dependencies, config)
      decreases urls - taken, |todo|
    {
      var u := todo[0];
      assert forall x :: x in todo <==> x == u || x in todo[1..];
      taken, todo := TakeImports(hooks, root, u, taken, todo[1..], draw, urls);
      OneMoreHandled(w, handled, u);
      handled := handled + {u};
    }
    loaded := taken;
    assert handled == taken;
    LoadedExactly(w, root, taken, draw);
    RecordedExactly(w, root, taken, hooks.dependencies, config, draw);
    DependenciesOf(w, root, config, hooks.dependencies, uuid, draw);
    ImportsFollowed(w, root, loaded, hooks.dependencies, draw);
  }

  /** Each file outside node_modules that a loaded module with the parameter imports, and not as
      a cf-worker reference, is recorded and loaded with the module's UUID. */
  ghost predicate FollowsImports(w: World, loaded: set<Url>, dependencies: set<string>) {
    forall u, imp :: u in loaded && imp in ImportsOf(w, u) && UuidOf(u).Some? ==>
      !imp.isCfWorker && imp.target.FileUrl? && !w.inNodeModules(imp.target) ==>
      imp.target.path in dependencies && LoadedAs(loaded, imp.target, UuidOf(u).value)
  }

  ghost predicate LoadedAs(loaded: set<Url>, target: Url, uuid: string) {
    exists v :: v in loaded && Marked(v, target, uuid)
  }

  lemma ImportsFollowed(w: World, root: Url, loaded: set<Url>, dependencies: set<string>, draw: Draw)
    requires forall u :: u in loaded <==> Loads(w, root, u, draw)
    requires forall path :: TrackedBelow(w, root, path, draw) ==> path in dependencies
    ensures FollowsImports(w, loaded, dependencies)
  {
    forall u, imp | u in loaded && UuidOf(u).Some? && imp in ImportsOf(w, u)
      && !imp.isCfWorker && imp.target.FileUrl? && !w.inNodeModules(imp.target)
      ensures imp.target.path in dependencies && LoadedAs(loaded, imp.target, UuidOf(u).value)
    {
      assert NamesTracked(w, u, imp, imp.target.path);
      assert TrackedBelow(w, root, imp.target.path, draw);
      var v := Target(w, u, imp, draw);
      assert LoadEdge(w, u, v, draw);
      ConnectedOn(LoadEdges(w, draw), root, u, v);
      StampMarks(imp.target, UuidOf(u).value);
      assert v in loaded;
    }
  }

  function ConfigImport(config: Url): Import {
    Import("", config, false, true)
  }

  lemma RootIsSound(w: World, from: Url, config: Url, uuid: string)
    requires uuid != "" && UuidOf(from).None? && UuidOf(config).None? && config.FileUrl?
    ensures var root := Resolved(w, Some(from), ConfigImport(config), uuid);
      && Sound(w, root, root, uuid) && root.FileUrl? && root.path == config.path
      && (UuidOf(root) == Some(uuid) <==> !w.inNodeModules(config))
  {
    StampCarries(config, uuid);
    ConnectedToItself(OwnEdges(w, uuid), Resolved(w, Some(from), ConfigImport(config), uuid));
  }

  /** The imports of `u` have been resolved and what they lead to has been taken up. */
  ghost predicate Handled(w: World, u: Url, loaded: set<Url>, draw: Draw) {
    forall imp :: imp in ImportsOf(w, u) ==> Target(w, u, imp, draw) in loaded
  }

  ghost predicate TrackedAmong(w: World, u: Url, imports: seq<Import>, path: string) {
    exists imp :: imp in imports && NamesTracked(w, u, imp, path)
  }

  ghost predicate TrackedBy(w: World, urls: set<Url>, path: string) {
    exists u :: u in urls && TrackedAmong(w, u, ImportsOf(w, u), path)
  }

  /** What has been recorded are the config itself and the tracked imports of the modules handled. */
  ghost predicate Recorded(w: World, handled: set<Url>, dependencies: set<string>, config: Url)
    requires config.FileUrl?
  {
    forall path :: path in dependencies <==> (!w.inNodeModules(config) && path == config.path) || TrackedBy(w, handled, path)
  }

  /** Resolves the imports of one module and takes up what they lead to. */
  method TakeImports(hooks: Hooks, ghost root: Url, u: Url, before: set<Url>, rest: seq<Url>, draw: Draw, ghost urls: set<Url>)
    returns (taken: set<Url>, todo: seq<Url>)
    requires ClosedUnderImports(hooks.world, urls, draw)
    requires u in before && before <= urls && forall x :: x in rest ==> x in before
    requires AllLoad(hooks.world, root, before, draw)
    modifies hooks
    ensures TodoGrows(before, rest, taken, todo) && taken <= urls
    ensures AllLoad(hooks.world, root, taken, draw)
    ensures Handled(hooks.world, u, taken, draw)
    ensures Adds(hooks.world, u, ImportsOf(hooks.world, u), old(hooks.dependencies), hooks.dependencies)
  {
    var w := hooks.world;
    taken, todo := before, rest;
    var imports := ImportsOf(w, u);
    for i := 0 to |imports|
      invariant TodoGrows(before, rest, taken, todo) && taken <= urls
      invariant HalfWay(w, root, u, imports[..i], taken, old(hooks.dependencies), hooks.dependencies, draw)
    {
      var imp := imports[i];
      assert imp in ImportsOf(w, u) && imports[..i + 1] == imports[..i] + [imp];
      OneMoreImport(w, root, taken, u, imports[..i], imp, old(hooks.dependencies), hooks.dependencies, draw);
      var v := hooks.Resolve(Some(u), imp, draw(u, imp));
      if v !in taken {
        todo := todo + [v];
      }
      taken := taken + {v};
    }
    assert imports[..|imports|] == imports;
  }

  ghost predicate AllLoad(w: World, root: Url, taken: set<Url>, draw: Draw) {
    forall x :: x in taken ==> Loads(w, root, x, draw)
  }

  /** What has been taken up since is still to be handled, after the rest. */
  ghost predicate TodoGrows(before: set<Url>, rest: seq<Url>, taken: set<Url>, todo: seq<Url>) {
    && before <= taken && (forall x :: x in todo ==> x in taken)
    && (forall x :: x in rest || (x in taken && x !in before) ==> x in todo)
    && (taken == before ==> todo == rest)
  }

  /** The dependencies have grown by the tracked ones of these imports. */
  ghost predicate Adds(w: World, u: Url, imports: seq<Import>, before: set<string>, dependencies: set<string>) {
    forall path :: path in dependencies <==> path in before || TrackedAmong(w, u, imports, path)
  }

  /** These imports of `u` have been resolved and taken up. */
  ghost predicate HalfWay(w: World, root: Url, u: Url, imports: seq<Import>, taken: set<Url>,
                          before: set<string>, dependencies: set<string>, draw: Draw) {
    && u in taken && AllLoad(w, root, taken, draw) && Adds(w, u, imports, before, dependencies)
    && forall imp :: imp in imports ==> Target(w, u, imp, draw) in taken
  }

  lemma OneMoreImport(w: World, root: Url, taken: set<Url>, u: Url, imports: seq<Import>, imp: Import,
                      before: set<string>, dependencies: set<string>, draw: Draw)
    requires HalfWay(w, root, u, imports, taken, before, dependencies, draw) && imp in ImportsOf(w, u)
    ensures HalfWay(w, root, u, imports + [imp], taken + {Target(w, u, imp, draw)}, before,
      dependencies + (if Tracks(w, Some(u), imp) then {imp.target.path} else {}), draw)
  {
    assert LoadEdge(w, u, Target(w, u, imp, draw), draw);
    ConnectedOn(LoadEdges(w, draw), root, u, Target(w, u, imp, draw));
    assert forall x :: x in imports + [imp] <==> x in imports || x == imp;
  }

  lemma OneMoreHandled(w: World, handled: set<Url>, u: Url)
    ensures forall path :: TrackedBy(w, handled + {u}, path) <==> TrackedBy(w, handled, path) || TrackedAmong(w, u, ImportsOf(w, u), path)
  {
    forall path ensures TrackedBy(w, handled + {u}, path) <==> TrackedBy(w, handled, path) || TrackedAmong(w, u, ImportsOf(w, u), path) {
      if TrackedAmong(w, u, ImportsOf(w, u), path) {
        assert u in handled + {u};
      }
    }
  }

  /** Everything that loading comes to has been taken up. */
  lemma LoadedExactly(w: World, root: Url, loaded: set<Url>, draw: Draw)
    requires root in loaded && AllLoad(w, root, loaded, draw) && forall u :: u in loaded ==> Handled(w, u, loaded, draw)
    ensures forall u :: u in loaded <==> Loads(w, root, u, draw)
  {
    forall v | Loads(w, root, v, draw) ensures v in loaded {
      var route :| IsRoute(LoadEdges(w, draw), route) && route[0] == root && route[|route| - 1] == v;
      StaysInside(LoadEdges(w, draw), loaded, route);
    }
  }

  lemma RecordedExactly(w: World, root: Url, loaded: set<Url>, dependencies: set<string>, config: Url, draw: Draw)
    requires config.FileUrl? && Recorded(w, loaded, dependencies, config)
    requires forall u :: u in loaded <==> Loads(w, root, u, draw)
    ensures forall path :: path in dependencies <==> (!w.inNodeModules(config) && path == config.path) || TrackedBelow(w, root, path, draw)
  {
    forall path ensures TrackedBy(w, loaded, path) <==> TrackedBelow(w, root, path, draw) {
      if u :| u in loaded && TrackedAmong(w, u, ImportsOf(w, u), path) {
        assert Loads(w, root, u, draw);
      }
      if u, imp :| Loads(w, root, u, draw) && imp in ImportsOf(w, u) && NamesTracked(w, u, imp, path) {
        assert u in loaded && TrackedAmong(w, u, ImportsOf(w, u), path);
      }
    }
  }

  /** What the dependencies come to in terms of the reachable files. */
  lemma DependenciesOf(w: World, root: Url, config: Url, dependencies: set<string>, uuid: string, draw: Draw)
    requires uuid != "" && config.FileUrl? && root.FileUrl? && root.path == config.path && Sound(w, root, root, uuid)
    requires UuidOf(root) == Some(uuid) <==> !w.inNodeModules(config)
    requires forall path :: path in dependencies <==>
      (!w.inNodeModules(config) && path == config.path) || TrackedBelow(w, root, path, draw)
    ensures !w.inNodeModules(config) ==> forall path :: ReachableFile(w, root, path, uuid) ==> path in dependencies
    ensures !w.inNodeModules(config) && NoStrayBelow(w, root, draw) ==>
      forall path :: path in dependencies <==> ReachableFile(w, root, path, uuid)
    ensures w.inNodeModules(config) && NoStrayBelow(w, root, draw) ==> dependencies == {}
  {
    if !w.inNodeModules(config) {
      forall path | ReachableFile(w, root, path, uuid) ensures path in dependencies {
        ReachableIsTracked(w, root, path, uuid, draw);
      }
    }
    if NoStrayBelow(w, root, draw) {
      ConnectedToItself(OwnEdges(w, uuid), root);
      forall path | path in dependencies ensures UuidOf(root) == Some(uuid) && ReachableFile(w, root, path, uuid) {
        if TrackedBelow(w, root, path, draw) {
          TrackedIsReachable(w, root, path, uuid, draw);
        }
      }
    }
  }

  // ---------------------------------------------------------------- a load with two UUIDs

  const CONFIG: Url := FileUrl("/config.ts", [])
  const LIBRARY: Url := FileUrl("/node_modules/library.js", [])
  const PLUGIN: Url := FileUrl("/plugin.js", [])
  const IMPORTS_LIBRARY: Import := Import("library", LIBRARY, false, false)
  const IMPORTS_PLUGIN: Import := Import("../plugin.js", PLUGIN, false, true)

  /** A config imports a library, and that asks for no-cache loading of a file. */
  function Workspace(): World {
    World(
      (u: Url) => if u == LIBRARY then [IMPORTS_PLUGIN] else if u.FileUrl? && u.path == CONFIG.path then [IMPORTS_LIBRARY] else [],
      (u: Url) => u == LIBRARY,
      (u: Url, specifier: string) => specifier)
  }

  lemma LibraryLoaded(uuid: string, draw: Draw)
    requires uuid != ""
    ensures Loads(Workspace(), Stamp(CONFIG, uuid), LIBRARY, draw)
  {
    var w, root := Workspace(), Stamp(CONFIG, uuid);
    ConnectedToItself(LoadEdges(w, draw), root);
    ConfigImportsLibrary(uuid);
    assert Target(w, root, IMPORTS_LIBRARY, draw) == LIBRARY;
    assert LoadEdge(w, root, LIBRARY, draw);
    ConnectedOn(LoadEdges(w, draw), root, root, LIBRARY);
  }

  lemma ConfigImportsLibrary(uuid: string)
    ensures ImportsOf(Workspace(), Stamp(CONFIG, uuid)) == [IMPORTS_LIBRARY]
  {
    assert CONFIG.path[1] != LIBRARY.path[1];
  }

  lemma PluginIsStray()
    ensures IMPORTS_PLUGIN in ImportsOf(Workspace(), LIBRARY) && IsStray(Workspace(), LIBRARY, IMPORTS_PLUGIN)
  {
    assert PLUGIN.path[1] != LIBRARY.path[1];
    assert ImportsOf(Workspace(), LIBRARY) == [IMPORTS_PLUGIN];
  }

  /** The library's import is stray, and the load comes to hold two UUIDs. */
  lemma TwoUuids(uuid: string, draw: Draw)
    requires IsNew(Workspace(), uuid, draw)
    ensures !NoStrayBelow(Workspace(), Stamp(CONFIG, uuid), draw) && !OneUuid(Workspace(), Stamp(CONFIG, uuid), uuid, draw)
  {
    StampCarries(CONFIG, uuid);
    ConnectedToItself(OwnEdges(Workspace(), uuid), Stamp(CONFIG, uuid));
    LibraryLoaded(uuid, draw);
    PluginIsStray();
    OneUuidIffNoStray(Workspace(), Stamp(CONFIG, uuid), uuid, draw);
  }

  /** Two loads with different UUIDs share no module of the config's graph, whatever the
      modules on disk have become in between. */
  lemma LoadsShareNothing(w: World, root: Url, uuid: string, u: Url, w': World, root': Url, uuid': string, u': Url)
    requires uuid != "" && uuid' != "" && uuid != uuid'
    requires root.FileUrl? && UuidOf(root) == Some(uuid) && Reachable(w, root, u, uuid)
    requires root'.FileUrl? && UuidOf(root') == Some(uuid') && Reachable(w', root', u', uuid')
    ensures u != u'
  {
    ReachableCarries(w, root, u, uuid);
    ReachableCarries(w', root', u', uuid');
  }

  /** Without stray imports, two loads share no module at all that is loaded with the parameter. */
  lemma SharedIsUnmarked(
      w: World, root: Url, uuid: string, draw: Draw, w': World, root': Url, uuid': string, draw': Draw, u: Url)
    requires uuid != "" && uuid' != "" && uuid != uuid'
    requires Sound(w, root, root, uuid) && NoStrayBelow(w, root, draw) && Loads(w, root, u, draw)
    requires Sound(w', root', root', uuid') && NoStrayBelow(w', root', draw') && Loads(w', root', u, draw')
    ensures UuidOf(u).None?
  {
    LoadedIsSound(w, root, u, uuid, draw);
    LoadedIsSound(w', root', u, uuid', draw');
  }
}
