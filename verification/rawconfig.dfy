// The passes of packages/config/src/convert.ts that fill one shared result object:
// the top-level fields, convertBindingsAndAssets, convertExports, convertDomains, convertTriggers,
// convertTailConsumers and convertSettings.

module RawConfigs {
  import opened Common
  import opened Convert

  datatype AssetsConfig = AssetsConfig(htmlHandling: Option<Json>, notFoundHandling: Option<Json>, runWorkerFirst: Option<Json>)

  datatype AssetsOut = AssetsOut(binding: Option<string>, config: AssetsConfig)

  datatype UnsafeTop = UnsafeTop(metadata: Option<Json>, capnp: Option<Json>)

  datatype UnsafeOut = UnsafeOut(top: UnsafeTop, bindings: Option<seq<map<string, Json>>>)

  datatype Consumer = Consumer(queue: string, settings: Json)

  datatype QueuesOut = QueuesOut(producers: Option<seq<Producer>>, consumers: Option<seq<Consumer>>)

  datatype Route =
    | Pattern(pattern: string)
    | ZoneName(pattern: string, zone: string)
    | ZoneId(pattern: string, zone: string)
    | CustomDomain(pattern: string)

  datatype Trigger =
    | Email(addresses: seq<string>)
    | Scheduled(schedule: string)
    | Fetch(pattern: string, zone: Option<string>)
    | QueueTrigger(consumer: Consumer)
    | Connect(handler: Json)

  datatype TailConsumer = TailConsumer(worker: string, streaming: bool)

  /** The fields that are copied under another name, apart from `unsafe`. */
  datatype TopField =
    | NameTop | EntrypointTop | CompatibilityDate | CompatibilityFlags | WorkersDev | PreviewUrls | Logpush
    | FirstPartyWorker | Placement | Limits | Observability | Cache

  datatype Storage = Sqlite | LegacyKv

  /** The exports of a worker. A Durable Object that says nothing of its state is a created one. */
  datatype Export =
    | WorkerExport(value: Json)
    | Created(explicitly: bool, storage: Storage, container: Option<Json>)
    | Deleted
    | RenamedTo(renamedTo: string)
    | TransferredTo(transferredTo: string)
    | ExpectingTransfer(storage: Storage, transferFrom: string, container: Option<Json>)
    | UnknownExport(exportType: string)

  datatype Region = FedrampHigh | PublicRegion

  datatype SettingsConfig = SettingsConfig(accountId: Option<string>, complianceRegion: Option<Region>)

  /** A worker's config. A list that is not given is an empty one: the passes do not tell them
      apart. */
  datatype WorkerConfig = WorkerConfig(
    top: map<TopField, Option<Json>>,
    exports: seq<(string, Export)>,
    env: Env,
    assets: Option<AssetsConfig>,
    unsafe: Option<UnsafeTop>,
    domains: seq<string>,
    triggers: seq<Trigger>,
    tailConsumers: seq<TailConsumer>)

  const NO_ASSETS := AssetsConfig(None, None, None)
  const NO_UNSAFE := UnsafeTop(None, None)
  const NO_QUEUES := QueuesOut(None, None)

  /** The result object; a field that is `None`, or a slot without a key, is absent. */
  class RawConfig {
    var top: map<TopField, Json>
    var exports: Option<map<string, Export>>
    var accountId: Option<string>
    var complianceRegion: Option<Region>
    var listed: map<Slot, seq<Entry>>
    var singles: map<Singleton, (string, Option<bool>)>
    var assets: Option<AssetsOut>
    var durableObjects: Option<seq<DurableEntry>>
    var queues: Option<QueuesOut>
    var vpcNetworks: Option<seq<VpcEntry>>
    var unsafe: Option<UnsafeOut>
    var vars: Option<map<string, Json>>
    var secrets: Option<seq<string>>
    var routes: Option<seq<Route>>
    var crons: Option<seq<string>>
    var connect: Option<seq<Json>>
    var addresses: Option<seq<string>>
    var tailConsumers: Option<seq<string>>
    var streamingTailConsumers: Option<seq<string>>

    constructor ()
      ensures HasNoBindings() && unsafe == None
      ensures routes == None && crons == None && connect == None && addresses == None
      ensures tailConsumers == None && streamingTailConsumers == None
      ensures top == map[] && exports == None && accountId == None && complianceRegion == None
    {
      top, exports, accountId, complianceRegion := map[], None, None, None;
      listed, singles := map[], map[];
      assets, durableObjects, queues, vpcNetworks, unsafe, vars, secrets := None, None, None, None, None, None, None;
      routes, crons, connect, addresses, tailConsumers, streamingTailConsumers := None, None, None, None, None, None;
    }

    /** Only the top-level pass has written to this config. */
    predicate HasNoBindings()
      reads this
    {
      singles == map[] && HasNoLists()
    }

    predicate HasNoLists()
      reads this
    {
      && listed == map[] && assets == None && durableObjects == None && queues == None
      && vpcNetworks == None && UnsafeBindings() == None && vars == None && secrets == None
    }

    /** The bindings in this config. */
    function Bindings(): Output
      reads this
    {
      BindingsIn(listed, WithAssets(singles, if assets.Some? then assets.value.binding else None), durableObjects,
                 Queues().producers, vpcNetworks, UnsafeBindings(), vars, secrets)
    }

    function Queues(): QueuesOut
      reads this
    {
      if queues.Some? then queues.value else NO_QUEUES
    }

    function UnsafeBindings(): Option<seq<map<string, Json>>>
      reads this
    {
      if unsafe.Some? then unsafe.value.bindings else None
    }

    function UnsafeRest(): UnsafeTop
      reads this
    {
      if unsafe.Some? then unsafe.value.top else NO_UNSAFE
    }

    /** There are assets if any are configured or bound, with the given settings. */
    predicate AssetsMerge(config: Option<AssetsConfig>, bound: bool)
      reads this
    {
      && (assets.Some? <==> config.Some? || bound)
      && (assets.Some? ==> assets.value.config == if config.Some? then config.value else NO_ASSETS)
    }

    /** No binding field is present and empty. */
    predicate OnlyFilled()
      reads this
    {
      NoneEmpty(listed, durableObjects, Queues().producers, vpcNetworks, UnsafeBindings(), vars, secrets)
    }
  }

  function BindingsIn(
      listed: map<Slot, seq<Entry>>, singles: map<Singleton, (string, Option<bool>)>, durable: Option<seq<DurableEntry>>,
      producers: Option<seq<Producer>>, vpcNetworks: Option<seq<VpcEntry>>, unsafeBindings: Option<seq<map<string, Json>>>,
      vars: Option<map<string, Json>>, secrets: Option<seq<string>>): Output {
    Output(listed, singles, OrEmpty(durable), OrEmpty(producers), OrEmpty(vpcNetworks), OrEmpty(unsafeBindings),
           if vars.Some? then vars.value else map[], OrEmpty(secrets))
  }

  predicate NoneEmpty(
      listed: map<Slot, seq<Entry>>, durable: Option<seq<DurableEntry>>, producers: Option<seq<Producer>>,
      vpcNetworks: Option<seq<VpcEntry>>, unsafeBindings: Option<seq<map<string, Json>>>,
      vars: Option<map<string, Json>>, secrets: Option<seq<string>>) {
    && (forall slot :: slot in listed ==> listed[slot] != [])
    && durable != Some([]) && producers != Some([]) && vpcNetworks != Some([])
    && unsafeBindings != Some([]) && vars != Some(map[]) && secrets != Some([])
  }

  function OrEmpty<T>(xs: Option<seq<T>>): seq<T> {
    if xs.Some? then xs.value else []
  }

  /** A list that is attached only when it has elements. */
  function Filled<T>(xs: seq<T>): Option<seq<T>> {
    if |xs| == 0 then None else Some(xs)
  }

  function WithAssets(singles: map<Singleton, (string, Option<bool>)>, name: Option<string>): map<Singleton, (string, Option<bool>)> {
    if name.Some? then singles[AssetsBinding := (name.value, None)] else singles
  }

  // ---------------------------------------------------------------- bindings and assets

  /** The top-level fields that are given; an entrypoint only if it is a string. */
  function TopFields(top: map<TopField, Option<Json>>): map<TopField, Json> {
    map f | f in top && top[f].Some? && (f == EntrypointTop ==> top[f].value.JString?) :: top[f].value
  }

  /** A field that is given is kept, but for an entrypoint that is no string. */
  lemma TopFieldsReadBack(top: map<TopField, Option<Json>>, f: TopField)
    requires f in top
    ensures (if f in TopFields(top) then Some(TopFields(top)[f]) else None) == top[f]
      <==> f == EntrypointTop && top[f].Some? ==> top[f].value.JString?
  {
  }

  method ConvertTopLevel(config: WorkerConfig, result: RawConfig)
    requires result.top == map[]
    modifies result`top, result`unsafe
    ensures result.top == TopFields(config.top)
    ensures result.unsafe == if config.unsafe.Some? then Some(UnsafeOut(config.unsafe.value, None)) else old(result.unsafe)
  {
    var todo := config.top.Keys;
    while todo != {}
      invariant todo <= config.top.Keys && result.unsafe == old(result.unsafe)
      invariant result.top == map f | f in TopFields(config.top) && f !in todo :: TopFields(config.top)[f]
    {
      var f :| f in todo;
      if config.top[f].Some? && (f != EntrypointTop || config.top[f].value.JString?) {
        result.top := result.top[f := config.top[f].value];
      }
      todo := todo - {f};
    }
    if config.unsafe.Some? {
      result.unsafe := Some(UnsafeOut(config.unsafe.value, None));
    }
  }

  /** The loop over the environment: array bindings are accumulated, singletons written to the
      result right away. */
  method CollectBindings(env: Env, result: RawConfig) returns (out: Output, assetsName: Option<string>)
    requires result.singles == map[]
    modifies result`singles
    ensures out.(singles := WithAssets(result.singles, assetsName)) == Scatter(env)
    ensures out.singles == result.singles && AssetsBinding !in out.singles
    ensures forall slot :: slot in out.listed ==> out.listed[slot] != []
  {
    assetsName := None;
    var listed: map<Slot, seq<Entry>> := map[];
    var durable, producers, vpcNetworks, unsafeBindings := [], [], [], [];
    var vars: map<string, Json> := map[];
    var secrets := [];

    ghost var spec := Scatter([]);
    ScatterStarts();
    for n := 0 to |env|
      invariant spec == Scatter(env[..n])
      invariant listed == spec.listed && WithAssets(result.singles, assetsName) == spec.singles
      invariant durable == spec.durable && producers == spec.producers && vpcNetworks == spec.vpcNetworks
      invariant unsafeBindings == spec.unsafeBindings && vars == spec.vars && secrets == spec.secrets
      invariant AssetsBinding !in result.singles
    {
      var (name, binding) := env[n];
      ScatterNext(env, n);
      spec := Step(spec, name, binding);
      match binding {
        case Listed(slot, fields, dev) =>
          var entries := if slot in listed then listed[slot] else [];
          listed := listed[slot := entries + [EntryFor(name, slot, fields, dev)]];
        case Single(kind, dev) =>
          var entry := (name, if TakesDev(kind) then RemoteOf(dev) else None);
          WithAssetsUpdate(result.singles, assetsName, kind, entry);
          if kind == AssetsBinding {
            assetsName := Some(name);
          } else {
            result.singles := result.singles[kind := entry];
          }
        case DurableObject(worker, exportName) => durable := durable + [DurableEntry(name, exportName, worker)];
        case JsonVar(value) => vars := vars[name := value];
        case TextVar(text) => vars := vars[name := JString(text)];
        case Secret => secrets := secrets + [name];
        case Queue(queue, delay, dev) => producers := producers + [Producer(name, queue, delay, RemoteOf(dev))];
        case VpcNetwork(tunnelId, networkId, dev) =>
          if tunnelId.Some? {
            vpcNetworks := vpcNetworks + [VpcEntry(name, tunnelId, None, RemoteOf(dev))];
          } else if networkId.Some? {
            vpcNetworks := vpcNetworks + [VpcEntry(name, None, networkId, RemoteOf(dev))];
          }
        case Unsafe(_, _) => unsafeBindings := unsafeBindings + [UnsafeEntry(name, binding)];
      }
    }
    assert env[..|env|] == env;
    NoEmptyLists(env);
    out := Output(listed, result.singles, durable, producers, vpcNetworks, unsafeBindings, vars, secrets);
  }

  method ConvertBindingsAndAssets(config: WorkerConfig, result: RawConfig)
    requires result.HasNoBindings()
    modifies result`listed, result`singles, result`assets, result`durableObjects, result`queues
    modifies result`vpcNetworks, result`unsafe, result`vars, result`secrets
    ensures result.Bindings() == Scatter(config.env)
    ensures result.OnlyFilled() && result.Queues().consumers == None
    ensures result.UnsafeRest() == old(result.UnsafeRest())
    ensures result.AssetsMerge(config.assets, AssetsBinding in Scatter(config.env).singles)
  {
    var out, assetsName := CollectBindings(config.env, result);
    AttachAll(config, out, assetsName, result);
  }

  /** Array bindings are attached when there are any, and the assets config is merged with the
      name of the assets binding. */
  method AttachAll(config: WorkerConfig, out: Output, assetsName: Option<string>, result: RawConfig)
    requires result.singles == out.singles && AssetsBinding !in out.singles
    requires forall slot :: slot in out.listed ==> out.listed[slot] != []
    requires result.HasNoLists()
    modifies result`listed, result`assets, result`durableObjects, result`queues
    modifies result`vpcNetworks, result`unsafe, result`vars, result`secrets
    ensures result.Bindings() == out.(singles := WithAssets(out.singles, assetsName))
    ensures result.OnlyFilled() && result.Queues().consumers == None
    ensures result.UnsafeRest() == old(result.UnsafeRest())
    ensures result.AssetsMerge(config.assets, assetsName.Some?)
  {
    result.listed := out.listed;
    Attach(out, result);
    AttachShared(out, result);
    if config.assets.Some? || assetsName.Some? {
      result.assets := Some(AssetsOut(assetsName, if config.assets.Some? then config.assets.value else NO_ASSETS));
    }
    HeldBindings(result, out);
  }

  /** The fields that hold nothing but bindings. */
  method Attach(out: Output, result: RawConfig)
    requires result.durableObjects == None && result.vpcNetworks == None && result.vars == None && result.secrets == None
    modifies result`durableObjects, result`vpcNetworks, result`vars, result`secrets
    ensures result.durableObjects == Filled(out.durable) && result.vpcNetworks == Filled(out.vpcNetworks)
    ensures result.vars == (if |out.vars| == 0 then None else Some(out.vars)) && result.secrets == Filled(out.secrets)
  {
    if |out.durable| != 0 {
      result.durableObjects := Some(out.durable);
    }
    if |out.vpcNetworks| != 0 {
      result.vpcNetworks := Some(out.vpcNetworks);
    }
    if |out.vars| != 0 {
      result.vars := Some(out.vars);
    }
    if |out.secrets| != 0 {
      result.secrets := Some(out.secrets);
    }
  }

  /** The fields that hold the producers and the unsafe bindings, and more. */
  method AttachShared(out: Output, result: RawConfig)
    requires result.queues == None && result.UnsafeBindings() == None
    modifies result`queues, result`unsafe
    ensures result.Queues() == QueuesOut(Filled(out.producers), None)
    ensures result.UnsafeBindings() == Filled(out.unsafeBindings)
    ensures result.UnsafeRest() == old(result.UnsafeRest())
  {
    if |out.producers| != 0 {
      result.queues := Some(result.Queues().(producers := Some(out.producers)));
    }
    if |out.unsafeBindings| != 0 {
      result.unsafe := Some(UnsafeOut(result.UnsafeRest(), Some(out.unsafeBindings)));
    }
  }

  /** Every field holds its bindings, and is absent if it has none. */
  ghost predicate Holds(result: RawConfig, out: Output)
    reads result
  {
    && result.listed == out.listed
    && result.singles == out.singles
    && result.durableObjects == Filled(out.durable)
    && result.Queues() == QueuesOut(Filled(out.producers), None)
    && result.vpcNetworks == Filled(out.vpcNetworks)
    && result.UnsafeBindings() == Filled(out.unsafeBindings)
    && result.vars == (if |out.vars| == 0 then None else Some(out.vars))
    && result.secrets == Filled(out.secrets)
  }

  lemma HeldBindings(result: RawConfig, out: Output)
    requires Holds(result, out)
    ensures result.Bindings() ==
      out.(singles := WithAssets(out.singles, if result.assets.Some? then result.assets.value.binding else None))
    ensures (forall slot :: slot in out.listed ==> out.listed[slot] != []) ==> result.OnlyFilled()
  {
    FilledReadsBack(out.durable);
    FilledReadsBack(out.producers);
    FilledReadsBack(out.vpcNetworks);
    FilledReadsBack(out.unsafeBindings);
    FilledReadsBack(out.secrets);
  }

  lemma FilledReadsBack<T>(xs: seq<T>)
    ensures OrEmpty(Filled(xs)) == xs && Filled(xs) != Some([])
  {
  }

  lemma WithAssetsUpdate(
      singles: map<Singleton, (string, Option<bool>)>, name: Option<string>, kind: Singleton, entry: (string, Option<bool>))
    requires AssetsBinding !in singles
    ensures WithAssets(singles, name)[kind := entry] ==
      if kind == AssetsBinding then singles[kind := entry] else WithAssets(singles[kind := entry], name)
  {
  }

  lemma ScatterStarts()
    ensures Scatter([]) == EMPTY
  {
  }

  lemma {:induction false} NoEmptyLists(env: Env)
    ensures forall slot :: slot in Scatter(env).listed ==> Scatter(env).listed[slot] != []
  {
    if env == [] {
    } else {
      NoEmptyLists(env[..|env| - 1]);
    }
  }

  lemma ScatterNext(env: Env, n: nat)
    requires n < |env|
    ensures Scatter(env[..n + 1]) == Step(Scatter(env[..n]), env[n].0, env[n].1)
  {
    assert env[..n + 1][..n] == env[..n];
  }

  // ---------------------------------------------------------------- exports and settings

  /** What an export becomes: an explicit created state is left out, and a container is kept
      only beside sqlite storage. */
  function ExportFor(e: Export): Export {
    match e
    case Created(_, storage, container) => Created(false, storage, if storage.Sqlite? then container else None)
    case ExpectingTransfer(storage, from, container) => ExpectingTransfer(storage, from, if storage.Sqlite? then container else None)
    case _ => e
  }

  function Converted(exports: seq<(string, Export)>): map<string, Export> {
    if exports == [] then map[]
    else
      var before, last := Converted(exports[..|exports| - 1]), exports[|exports| - 1];
      if last.1.UnknownExport? then before else before[last.0 := ExportFor(last.1)]
  }

  /** The exports of unknown types, with these. */
  function Unknown(exports: seq<(string, Export)>): seq<(string, string)> {
    if exports == [] then []
    else
      var before, last := Unknown(exports[..|exports| - 1]), exports[|exports| - 1];
      if last.1.UnknownExport? then before + [(last.0, last.1.exportType)] else before
  }

  /** Fails with the exports of unknown types if there are any. */
  method ConvertExports(config: WorkerConfig, result: RawConfig) returns (unknown: seq<(string, string)>)
    modifies result`exports
    ensures unknown == Unknown(config.exports)
    ensures result.exports == if unknown == [] && Converted(config.exports) != map[] then Some(Converted(config.exports)) else old(result.exports)
  {
    var exports := config.exports;
    var converted: map<string, Export> := map[];
    unknown := [];
    for n := 0 to |exports|
      invariant converted == Converted(exports[..n]) && unknown == Unknown(exports[..n])
    {
      assert exports[..n + 1][..n] == exports[..n];
      var (name, value) := exports[n];
      match value {
        case UnknownExport(exportType) => unknown := unknown + [(name, exportType)];
        case WorkerExport(_) => converted := converted[name := value];
        case Created(_, storage, container) =>
          converted := converted[name := Created(false, storage, if storage.Sqlite? then container else None)];
        case ExpectingTransfer(storage, from, container) =>
          converted := converted[name := ExpectingTransfer(storage, from, if storage.Sqlite? then container else None)];
        case Deleted => converted := converted[name := Deleted];
        case RenamedTo(to) => converted := converted[name := RenamedTo(to)];
        case TransferredTo(to) => converted := converted[name := TransferredTo(to)];
      }
    }
    assert exports[..|exports|] == exports;
    if |unknown| == 0 && |converted| > 0 {
      result.exports := Some(converted);
    }
  }

  /** All that is lost of an export is whether its created state was spelled out, and a container
      beside other storage than sqlite, which the schema does not let through. */
  lemma {:induction false} ExportsReadBack(exports: seq<(string, Export)>, i: nat)
    requires i < |exports| && !exports[i].1.UnknownExport?
    requires forall j, k :: 0 <= j < k < |exports| ==> exports[j].0 != exports[k].0
    ensures exports[i].0 in Converted(exports)
    ensures var e, out := exports[i].1, Converted(exports)[exports[i].0];
      if !e.Created? && !e.ExpectingTransfer? then out == e
      else if e.storage.Sqlite? || e.container.None? then out == if e.Created? then e.(explicitly := false) else e
      else out == (if e.Created? then e.(explicitly := false) else e).(container := None)
  {
    if i == |exports| - 1 {
    } else {
      assert exports[i].0 != exports[|exports| - 1].0;
      ExportsReadBack(exports[..|exports| - 1], i);
    }
  }

  /** Nothing else comes to be among the exports. */
  lemma {:induction false} OnlyKnownExports(exports: seq<(string, Export)>, name: string)
    ensures name in Converted(exports) <==> exists i :: 0 <= i < |exports| && exports[i].0 == name && !exports[i].1.UnknownExport?
  {
    if exports == [] {
    } else {
      var init := exports[..|exports| - 1];
      OnlyKnownExports(init, name);
      if name in Converted(init) {
        var i :| 0 <= i < |init| && init[i].0 == name && !init[i].1.UnknownExport?;
        assert exports[i].0 == name;
      }
      if i :| 0 <= i < |exports| && exports[i].0 == name && !exports[i].1.UnknownExport? {
        assert i < |init| ==> init[i].0 == name;
      }
    }
  }

  /** What fails are exactly the exports of unknown types, in order. */
  lemma {:induction false} UnknownAreReported(exports: seq<(string, Export)>)
    ensures PickedFrom(Unknown(exports), exports,
      (e: (string, Export)) => e.1.UnknownExport?, (e: (string, Export)) => (e.0, if e.1.UnknownExport? then e.1.exportType else ""))
  {
    var keep := (e: (string, Export)) => e.1.UnknownExport?;
    var named := (e: (string, Export)) => (e.0, if e.1.UnknownExport? then e.1.exportType else "");
    if exports == [] {
      PickNone(keep, named);
    } else {
      var init, last := exports[..|exports| - 1], exports[|exports| - 1];
      UnknownAreReported(init);
      PickNext(Unknown(init), init, last, keep, named);
      assert exports == init + [last] && Unknown(init) + [] == Unknown(init);
    }
  }

  method ConvertSettings(settings: SettingsConfig, result: RawConfig)
    modifies result`accountId, result`complianceRegion
    ensures result.accountId == OrElse(settings.accountId, old(result.accountId))
    ensures result.complianceRegion == OrElse(settings.complianceRegion, old(result.complianceRegion))
  {
    if settings.accountId.Some? {
      result.accountId := settings.accountId;
    }
    if settings.complianceRegion.Some? {
      result.complianceRegion := if settings.complianceRegion.value == FedrampHigh then Some(FedrampHigh) else Some(PublicRegion);
    }
  }

  // ---------------------------------------------------------------- domains and triggers

  function Mapped<A, B>(f: A -> B, xs: seq<A>): (ys: seq<B>) {
    if xs == [] then [] else Mapped(f, xs[..|xs| - 1]) + [f(xs[|xs| - 1])]
  }

  /** A list extended by others; it stays as it is when there are none. */
  function Extended<T>(xs: Option<seq<T>>, more: seq<T>): Option<seq<T>> {
    if more == [] then xs else Some(OrEmpty(xs) + more)
  }

  lemma ExtendedWhenFilled<T>(xs: Option<seq<T>>, more: seq<T>)
    ensures Extended(xs, more) == if |OrEmpty(xs) + more| == 0 then xs else Some(OrEmpty(xs) + more)
  {
    if more == [] {
      assert OrEmpty(xs) + more == OrEmpty(xs);
    }
  }

  function Replaced<T>(xs: Option<seq<T>>, others: seq<T>): Option<seq<T>> {
    if others == [] then xs else Some(others)
  }

  function OrElse<T>(x: Option<T>, y: Option<T>): Option<T> {
    if x.Some? then x else y
  }

  function DomainRoutes(domains: seq<string>): seq<Route> {
    Mapped((domain: string) => CustomDomain(domain), domains)
  }

  method ConvertDomains(config: WorkerConfig, result: RawConfig)
    modifies result`routes
    ensures result.routes == Extended(old(result.routes), DomainRoutes(config.domains))
  {
    if |config.domains| == 0 {
      return;
    }
    var routes := OrEmpty(result.routes);
    for n := 0 to |config.domains|
      invariant routes == OrEmpty(old(result.routes)) + DomainRoutes(config.domains[..n])
    {
      routes := routes + [CustomDomain(config.domains[n])];
      assert config.domains[..n + 1][..n] == config.domains[..n];
    }
    assert config.domains[..|config.domains|] == config.domains;
    result.routes := Some(routes);
  }

  function RouteOf(pattern: string, zone: Option<string>): Route {
    if zone.None? then Pattern(pattern)
    else if '.' in zone.value then ZoneName(pattern, zone.value)
    else ZoneId(pattern, zone.value)
  }

  /** What a list of triggers is split into. */
  datatype Parts = Parts(
    routes: seq<Route>, crons: seq<string>, consumers: seq<Consumer>, handlers: seq<Json>, addresses: Option<seq<string>>)

  function Split(triggers: seq<Trigger>): Parts {
    if triggers == [] then Parts([], [], [], [], None)
    else Sorted(Split(triggers[..|triggers| - 1]), triggers[|triggers| - 1])
  }

  function Sorted(parts: Parts, trigger: Trigger): Parts {
    match trigger
    case Email(addresses) => parts.(addresses := Some(OrEmpty(parts.addresses) + addresses))
    case Scheduled(schedule) => parts.(crons := parts.crons + [schedule])
    case Fetch(pattern, zone) => parts.(routes := parts.routes + [RouteOf(pattern, zone)])
    case QueueTrigger(consumer) => parts.(consumers := parts.consumers + [consumer])
    case Connect(handler) => parts.(handlers := parts.handlers + [handler])
  }

  /** The routes, queue consumers and connect handlers that are already there are kept. */
  method ConvertTriggers(config: WorkerConfig, result: RawConfig)
    modifies result`routes, result`crons, result`queues, result`connect, result`addresses
    ensures result.routes == Extended(old(result.routes), Split(config.triggers).routes)
    ensures result.crons == Replaced(old(result.crons), Split(config.triggers).crons)
    ensures result.Queues().producers == old(result.Queues()).producers
    ensures result.Queues().consumers == Extended(old(result.Queues()).consumers, Split(config.triggers).consumers)
    ensures result.connect == Extended(old(result.connect), Split(config.triggers).handlers)
    ensures result.addresses == OrElse(Split(config.triggers).addresses, old(result.addresses))
  {
    if |config.triggers| == 0 {
      return;
    }
    var start := Parts(OrEmpty(result.routes), [], OrEmpty(result.Queues().consumers), OrEmpty(result.connect), None);
    var crons, routes, consumers, handlers, addresses := CollectTriggers(config.triggers, start);
    ghost var parts := Split(config.triggers);
    ExtendedWhenFilled(result.routes, parts.routes);
    ExtendedWhenFilled(result.Queues().consumers, parts.consumers);
    ExtendedWhenFilled(result.connect, parts.handlers);
    if |crons| != 0 {
      result.crons := Some(crons);
    }
    if |routes| != 0 {
      result.routes := Some(routes);
    }
    if |consumers| != 0 {
      result.queues := Some(result.Queues().(consumers := Some(consumers)));
    }
    if |handlers| != 0 {
      result.connect := Some(handlers);
    }
    if addresses.Some? {
      result.addresses := addresses;
    }
  }

  method CollectTriggers(triggers: seq<Trigger>, start: Parts)
      returns (crons: seq<string>, routes: seq<Route>, consumers: seq<Consumer>, handlers: seq<Json>, addresses: Option<seq<string>>)
    requires start.crons == [] && start.addresses == None
    ensures Parts(routes, crons, consumers, handlers, addresses) == After(start, Split(triggers))
  {
    crons, routes, consumers, handlers, addresses := [], start.routes, start.consumers, start.handlers, None;
    for n := 0 to |triggers|
      invariant Parts(routes, crons, consumers, handlers, addresses) == After(start, Split(triggers[..n]))
    {
      SplitNext(triggers, n);
      match triggers[n] {
        case Email(more) => addresses := Some(OrEmpty(addresses) + more);
        case Scheduled(schedule) => crons := crons + [schedule];
        case Fetch(pattern, zone) =>
          if zone.None? {
            routes := routes + [Pattern(pattern)];
          } else if '.' in zone.value {
            routes := routes + [ZoneName(pattern, zone.value)];
          } else {
            routes := routes + [ZoneId(pattern, zone.value)];
          }
        case QueueTrigger(consumer) => consumers := consumers + [consumer];
        case Connect(handler) => handlers := handlers + [handler];
      }
    }
    assert triggers[..|triggers|] == triggers;
  }

  function After(start: Parts, more: Parts): Parts {
    Parts(start.routes + more.routes, more.crons, start.consumers + more.consumers, start.handlers + more.handlers, more.addresses)
  }

  lemma SplitNext(triggers: seq<Trigger>, n: nat)
    requires n < |triggers|
    ensures Split(triggers[..n + 1]) == Sorted(Split(triggers[..n]), triggers[n])
  {
    assert triggers[..n + 1][..n] == triggers[..n];
  }

  // ---------------------------------------------------------------- what is kept of triggers

  datatype Kind = EmailKind | ScheduledKind | FetchKind | QueueKind | ConnectKind

  function KindOf(trigger: Trigger): Kind {
    match trigger
    case Email(_) => EmailKind
    case Scheduled(_) => ScheduledKind
    case Fetch(_, _) => FetchKind
    case QueueTrigger(_) => QueueKind
    case Connect(_) => ConnectKind
  }

  /** The triggers of a kind, in order. */
  function Only(kind: Kind, triggers: seq<Trigger>): seq<Trigger> {
    if triggers == [] then []
    else
      var last := triggers[|triggers| - 1];
      var before := Only(kind, triggers[..|triggers| - 1]);
      if KindOf(last) == kind then before + [last] else before
  }

  function AllAddresses(triggers: seq<Trigger>): seq<string> {
    if triggers == [] then []
    else
      var last := triggers[|triggers| - 1];
      var before := AllAddresses(triggers[..|triggers| - 1]);
      if last.Email? then before + last.addresses else before
  }

  /** The domains that are read back from the routes. */
  function DomainsIn(routes: seq<Route>): seq<string> {
    if routes == [] then []
    else
      var last := routes[|routes| - 1];
      DomainsIn(routes[..|routes| - 1]) + (if last.CustomDomain? then [last.pattern] else [])
  }

  /** A zone is given by its name, which has a dot, or else by its id. */
  function FetchOf(route: Route): seq<Trigger> {
    match route
    case Pattern(pattern) => [Fetch(pattern, None)]
    case ZoneName(pattern, zone) => if '.' in zone then [Fetch(pattern, Some(zone))] else []
    case ZoneId(pattern, zone) => if '.' in zone then [] else [Fetch(pattern, Some(zone))]
    case CustomDomain(_) => []
  }

  /** The fetch triggers that are read back from the routes. */
  function FetchesIn(routes: seq<Route>): seq<Trigger> {
    if routes == [] then [] else FetchesIn(routes[..|routes| - 1]) + FetchOf(routes[|routes| - 1])
  }

  lemma RoutesAppend(routes: seq<Route>, route: Route)
    ensures FetchesIn(routes + [route]) == FetchesIn(routes) + FetchOf(route)
    ensures DomainsIn(routes + [route]) == DomainsIn(routes) + (if route.CustomDomain? then [route.pattern] else [])
  {
    assert (routes + [route])[..|routes|] == routes;
  }

  lemma FetchesStep(start: seq<Route>, parts: Parts, trigger: Trigger)
    ensures var before, after := start + parts.routes, start + Sorted(parts, trigger).routes;
      FetchesIn(after) == FetchesIn(before) + (if trigger.Fetch? then [trigger] else []) && DomainsIn(after) == DomainsIn(before)
  {
    if trigger.Fetch? {
      var route := RouteOf(trigger.pattern, trigger.zone);
      RoutesAppend(start + parts.routes, route);
      assert start + Sorted(parts, trigger).routes == start + parts.routes + [route];
    }
  }

  lemma {:induction false} FetchesReadBack(start: seq<Route>, triggers: seq<Trigger>)
    ensures FetchesIn(start + Split(triggers).routes) == FetchesIn(start) + Only(FetchKind, triggers)
    ensures DomainsIn(start + Split(triggers).routes) == DomainsIn(start)
  {
    if triggers == [] {
      assert start + [] == start;
    } else {
      FetchesReadBack(start, triggers[..|triggers| - 1]);
      FetchesStep(start, Split(triggers[..|triggers| - 1]), triggers[|triggers| - 1]);
    }
  }

  lemma {:induction false} DomainRoutesReadBack(domains: seq<string>)
    ensures DomainsIn(DomainRoutes(domains)) == domains && FetchesIn(DomainRoutes(domains)) == []
  {
    if domains == [] {
    } else {
      var init, last := domains[..|domains| - 1], domains[|domains| - 1];
      DomainRoutesReadBack(init);
      RoutesAppend(DomainRoutes(init), CustomDomain(last));
    }
  }

  /** The domains and the fetch triggers share the routes, and both can be told from them. */
  lemma RoutesReadBack(config: WorkerConfig)
    ensures var routes := DomainRoutes(config.domains) + Split(config.triggers).routes;
      DomainsIn(routes) == config.domains && FetchesIn(routes) == Only(FetchKind, config.triggers)
  {
    DomainRoutesReadBack(config.domains);
    FetchesReadBack(DomainRoutes(config.domains), config.triggers);
  }

  lemma MappedAppend<A, B>(f: A -> B, xs: seq<A>, x: A)
    ensures Mapped(f, xs + [x]) == Mapped(f, xs) + [f(x)]
  {
    assert (xs + [x])[..|xs|] == xs;
  }

  function ToScheduled(schedule: string): Trigger { Scheduled(schedule) }

  function ToQueue(consumer: Consumer): Trigger { QueueTrigger(consumer) }

  function ToConnect(handler: Json): Trigger { Connect(handler) }

  lemma PartsStep(parts: Parts, trigger: Trigger)
    ensures Mapped(ToScheduled, Sorted(parts, trigger).crons) ==
      Mapped(ToScheduled, parts.crons) + (if trigger.Scheduled? then [trigger] else [])
    ensures Mapped(ToQueue, Sorted(parts, trigger).consumers) ==
      Mapped(ToQueue, parts.consumers) + (if trigger.QueueTrigger? then [trigger] else [])
    ensures Mapped(ToConnect, Sorted(parts, trigger).handlers) ==
      Mapped(ToConnect, parts.handlers) + (if trigger.Connect? then [trigger] else [])
  {
    match trigger {
      case Scheduled(schedule) => MappedAppend(ToScheduled, parts.crons, schedule);
      case QueueTrigger(consumer) => MappedAppend(ToQueue, parts.consumers, consumer);
      case Connect(handler) => MappedAppend(ToConnect, parts.handlers, handler);
      case _ =>
    }
  }

  lemma {:induction false} PartsReadBack(triggers: seq<Trigger>)
    ensures Mapped(ToScheduled, Split(triggers).crons) == Only(ScheduledKind, triggers)
    ensures Mapped(ToQueue, Split(triggers).consumers) == Only(QueueKind, triggers)
    ensures Mapped(ToConnect, Split(triggers).handlers) == Only(ConnectKind, triggers)
  {
    if triggers == [] {
    } else {
      PartsReadBack(triggers[..|triggers| - 1]);
      PartsStep(Split(triggers[..|triggers| - 1]), triggers[|triggers| - 1]);
    }
  }

  lemma {:induction false} AddressesReadBack(triggers: seq<Trigger>)
    ensures Split(triggers).addresses == if Only(EmailKind, triggers) == [] then None else Some(AllAddresses(triggers))
  {
    if triggers == [] {
    } else {
      AddressesReadBack(triggers[..|triggers| - 1]);
      NoEmailNoAddresses(triggers[..|triggers| - 1]);
    }
  }

  lemma {:induction false} NoEmailNoAddresses(triggers: seq<Trigger>)
    ensures Only(EmailKind, triggers) == [] ==> AllAddresses(triggers) == []
  {
    if triggers == [] {
    } else {
      NoEmailNoAddresses(triggers[..|triggers| - 1]);
    }
  }

  lemma SplitAppend(triggers: seq<Trigger>, trigger: Trigger)
    ensures Split(triggers + [trigger]) == Sorted(Split(triggers), trigger)
  {
    assert (triggers + [trigger])[..|triggers|] == triggers;
  }

  predicate SamePart(kind: Kind, a: Parts, b: Parts) {
    match kind
    case EmailKind => a.addresses == b.addresses
    case ScheduledKind => a.crons == b.crons
    case FetchKind => a.routes == b.routes
    case QueueKind => a.consumers == b.consumers
    case ConnectKind => a.handlers == b.handlers
  }

  lemma SamePartStep(kind: Kind, a: Parts, b: Parts, trigger: Trigger)
    requires SamePart(kind, a, b)
    ensures SamePart(kind, Sorted(a, trigger), if KindOf(trigger) == kind then Sorted(b, trigger) else b)
  {
  }

  lemma {:induction false} SplitByKind(kind: Kind, triggers: seq<Trigger>)
    ensures SamePart(kind, Split(triggers), Split(Only(kind, triggers)))
  {
    if triggers == [] {
    } else {
      var init, last := triggers[..|triggers| - 1], triggers[|triggers| - 1];
      SplitByKind(kind, init);
      SplitAppend(Only(kind, init), last);
      SamePartStep(kind, Split(init), Split(Only(kind, init)), last);
    }
  }

  /** Exactly what is lost: how triggers of different kinds are interleaved, and which email
      trigger an address came from. */
  lemma SplitLosesOnlyOrder(a: seq<Trigger>, b: seq<Trigger>)
    ensures Split(a) == Split(b) <==> SameAddresses(a, b) && SameInOrder(a, b)
  {
    if Split(a) == Split(b) {
      SameParts(a, b);
    }
    if SameAddresses(a, b) && SameInOrder(a, b) {
      SameInOrderSplitsSame(a, b);
    }
  }

  lemma SameInOrderSplitsSame(a: seq<Trigger>, b: seq<Trigger>)
    requires SameAddresses(a, b) && SameInOrder(a, b)
    ensures Split(a) == Split(b)
  {
    SameOnly(ScheduledKind, a, b);
    SameOnly(FetchKind, a, b);
    SameOnly(QueueKind, a, b);
    SameOnly(ConnectKind, a, b);
    AddressesReadBack(a);
    AddressesReadBack(b);
    PartsAreAll(Split(a), Split(b));
  }

  ghost predicate SameInOrder(a: seq<Trigger>, b: seq<Trigger>) {
    forall kind :: kind != EmailKind ==> Only(kind, a) == Only(kind, b)
  }

  predicate SameAddresses(a: seq<Trigger>, b: seq<Trigger>) {
    (Only(EmailKind, a) == [] <==> Only(EmailKind, b) == []) && AllAddresses(a) == AllAddresses(b)
  }

  lemma SameOnly(kind: Kind, a: seq<Trigger>, b: seq<Trigger>)
    requires Only(kind, a) == Only(kind, b)
    ensures SamePart(kind, Split(a), Split(b))
  {
    SplitByKind(kind, a);
    SplitByKind(kind, b);
  }

  lemma PartsAreAll(a: Parts, b: Parts)
    requires SamePart(ScheduledKind, a, b) && SamePart(FetchKind, a, b) && SamePart(QueueKind, a, b)
    requires SamePart(ConnectKind, a, b) && SamePart(EmailKind, a, b)
    ensures a == b
  {
  }

  lemma FetchesAlone(triggers: seq<Trigger>)
    ensures FetchesIn(Split(triggers).routes) == Only(FetchKind, triggers)
  {
    FetchesReadBack([], triggers);
    assert [] + Split(triggers).routes == Split(triggers).routes;
  }

  lemma SameEmails(a: seq<Trigger>, b: seq<Trigger>)
    requires Split(a).addresses == Split(b).addresses
    ensures SameAddresses(a, b)
  {
    AddressesReadBack(a);
    AddressesReadBack(b);
    NoEmailNoAddresses(a);
    NoEmailNoAddresses(b);
  }

  lemma SameParts(a: seq<Trigger>, b: seq<Trigger>)
    requires Split(a) == Split(b)
    ensures SameAddresses(a, b) && SameInOrder(a, b)
  {
    SameEmails(a, b);
    FetchesAlone(a);
    FetchesAlone(b);
    PartsReadBack(a);
    PartsReadBack(b);
    forall kind: Kind | kind != EmailKind ensures Only(kind, a) == Only(kind, b) {
      match kind {
        case ScheduledKind =>
        case FetchKind =>
        case QueueKind =>
        case ConnectKind =>
        case _ =>
      }
    }
  }

  // ---------------------------------------------------------------- tail consumers

  function Workers(consumers: seq<TailConsumer>, streaming: bool): seq<string> {
    if consumers == [] then []
    else
      var last := consumers[|consumers| - 1];
      Workers(consumers[..|consumers| - 1], streaming) + (if last.streaming == streaming then [last.worker] else [])
  }

  /** Each list has exactly the consumers of its kind, in order. */
  lemma {:induction false} WorkersByStreaming(consumers: seq<TailConsumer>, streaming: bool)
    ensures PickedFrom(Workers(consumers, streaming), consumers,
      (c: TailConsumer) => if c.streaming then streaming else !streaming, (c: TailConsumer) => c.worker)
  {
    var keep, worker := (c: TailConsumer) => if c.streaming then streaming else !streaming, (c: TailConsumer) => c.worker;
    if consumers == [] {
      PickNone(keep, worker);
    } else {
      var init, last := consumers[..|consumers| - 1], consumers[|consumers| - 1];
      WorkersByStreaming(init, streaming);
      PickNext(Workers(init, streaming), init, last, keep, worker);
      assert consumers == init + [last];
    }
  }

  method ConvertTailConsumers(config: WorkerConfig, result: RawConfig)
    modifies result`tailConsumers, result`streamingTailConsumers
    ensures result.tailConsumers == Replaced(old(result.tailConsumers), Workers(config.tailConsumers, false))
    ensures result.streamingTailConsumers == Replaced(old(result.streamingTailConsumers), Workers(config.tailConsumers, true))
  {
    var consumers := config.tailConsumers;
    if |consumers| == 0 {
      return;
    }
    var tail, streaming := [], [];
    for n := 0 to |consumers|
      invariant tail == Workers(consumers[..n], false) && streaming == Workers(consumers[..n], true)
    {
      assert consumers[..n + 1][..n] == consumers[..n];
      if consumers[n].streaming {
        streaming := streaming + [consumers[n].worker];
      } else {
        tail := tail + [consumers[n].worker];
      }
    }
    assert consumers[..|consumers|] == consumers;
    if |tail| != 0 {
      result.tailConsumers := Some(tail);
    }
    if |streaming| != 0 {
      result.streamingTailConsumers := Some(streaming);
    }
  }

  // ---------------------------------------------------------------- the whole conversion

  lemma ExtendedTwice<T>(xs: seq<T>, ys: seq<T>)
    ensures Extended(Extended(None, xs), ys) == Filled(xs + ys) && Extended<T>(None, ys) == Filled(ys) == Replaced(None, ys)
  {
    ExtendedWhenFilled(Extended(None, xs), ys);
    ExtendedWhenFilled(None, xs);
    ExtendedWhenFilled(None, ys);
    assert [] + xs == xs && [] + ys == ys;
  }

  /** The passes after the bindings; those after the exports are not made if there are unknown
      exports. */
  method ConvertRest(config: WorkerConfig, settings: Option<SettingsConfig>, result: RawConfig) returns (unknown: seq<(string, string)>)
    requires result.top == TopFields(config.top) && result.exports == None
    requires result.accountId == None && result.complianceRegion == None
    requires result.routes == None && result.crons == None && result.connect == None && result.addresses == None
    requires result.tailConsumers == None && result.streamingTailConsumers == None && result.Queues().consumers == None
    modifies result`exports, result`routes, result`crons, result`queues, result`connect, result`addresses
    modifies result`tailConsumers, result`streamingTailConsumers, result`accountId, result`complianceRegion
    ensures unknown == Unknown(config.exports)
    ensures result.Queues().producers == old(result.Queues()).producers
    ensures unknown == [] ==> HoldsRest(result, config, settings)
  {
    unknown := ConvertExports(config, result);
    if |unknown| > 0 {
      return;
    }
    ConvertLists(config, result);
    if settings.Some? {
      ConvertSettings(settings.value, result);
    }
  }

  /** Domains, triggers and tail consumers. */
  method ConvertLists(config: WorkerConfig, result: RawConfig)
    requires result.routes == None && result.crons == None && result.connect == None && result.addresses == None
    requires result.tailConsumers == None && result.streamingTailConsumers == None && result.Queues().consumers == None
    modifies result`routes, result`crons, result`queues, result`connect, result`addresses
    modifies result`tailConsumers, result`streamingTailConsumers
    ensures result.Queues().producers == old(result.Queues()).producers
    ensures HoldsLists(result, config)
  {
    ConvertDomains(config, result);
    ConvertTriggers(config, result);
    ConvertTailConsumers(config, result);
    ExtendedTwice(DomainRoutes(config.domains), Split(config.triggers).routes);
    ExtendedTwice([], Split(config.triggers).consumers);
    ExtendedTwice([], Split(config.triggers).crons);
    ExtendedTwice([], Split(config.triggers).handlers);
    ExtendedTwice([], Workers(config.tailConsumers, false));
    ExtendedTwice([], Workers(config.tailConsumers, true));
  }

  /** The passes up to the bindings. */
  method ConvertFirst(config: WorkerConfig) returns (result: RawConfig)
    ensures fresh(result) && result.Bindings() == Scatter(config.env) && result.OnlyFilled()
    ensures result.AssetsMerge(config.assets, AssetsBinding in Scatter(config.env).singles)
    ensures result.UnsafeRest() == OrElse(config.unsafe, Some(NO_UNSAFE)).value
    ensures result.top == TopFields(config.top) && result.exports == None
    ensures result.accountId == None && result.complianceRegion == None
    ensures result.routes == None && result.crons == None && result.connect == None && result.addresses == None
    ensures result.tailConsumers == None && result.streamingTailConsumers == None && result.Queues().consumers == None
  {
    result := StartResult(config);
    ConvertBindingsAndAssets(config, result);
  }

  /** The new result with the top-level fields. */
  method StartResult(config: WorkerConfig) returns (result: RawConfig)
    ensures fresh(result) && result.HasNoBindings() && result.UnsafeRest() == OrElse(config.unsafe, Some(NO_UNSAFE)).value
    ensures result.top == TopFields(config.top) && result.exports == None
    ensures result.accountId == None && result.complianceRegion == None
    ensures result.routes == None && result.crons == None && result.connect == None && result.addresses == None
    ensures result.tailConsumers == None && result.streamingTailConsumers == None
  {
    result := new RawConfig();
    ConvertTopLevel(config, result);
  }

  /** Fails exactly on exports of unknown types, naming them. Otherwise every pass keeps what the
      earlier ones wrote to the fields they share. */
  method ConvertToWranglerConfig(config: WorkerConfig, settings: Option<SettingsConfig>) returns (r: Result<RawConfig, seq<(string, string)>>)
    ensures r.Err? <==> Unknown(config.exports) != []
    ensures r.Err? ==> r.error == Unknown(config.exports)
    ensures r.Ok? ==> fresh(r.value) && r.value.Bindings() == Scatter(config.env) && r.value.OnlyFilled()
    ensures r.Ok? ==> r.value.AssetsMerge(config.assets, AssetsBinding in Scatter(config.env).singles)
    ensures r.Ok? ==> r.value.UnsafeRest() == OrElse(config.unsafe, Some(NO_UNSAFE)).value
    ensures r.Ok? ==> HoldsRest(r.value, config, settings)
  {
    var result := ConvertFirst(config);
    ghost var bound, filled := result.Bindings(), result.OnlyFilled();
    var unknown := ConvertRest(config, settings, result);
    assert result.Bindings() == bound && result.OnlyFilled() == filled;
    if |unknown| > 0 {
      return Err(unknown);
    }
    return Ok(result);
  }

  /** The fields that hold no bindings. */
  ghost predicate HoldsRest(result: RawConfig, config: WorkerConfig, settings: Option<SettingsConfig>)
    reads result
  {
    && result.top == TopFields(config.top)
    && result.exports == (if Converted(config.exports) == map[] then None else Some(Converted(config.exports)))
    && HoldsLists(result, config)
    && result.accountId == (if settings.Some? then settings.value.accountId else None)
    && result.complianceRegion == (if settings.Some? then settings.value.complianceRegion else None)
  }

  ghost predicate HoldsLists(result: RawConfig, config: WorkerConfig)
    reads result
  {
    && result.routes == Filled(DomainRoutes(config.domains) + Split(config.triggers).routes)
    && result.Queues().consumers == Filled(Split(config.triggers).consumers)
    && result.crons == Filled(Split(config.triggers).crons)
    && result.connect == Filled(Split(config.triggers).handlers)
    && result.addresses == Split(config.triggers).addresses
    && result.tailConsumers == Filled(Workers(config.tailConsumers, false))
    && result.streamingTailConsumers == Filled(Workers(config.tailConsumers, true))
  }
}
