// What the loop of convertBindingsAndAssets in packages/config/src/convert.ts makes of the
// bindings of an environment, how they can be read back, and the checks of
// packages/config/src/schema.ts that this relies on.

module Convert {
  import opened Common
  import opened Writes

  datatype Json = JString(text: string) | JOther(id: int)

  /** The fields of the bindings that go to an array of the output. */
  datatype Field =
    | NameField | NamespaceField | IdField | OutboundField | DestinationField | SimpleField | JurisdictionField
    | StoreIdField | SecretNameField | DestinationAddressField | AllowedDestinationsField | AllowedSendersField
    | WorkerField | ExportNameField | PropsField | ConnectionStringField | S3CredentialsField

  /** The binding types whose entries all look alike: the name, some renamed fields, `remote`. */
  datatype Slot =
    | AgentMemory | AiSearch | AiSearchNamespace | AnalyticsEngine | Artifacts | D1 | DispatchNamespace | Flagship
    | Hyperdrive | Kv | Logfwdr | MtlsCertificate | Pipeline | RateLimit | R2 | SecretsStoreSecret | SendEmail
    | Vectorize | VpcService | Worker | WorkerLoader

  /** The names the fields get in the output. */
  datatype OutField =
    | Same(field: Field) | InstanceName | Dataset | DatabaseId | DatabaseName | AppId | LocalConnectionString
    | CertificateId | Stream | NamespaceId | BucketName | LocalDev | IndexName | ServiceId | Service | Entrypoint

  function Rename(slot: Slot, field: Field): OutField {
    match (slot, field)
    case (AiSearch, NameField) => InstanceName
    case (AnalyticsEngine, NameField) => Dataset
    case (D1, IdField) => DatabaseId
    case (D1, NameField) => DatabaseName
    case (Flagship, IdField) => AppId
    case (Hyperdrive, ConnectionStringField) => LocalConnectionString
    case (MtlsCertificate, IdField) => CertificateId
    case (Pipeline, NameField) => Stream
    case (RateLimit, NamespaceField) => NamespaceId
    case (R2, NameField) => BucketName
    case (R2, S3CredentialsField) => LocalDev
    case (Vectorize, NameField) => IndexName
    case (VpcService, IdField) => ServiceId
    case (Worker, WorkerField) => Service
    case (Worker, ExportNameField) => Entrypoint
    case _ => Same(field)
  }

  /** The slots whose entries get a `remote` field. */
  predicate TakesRemote(slot: Slot) {
    slot !in {AnalyticsEngine, Hyperdrive, Logfwdr, RateLimit, SecretsStoreSecret, WorkerLoader}
  }

  ghost predicate Injective(rename: Field -> OutField) {
    forall a, b :: rename(a) == rename(b) ==> a == b
  }

  /** No two fields of a slot get the same name. */
  lemma RenameInjective(slot: Slot)
    ensures Injective(f => Rename(slot, f))
  {
    forall a, b | Rename(slot, a) == Rename(slot, b) ensures a == b {
    }
  }

  function RenameFields(rename: Field -> OutField, fields: map<Field, Json>): map<OutField, Json>
    requires Injective(rename)
  {
    map f | f in fields :: rename(f) := fields[f]
  }

  function FieldsBack(rename: Field -> OutField, out: map<OutField, Json>): map<Field, Option<Json>> {
    map f: Field | rename(f) in out :: Some(out[rename(f)])
  }

  function Given(fields: map<Field, Option<Json>>): map<Field, Option<Json>> {
    map f | f in fields && fields[f].Some? :: fields[f]
  }

  /** Fields that were renamed and stripped of undefined values can be read back. */
  lemma FieldsReadBack(rename: Field -> OutField, fields: map<Field, Option<Json>>)
    requires Injective(rename)
    ensures FieldsBack(rename, RenameFields(rename, Defined(fields))) == Given(fields)
  {
    var out := RenameFields(rename, Defined(fields));
    forall f: Field ensures rename(f) in out <==> f in Given(fields) {
      if rename(f) in out {
        var g :| g in Defined(fields) && rename(g) == rename(f);
      }
    }
  }

  /** The `dev` object of a binding. */
  datatype Dev = Dev(remote: Option<bool>)

  function RemoteOf(dev: Option<Dev>): Option<bool> {
    if dev.Some? then dev.value.remote else None
  }

  function DevOf(remote: Option<bool>): Option<Dev> {
    if remote.Some? then Some(Dev(remote)) else None
  }

  /** The binding types that the output has one place for. */
  datatype Singleton = Ai | Browser | Images | Media | StreamBinding | VersionMetadata | WebSearch | AssetsBinding

  predicate TakesDev(kind: Singleton) {
    kind != VersionMetadata && kind != AssetsBinding
  }

  datatype Binding =
    | Listed(slot: Slot, fields: map<Field, Option<Json>>, dev: Option<Dev>)
    | Single(kind: Singleton, dev: Option<Dev>)
    | DurableObject(worker: string, exportName: string)
    | JsonVar(value: Json)
    | TextVar(text: string)
    | Secret
    | Queue(queue: Option<string>, deliveryDelay: Option<int>, dev: Option<Dev>)
    | VpcNetwork(tunnelId: Option<string>, networkId: Option<string>, dev: Option<Dev>)
    | Unsafe(unsafeType: string, other: map<string, Json>)

  type Env = seq<(string, Binding)>

  ghost predicate DistinctNames(env: Env) {
    forall i, j :: 0 <= i < j < |env| ==> env[i].0 != env[j].0
  }

  // ---------------------------------------------------------------- the schema's checks

  function SingletonOf(b: Binding): Option<Singleton> {
    if b.Single? then Some(b.kind) else None
  }

  ghost predicate SingletonsOnce(env: Env) {
    forall i, j :: 0 <= i < j < |env| && SingletonOf(env[i].1).Some? ==> SingletonOf(env[i].1) != SingletonOf(env[j].1)
  }

  ghost predicate SeenBefore(env: Env, n: nat, k: Singleton)
    requires n <= |env|
  {
    exists i :: 0 <= i < n && SingletonOf(env[i].1) == Some(k)
  }

  ghost predicate Repeated(env: Env, n: nat, k: Singleton)
    requires n <= |env|
  {
    exists j :: 0 <= j < n && SingletonOf(env[j].1) == Some(k) && SeenBefore(env, j, k)
  }

  /** The singleton types that are defined more than once; the environment is rejected if there
      are any. */
  method ValidateSingletonBindings(env: Env) returns (duplicates: set<Singleton>)
    ensures duplicates == {} <==> SingletonsOnce(env)
    ensures forall k :: k in duplicates <==> Repeated(env, |env|, k)
  {
    var seen: set<Singleton> := {};
    duplicates := {};
    for n := 0 to |env|
      invariant forall k :: k in seen <==> SeenBefore(env, n, k)
      invariant forall k :: k in duplicates <==> Repeated(env, n, k)
    {
      var kind := SingletonOf(env[n].1);
      forall k ensures SeenBefore(env, n + 1, k) <==> SeenBefore(env, n, k) || kind == Some(k) {
      }
      forall k ensures Repeated(env, n + 1, k) <==> Repeated(env, n, k) || (kind == Some(k) && SeenBefore(env, n, k)) {
      }
      if kind.Some? {
        if kind.value in seen {
          duplicates := duplicates + {kind.value};
        }
        seen := seen + {kind.value};
      }
    }
    NoneRepeated(env);
    assert duplicates == {} <==> forall k :: !Repeated(env, |env|, k);
  }

  lemma NoneRepeated(env: Env)
    ensures SingletonsOnce(env) <==> forall k :: !Repeated(env, |env|, k)
  {
    if forall k :: !Repeated(env, |env|, k) {
      forall i, j | 0 <= i < j < |env| && SingletonOf(env[i].1).Some? ensures SingletonOf(env[i].1) != SingletonOf(env[j].1) {
        var k := SingletonOf(env[i].1).value;
        assert SeenBefore(env, j, k);
        assert !Repeated(env, |env|, k);
      }
    }
  }

  /** The refinement of vpc-network bindings. */
  predicate ExactlyOneNetwork(b: Binding) {
    b.VpcNetwork? ==> b.tunnelId.Some? != b.networkId.Some?
  }

  // ---------------------------------------------------------------- output

  /** `omitUndefined`: only the fields that have a value. */
  function Defined<K, V>(obj: map<K, Option<V>>): map<K, V> {
    map k | k in obj && obj[k].Some? :: obj[k].value
  }

  method OmitUndefined<K(==), V>(obj: map<K, Option<V>>) returns (out: map<K, V>)
    ensures out == Defined(obj)
  {
    out := map[];
    var todo := obj.Keys;
    while todo != {}
      invariant todo <= obj.Keys
      invariant out == map k | k in obj && k !in todo && obj[k].Some? :: obj[k].value
    {
      var key :| key in todo;
      if obj[key].Some? {
        out := out[key := obj[key].value];
      }
      todo := todo - {key};
    }
  }

  datatype Entry = Entry(name: string, fields: map<OutField, Json>, remote: Option<bool>)

  datatype DurableEntry = DurableEntry(name: string, className: string, scriptName: string)

  datatype Producer = Producer(name: string, queue: Option<string>, deliveryDelay: Option<int>, remote: Option<bool>)

  datatype VpcEntry = VpcEntry(name: string, tunnelId: Option<string>, networkId: Option<string>, remote: Option<bool>)

  /** What the bindings of an environment become. A slot without entries is absent. */
  datatype Output = Output(
    listed: map<Slot, seq<Entry>>,
    singles: map<Singleton, (string, Option<bool>)>,
    durable: seq<DurableEntry>,
    producers: seq<Producer>,
    vpcNetworks: seq<VpcEntry>,
    unsafeBindings: seq<map<string, Json>>,
    vars: map<string, Json>,
    secrets: seq<string>)

  const EMPTY := Output(map[], map[], [], [], [], [], map[], [])

  function EntriesOf(out: Output, slot: Slot): seq<Entry> {
    if slot in out.listed then out.listed[slot] else []
  }

  function Renamed(slot: Slot, fields: map<Field, Json>): map<OutField, Json> {
    RenameInjective(slot);
    RenameFields(f => Rename(slot, f), fields)
  }

  function EntryFor(name: string, slot: Slot, fields: map<Field, Option<Json>>, dev: Option<Dev>): Entry {
    Entry(name, Renamed(slot, Defined(fields)), if TakesRemote(slot) then RemoteOf(dev) else None)
  }

  /** `{...binding, name, type}`: an unsafe binding's own `name` is overwritten. */
  function UnsafeEntry(name: string, b: Binding): map<string, Json>
    requires b.Unsafe?
  {
    b.other["name" := JString(name)]["type" := JString(b.unsafeType)]
  }

  /** One iteration of the loop over the environment. */
  function Step(out: Output, name: string, b: Binding): Output {
    match b
    case Listed(slot, fields, dev) =>
      out.(listed := out.listed[slot := EntriesOf(out, slot) + [EntryFor(name, slot, fields, dev)]])
    case Single(kind, dev) =>
      out.(singles := out.singles[kind := (name, if TakesDev(kind) then RemoteOf(dev) else None)])
    case DurableObject(worker, exportName) => out.(durable := out.durable + [DurableEntry(name, exportName, worker)])
    case JsonVar(value) => out.(vars := out.vars[name := value])
    case TextVar(text) => out.(vars := out.vars[name := JString(text)])
    case Secret => out.(secrets := out.secrets + [name])
    case Queue(queue, delay, dev) => out.(producers := out.producers + [Producer(name, queue, delay, RemoteOf(dev))])
    case VpcNetwork(tunnelId, networkId, dev) =>
      if tunnelId.Some? then out.(vpcNetworks := out.vpcNetworks + [VpcEntry(name, tunnelId, None, RemoteOf(dev))])
      else if networkId.Some? then out.(vpcNetworks := out.vpcNetworks + [VpcEntry(name, None, networkId, RemoteOf(dev))])
      else out
    case Unsafe(_, _) => out.(unsafeBindings := out.unsafeBindings + [UnsafeEntry(name, b)])
  }

  /** The loop over the environment. */
  function Scatter(env: Env): Output {
    if env == [] then EMPTY else Step(Scatter(env[..|env| - 1]), env[|env| - 1].0, env[|env| - 1].1)
  }

  // ---------------------------------------------------------------- reading back

  /** A place of the output that can hold a binding. */
  datatype Place =
    | InList(slot: Slot, i: nat)
    | InSingle(kind: Singleton)
    | InDurable(i: nat)
    | InProducers(i: nat)
    | InVpc(i: nat)
    | InUnsafe(i: nat)
    | InVars(name: string)
    | InSecrets(i: nat)

  /** What Wrangler's config holds under one of the names it does not share with the bindings. */
  function OwnField(slot: Slot, name: OutField): Option<Field> {
    match name
    case InstanceName => if slot == AiSearch then Some(NameField) else None
    case Dataset => if slot == AnalyticsEngine then Some(NameField) else None
    case DatabaseId => if slot == D1 then Some(IdField) else None
    case DatabaseName => if slot == D1 then Some(NameField) else None
    case AppId => if slot == Flagship then Some(IdField) else None
    case LocalConnectionString => if slot == Hyperdrive then Some(ConnectionStringField) else None
    case CertificateId => if slot == MtlsCertificate then Some(IdField) else None
    case Stream => if slot == Pipeline then Some(NameField) else None
    case NamespaceId => if slot == RateLimit then Some(NamespaceField) else None
    case BucketName => if slot == R2 then Some(NameField) else None
    case LocalDev => if slot == R2 then Some(S3CredentialsField) else None
    case IndexName => if slot == Vectorize then Some(NameField) else None
    case ServiceId => if slot == VpcService then Some(IdField) else None
    case Service => if slot == Worker then Some(WorkerField) else None
    case Entrypoint => if slot == Worker then Some(ExportNameField) else None
    case Same(_) => None
  }

  /** The arrays of Wrangler's config have names of their own for these fields. */
  predicate HasOwnName(slot: Slot, field: Field) {
    match field
    case NameField =>
      slot == AiSearch || slot == AnalyticsEngine || slot == D1 || slot == Pipeline || slot == R2 || slot == Vectorize
    case IdField => slot == D1 || slot == Flagship || slot == MtlsCertificate || slot == VpcService
    case NamespaceField => slot == RateLimit
    case ConnectionStringField => slot == Hyperdrive
    case S3CredentialsField => slot == R2
    case WorkerField | ExportNameField => slot == Worker
    case _ => false
  }

  /** What a name means to Wrangler in an entry of the array. */
  function FieldOf(slot: Slot, name: OutField): Option<Field> {
    if !name.Same? then OwnField(slot, name)
    else if HasOwnName(slot, name.field) then None
    else Some(name.field)
  }

  lemma OwnNamesDiffer(slot: Slot, a: OutField, b: OutField)
    ensures OwnField(slot, a).Some? ==> !a.Same? && HasOwnName(slot, OwnField(slot, a).value)
    ensures OwnField(slot, a).Some? && OwnField(slot, a) == OwnField(slot, b) ==> a == b
  {
  }

  /** No field is read under two names. */
  ghost predicate OneNameEach(meaning: OutField -> Option<Field>) {
    forall a, b :: meaning(a).Some? && meaning(a) == meaning(b) ==> a == b
  }

  lemma FieldOfOneName(slot: Slot)
    ensures OneNameEach(name => FieldOf(slot, name))
  {
    forall a, b | FieldOf(slot, a).Some? && FieldOf(slot, a) == FieldOf(slot, b) ensures a == b {
      OwnNamesDiffer(slot, a, b);
      OwnNamesDiffer(slot, b, a);
    }
  }

  /** The compiler uses the names that Wrangler reads. */
  lemma NamesAgree(slot: Slot, field: Field)
    ensures FieldOf(slot, Rename(slot, field)) == Some(field)
  {
  }

  /** The fields of an entry, name by name. */
  function ReadNames(meaning: OutField -> Option<Field>, out: map<OutField, Json>): map<Field, Option<Json>>
    requires OneNameEach(meaning)
  {
    map name | name in out && meaning(name).Some? :: meaning(name).value := Some(out[name])
  }

  lemma ReadByName(meaning: OutField -> Option<Field>, rename: Field -> OutField, out: map<OutField, Json>)
    requires OneNameEach(meaning) && forall f :: meaning(rename(f)) == Some(f)
    ensures ReadNames(meaning, out) == FieldsBack(rename, out)
  {
    forall name | meaning(name).Some? ensures name == rename(meaning(name).value) {
      assert meaning(rename(meaning(name).value)) == meaning(name);
    }
  }

  /** An entry as Wrangler reads it. */
  function FieldsRead(slot: Slot, out: map<OutField, Json>): map<Field, Option<Json>> {
    FieldOfOneName(slot);
    ReadNames(name => FieldOf(slot, name), out)
  }

  function ReadEntry(slot: Slot, e: Entry): (string, Binding) {
    (e.name, Listed(slot, FieldsRead(slot, e.fields), DevOf(e.remote)))
  }

  function ReadListed(slot: Slot, entries: seq<Entry>, i: nat): Option<(string, Binding)> {
    if i >= |entries| then None else Some(ReadEntry(slot, entries[i]))
  }

  /** Reads the binding at a place, with its name. */
  function ReadBack(out: Output, place: Place): Option<(string, Binding)> {
    match place
    case InList(slot, i) => ReadListed(slot, EntriesOf(out, slot), i)
    case InSingle(kind) =>
      if kind !in out.singles then None else Some((out.singles[kind].0, Single(kind, DevOf(out.singles[kind].1))))
    case InDurable(i) =>
      if i >= |out.durable| then None
      else Some((out.durable[i].name, DurableObject(out.durable[i].scriptName, out.durable[i].className)))
    case InProducers(i) =>
      if i >= |out.producers| then None
      else
        var p := out.producers[i];
        Some((p.name, Queue(p.queue, p.deliveryDelay, DevOf(p.remote))))
    case InVpc(i) =>
      if i >= |out.vpcNetworks| then None
      else
        var v := out.vpcNetworks[i];
        Some((v.name, VpcNetwork(v.tunnelId, v.networkId, DevOf(v.remote))))
    case InUnsafe(i) =>
      if i >= |out.unsafeBindings| then None
      else
        var u := out.unsafeBindings[i];
        if "name" in u && "type" in u && u["name"].JString? && u["type"].JString?
        then Some((u["name"].text, Unsafe(u["type"].text, u - {"name", "type"})))
        else None
    case InVars(name) => if name !in out.vars then None else Some((name, JsonVar(out.vars[name])))
    case InSecrets(i) => if i >= |out.secrets| then None else Some((out.secrets[i], Secret))
  }

  /** The arrays and places of Wrangler's config that know a `remote` field. */
  const REMOTE_LISTS: set<Slot> := {
    AgentMemory, AiSearch, AiSearchNamespace, Artifacts, D1, DispatchNamespace, Flagship, Kv, MtlsCertificate, Pipeline, R2,
    SendEmail, Vectorize, VpcService, Worker}
  const REMOTE_SINGLES: set<Singleton> := {Ai, Browser, Images, Media, StreamBinding, WebSearch}

  /** The form in which a binding is read back: undefined fields are absent, so is an empty
      `dev`, and a text is a json string. */
  function Canonical(b: Binding): Binding {
    match b
    case Listed(slot, fields, dev) => Listed(slot, Given(fields), if slot in REMOTE_LISTS then DevOf(RemoteOf(dev)) else None)
    case Single(kind, dev) => Single(kind, if kind in REMOTE_SINGLES then DevOf(RemoteOf(dev)) else None)
    case TextVar(text) => JsonVar(JString(text))
    case Queue(queue, delay, dev) => Queue(queue, delay, DevOf(RemoteOf(dev)))
    case VpcNetwork(tunnelId, networkId, dev) => VpcNetwork(tunnelId, networkId, DevOf(RemoteOf(dev)))
    case Unsafe(unsafeType, other) => Unsafe(unsafeType, other - {"type"})
    case _ => b
  }

  /** What survives of a binding: an unsafe binding's own `name` and, of two networks, the
      second one do not. */
  function Surviving(b: Binding): Binding {
    match Canonical(b)
    case Unsafe(unsafeType, other) => Unsafe(unsafeType, other - {"name"})
    case VpcNetwork(tunnelId, networkId, dev) => VpcNetwork(tunnelId, if tunnelId.Some? then None else networkId, dev)
    case c => c
  }

  /** Where one iteration puts its binding. */
  function PlaceFor(out: Output, name: string, b: Binding): Option<Place> {
    match b
    case Listed(slot, _, _) => Some(InList(slot, |EntriesOf(out, slot)|))
    case Single(kind, _) => Some(InSingle(kind))
    case DurableObject(_, _) => Some(InDurable(|out.durable|))
    case JsonVar(_) => Some(InVars(name))
    case TextVar(_) => Some(InVars(name))
    case Secret => Some(InSecrets(|out.secrets|))
    case Queue(_, _, _) => Some(InProducers(|out.producers|))
    case VpcNetwork(tunnelId, networkId, _) =>
      if tunnelId.None? && networkId.None? then None else Some(InVpc(|out.vpcNetworks|))
    case Unsafe(_, _) => Some(InUnsafe(|out.unsafeBindings|))
  }

  /** One iteration changes what is read at one place at most. */
  lemma StepReadsBack(out: Output, name: string, b: Binding, place: Place)
    ensures ReadBack(Step(out, name, b), place) ==
      if PlaceFor(out, name, b) == Some(place) then Some((name, Surviving(b))) else ReadBack(out, place)
  {
    match b {
      case Listed(_, _, _) => ListedReadsBack(out, name, b, place);
      case Unsafe(_, _) => UnsafeReadsBack(out, name, b, place);
      case Queue(_, _, _) => NetworkedReadsBack(out, name, b, place);
      case VpcNetwork(_, _, _) => NetworkedReadsBack(out, name, b, place);
      case _ => OtherReadsBack(out, name, b, place);
    }
  }

  lemma NetworkedReadsBack(out: Output, name: string, b: Binding, place: Place)
    requires b.Queue? || b.VpcNetwork?
    ensures ReadBack(Step(out, name, b), place) ==
      if PlaceFor(out, name, b) == Some(place) then Some((name, Surviving(b))) else ReadBack(out, place)
  {
  }

  lemma OtherReadsBack(out: Output, name: string, b: Binding, place: Place)
    requires !b.Listed? && !b.Unsafe? && !b.Queue? && !b.VpcNetwork?
    ensures ReadBack(Step(out, name, b), place) ==
      if PlaceFor(out, name, b) == Some(place) then Some((name, Surviving(b))) else ReadBack(out, place)
  {
  }

  lemma EntryReadsBack(name: string, slot: Slot, fields: map<Field, Option<Json>>, dev: Option<Dev>)
    ensures ReadEntry(slot, EntryFor(name, slot, fields, dev)) == (name, Surviving(Listed(slot, fields, dev)))
  {
    RenameInjective(slot);
    FieldsReadBack(f => Rename(slot, f), fields);
    FieldOfOneName(slot);
    forall f ensures FieldOf(slot, Rename(slot, f)) == Some(f) {
      NamesAgree(slot, f);
    }
    ReadByName(name => FieldOf(slot, name), f => Rename(slot, f), Renamed(slot, Defined(fields)));
  }

  lemma AppendReadsBack(slot: Slot, entries: seq<Entry>, entry: Entry, i: nat)
    ensures ReadListed(slot, entries + [entry], i) == if i == |entries| then Some(ReadEntry(slot, entry)) else ReadListed(slot, entries, i)
  {
  }

  lemma ListedReadsBack(out: Output, name: string, b: Binding, place: Place)
    requires b.Listed?
    ensures ReadBack(Step(out, name, b), place) ==
      if PlaceFor(out, name, b) == Some(place) then Some((name, Surviving(b))) else ReadBack(out, place)
  {
    if place.InList? && place.slot == b.slot {
      var entries, entry := EntriesOf(out, b.slot), EntryFor(name, b.slot, b.fields, b.dev);
      EntryReadsBack(name, b.slot, b.fields, b.dev);
      AppendReadsBack(b.slot, entries, entry, place.i);
      assert EntriesOf(Step(out, name, b), b.slot) == entries + [entry];
    }
  }

  lemma UnsafeReadsBack(out: Output, name: string, b: Binding, place: Place)
    requires b.Unsafe?
    ensures ReadBack(Step(out, name, b), place) ==
      if PlaceFor(out, name, b) == Some(place) then Some((name, Surviving(b))) else ReadBack(out, place)
  {
    if PlaceFor(out, name, b) == Some(place) {
      var u := UnsafeEntry(name, b);
      assert "name"[0] != "type"[0];
      assert u - {"name", "type"} == b.other - {"type"} - {"name"};
    }
  }

  // ---------------------------------------------------------------- conservation

  predicate Shared(place: Place) {
    place.InSingle? || place.InVars?
  }

  lemma StepShares(out: Output, name: string, b: Binding, place: Place)
    ensures PlaceFor(out, name, b) == Some(place) && ReadBack(out, place).Some? ==> Shared(place)
  {
  }

  lemma SharedBy(out: Output, name: string, b: Binding, place: Place)
    requires PlaceFor(out, name, b) == Some(place) && Shared(place)
    ensures place == if place.InSingle? then InSingle(b.kind) else InVars(name)
    ensures place.InSingle? <==> SingletonOf(b).Some?
  {
  }

  /** The loop as a sequence of writes to the output. */
  function Compiler(): Store<Output, (string, Binding), Place, (string, Binding)> {
    Store(
      EMPTY,
      (out: Output, x: (string, Binding)) => Step(out, x.0, x.1),
      (out: Output, x: (string, Binding)) => PlaceFor(out, x.0, x.1),
      (out: Output, place: Place) => ReadBack(out, place),
      (x: (string, Binding)) => (x.0, Surviving(x.1)),
      (place: Place) => Shared(place))
  }

  lemma CompilerWrites()
    ensures WritesOnePlace(Compiler())
  {
    forall out: Output, x: (string, Binding), place: Place
      ensures ReadBack(Step(out, x.0, x.1), place) ==
        (if PlaceFor(out, x.0, x.1) == Some(place) then Some((x.0, Surviving(x.1))) else ReadBack(out, place))
    {
      StepReadsBack(out, x.0, x.1, place);
    }
  }

  lemma CompilerShares()
    ensures SharesOnly(Compiler())
  {
    forall out: Output, x: (string, Binding), place: Place
      ensures PlaceFor(out, x.0, x.1) == Some(place) && ReadBack(out, place).Some? ==> Shared(place)
    {
      StepShares(out, x.0, x.1, place);
    }
  }

  lemma CompilerLawful()
    ensures Lawful(Compiler())
  {
    CompilerWrites();
    CompilerShares();
  }

  lemma {:induction false} ScatterIsRun(env: Env)
    ensures Scatter(env) == Run(Compiler(), env)
  {
    if env == [] {
    } else {
      ScatterIsRun(env[..|env| - 1]);
    }
  }

  function PlaceOf(env: Env, i: nat): Option<Place>
    requires i < |env|
  {
    PlaceAt(Compiler(), env, i)
  }

  predicate NoOwnName(b: Binding) {
    b.Unsafe? ==> "name" !in b.other
  }

  /** A vpc-network binding names at least one network. */
  predicate SomeNetwork(b: Binding) {
    b.VpcNetwork? ==> b.tunnelId.Some? || b.networkId.Some?
  }

  lemma SurvivesWhole(b: Binding)
    requires SomeNetwork(b)
    ensures Surviving(b) == Canonical(b) <==> ExactlyOneNetwork(b) && NoOwnName(b)
  {
    if b.Unsafe? {
      assert "name"[0] != "type"[0];
      assert "name" in b.other <==> "name" in b.other - {"type"};
      if "name" !in b.other {
        assert b.other - {"type"} - {"name"} == b.other - {"type"};
      }
    }
  }

  lemma PlacedIff(env: Env, i: nat)
    requires i < |env|
    ensures PlaceOf(env, i).Some? <==> SomeNetwork(env[i].1)
  {
    PlaceForSome(Run(Compiler(), env[..i]), env[i].0, env[i].1);
  }

  lemma PlaceForSome(out: Output, name: string, b: Binding)
    ensures PlaceFor(out, name, b).Some? <==> SomeNetwork(b)
  {
  }

  /** Two bindings are put at the same place only if they have the same name or are the same
      singleton, and every binding of a singleton type is put at that type's place. */
  lemma SamePlace(env: Env, i: nat, j: nat)
    requires i < j < |env| && env[i].0 != env[j].0
    ensures PlaceOf(env, i).Some? && PlaceOf(env, i) == PlaceOf(env, j) ==>
      SingletonOf(env[i].1).Some? && SingletonOf(env[i].1) == SingletonOf(env[j].1)
    ensures SingletonOf(env[i].1).Some? && SingletonOf(env[i].1) == SingletonOf(env[j].1) ==>
      PlaceOf(env, i) == PlaceOf(env, j)
  {
    CompilerLawful();
    if PlaceOf(env, i).Some? && PlaceOf(env, i) == PlaceOf(env, j) {
      var place := PlaceOf(env, i).value;
      PutTwice(Compiler(), env, i, j, place);
      SharedBy(Run(Compiler(), env[..i]), env[i].0, env[i].1, place);
      SharedBy(Run(Compiler(), env[..j]), env[j].0, env[j].1, place);
    }
  }

  /** Conservation. If each singleton type occurs once and each vpc-network binding names a
      network, as the schema makes sure, every binding has a place of its own in the output,
      its name and what survives of it are read there, and nothing else is in the output. */
  lemma BindingsConserved(env: Env)
    requires DistinctNames(env) && SingletonsOnce(env)
    requires forall i :: 0 <= i < |env| ==> SomeNetwork(env[i].1)
    ensures forall i :: 0 <= i < |env| ==> PlaceOf(env, i).Some?
    ensures forall i :: 0 <= i < |env| ==> ReadBack(Scatter(env), PlaceOf(env, i).value) == Some((env[i].0, Surviving(env[i].1)))
    ensures forall i, j :: 0 <= i < j < |env| ==> PlaceOf(env, i) != PlaceOf(env, j)
    ensures forall place :: ReadBack(Scatter(env), place).Some? ==> exists i :: 0 <= i < |env| && PlaceOf(env, i) == Some(place)
  {
    forall i, j | 0 <= i < j < |env| ensures PlaceOf(env, i) != PlaceOf(env, j) && PlaceOf(env, i).Some? {
      PlacedIff(env, i);
      SamePlace(env, i, j);
    }
    forall i | 0 <= i < |env|
      ensures PlaceOf(env, i).Some?
      ensures ReadBack(Scatter(env), PlaceOf(env, i).value) == Some((env[i].0, Surviving(env[i].1)))
    {
      PlacedIff(env, i);
      var k := LastWriter(env, PlaceOf(env, i).value);
      assert k == i;
    }
    forall place | ReadBack(Scatter(env), place).Some? ensures exists i :: 0 <= i < |env| && PlaceOf(env, i) == Some(place) {
      var k := LastWriter(env, place);
    }
  }

  lemma LastWriter(env: Env, place: Place) returns (i: int)
    ensures i == -1 ==> ReadBack(Scatter(env), place) == None && forall j :: 0 <= j < |env| ==> PlaceOf(env, j) != Some(place)
    ensures i != -1 ==> 0 <= i < |env| && PlaceOf(env, i) == Some(place)
    ensures i != -1 ==> ReadBack(Scatter(env), place) == Some((env[i].0, Surviving(env[i].1)))
    ensures i != -1 ==> forall j :: i < j < |env| ==> PlaceOf(env, j) != Some(place)
  {
    CompilerLawful();
    ScatterIsRun(env);
    i := ReadsLast(Compiler(), env, place);
  }

  /** The whole environment can be read back. */
  ghost predicate ReadsBackWhole(env: Env) {
    forall i :: 0 <= i < |env| ==> Found(env, env[i].0, Canonical(env[i].1))
  }

  ghost predicate Found(env: Env, name: string, b: Binding) {
    exists place :: ReadBack(Scatter(env), place) == Some((name, b))
  }

  /** It can exactly when it passes the schema's two checks and no unsafe binding carries a
      field `name` of its own. The last is not checked by the schema. */
  lemma ReadsBackIff(env: Env)
    requires DistinctNames(env)
    ensures ReadsBackWhole(env) <==>
      SingletonsOnce(env) && forall i :: 0 <= i < |env| ==> ExactlyOneNetwork(env[i].1) && NoOwnName(env[i].1)
  {
    if SingletonsOnce(env) && forall i :: 0 <= i < |env| ==> ExactlyOneNetwork(env[i].1) && NoOwnName(env[i].1) {
      ChecksSuffice(env);
    }
    if ReadsBackWhole(env) {
      forall i | 0 <= i < |env| ensures ExactlyOneNetwork(env[i].1) && NoOwnName(env[i].1) {
        var place := OwnPlace(env, i);
        PlacedIff(env, i);
        SurvivesWhole(env[i].1);
      }
      forall i, j | 0 <= i < j < |env| && SingletonOf(env[i].1).Some? ensures SingletonOf(env[i].1) != SingletonOf(env[j].1) {
        var place := OwnPlace(env, i);
        SamePlace(env, i, j);
      }
    }
  }

  lemma ChecksSuffice(env: Env)
    requires DistinctNames(env) && SingletonsOnce(env)
    requires forall i :: 0 <= i < |env| ==> ExactlyOneNetwork(env[i].1) && NoOwnName(env[i].1)
    ensures ReadsBackWhole(env)
  {
    BindingsConserved(env);
    forall i | 0 <= i < |env| ensures Found(env, env[i].0, Canonical(env[i].1)) {
      SurvivesWhole(env[i].1);
      var place := PlaceOf(env, i).value;
      assert ReadBack(Scatter(env), place) == Some((env[i].0, Canonical(env[i].1)));
    }
  }

  /** A binding that is read back is the last one put at its place, and survives whole. */
  lemma OwnPlace(env: Env, i: nat) returns (place: Place)
    requires DistinctNames(env) && i < |env| && Found(env, env[i].0, Canonical(env[i].1))
    ensures PlaceOf(env, i) == Some(place) && forall j :: i < j < |env| ==> PlaceOf(env, j) != Some(place)
    ensures Surviving(env[i].1) == Canonical(env[i].1)
  {
    place :| ReadBack(Scatter(env), place) == Some((env[i].0, Canonical(env[i].1)));
    var k := LastWriter(env, place);
  }

  /** No reader could do better: the output does not depend on an unsafe binding's own name. */
  lemma OwnNameIsLost(out: Output, name: string, unsafeType: string, other: map<string, Json>)
    ensures Step(out, name, Unsafe(unsafeType, other)) == Step(out, name, Unsafe(unsafeType, other - {"name"}))
  {
    assert other["name" := JString(name)] == (other - {"name"})["name" := JString(name)];
  }
}
