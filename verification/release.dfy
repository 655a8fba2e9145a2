// The tiered release protocol (publishAllPackages in tools/deployments/publish-packages.ts)
// as a state machine over the registry and the current run. A run reads a tier's packages
// from the registry, publishes the missing ones through the worker pool, waits for them to
// become resolvable and goes on to the next tier; after the last tier it creates the git
// tags. Reads can fail, a publish can fail, the wait can time out, and the job can be killed
// at any moment; then a new run may start, possibly for another state of the workspace. A
// version whose publish was called can land at any time after that, even when the publish
// failed or its job is gone, unless it lands never.

module Release {
  import opened Common
  import opened Packages
  import opened Tiers
  import opened WorkerPool
  import opened RegistryReads

  /** The versions on the registry, each with the exact versions it pins. */
  type Registry = map<Id, set<Id>>

  datatype Event =
    | Seen(pkg: Package)        // its version was in the packument filterUnpublished read
    | Call(pkg: Package)        // `pnpm publish` started
    | Published(pkg: Package)   // `pnpm publish` ended without an error
    | Failed(pkg: Package)      // `pnpm publish` ended with an error
    | Resolvable(pkg: Package)  // waitForPropagation found its version and an ok tarball
    | Tag                       // `changeset tag` ran

  datatype Phase =
    | Reading(unpublished: seq<Package>, k: nat)
    | Publishing(pool: Pool)
    | Waiting(pending: set<Package>)
    | Tagging
    | Done
    | Aborted

  datatype Run = Run(tiers: seq<seq<Package>>, skip: bool, concurrency: int, tier: nat, phase: Phase, log: seq<Event>)

  /** `called` are the versions for which a publish was ever called, with what they pin. */
  datatype State = State(registry: Registry, run: Run, called: set<(Id, set<Id>)>)

  datatype Step =
    | StartRun(tiers: seq<seq<Package>>, skip: bool, concurrency: int)
    | Read
    | ReadFails
    | Filtered
    | Work(action: Action)
    | Land(version: Id, pins: set<Id>)
    | TierPublished
    | Confirm(pkg: Package)
    | Timeout
    | Propagated
    | RunTag
    | Kill

  /** The packages of the workspace that `p` depends on. */
  ghost function Dependencies(tiers: seq<seq<Package>>, p: Package): set<Package> {
    set q | q in Flatten(tiers) && q.name in p.workspaceDependencies
  }

  ghost function PinsOf(tiers: seq<seq<Package>>, p: Package): set<Id> {
    set q | q in Dependencies(tiers, p) :: IdOf(q)
  }

  ghost function CallOf(tiers: seq<seq<Package>>, p: Package): (Id, set<Id>) {
    (IdOf(p), PinsOf(tiers, p))
  }

  ghost predicate WasCalled(s: State, v: Id) {
    exists pins :: (v, pins) in s.called
  }

  /** Not on the registry, but for a late landing of a version that was called before. */
  ghost predicate NotYetThere(s: State, v: Id) {
    v !in s.registry || WasCalled(s, v)
  }

  /** Every version on the registry has the versions it pins on the registry too. */
  ghost predicate Closed(r: Registry) {
    forall v, d :: v in r && d in r[v] ==> d in r
  }

  /** What computeTiers guarantees about the tiers of a workspace. */
  ghost predicate ValidTiers(tiers: seq<seq<Package>>) {
    UniqueNames(Flatten(tiers)) && KnownDependencies(Flatten(tiers)) && DependenciesFirst(tiers)
  }

  // ---------------------------------------------------------------- steps

  function EnterTier(run: Run, tier: nat): Run {
    run.(tier := tier, phase := if tier < |run.tiers| then Reading([], 0) else Tagging)
  }

  ghost predicate CanStep(s: State, step: Step) {
    var run, phase := s.run, s.run.phase;
    match step
    case StartRun(tiers, _, _) => (phase.Done? || phase.Aborted?) && ValidTiers(tiers)
    case Read => phase.Reading? && run.tier < |run.tiers| && phase.k < |run.tiers[run.tier]|
    case ReadFails => phase.Reading?
    case Filtered => phase.Reading? && run.tier < |run.tiers| && phase.k == |run.tiers[run.tier]|
    case Work(a) => phase.Publishing? && Enabled(phase.pool, a) && (a.Complete? && a.error.None? ==> Landed(s, a.worker))
    case Land(v, pins) => (v, pins) in s.called && v !in s.registry
    case TierPublished => phase.Publishing? && forall w :: 0 <= w < |phase.pool.workers| ==> phase.pool.workers[w].Finished?
    case Confirm(p) => phase.Waiting? && p in phase.pending && IdOf(p) in s.registry
    case Timeout => phase.Waiting? && phase.pending != {}
    case Propagated => phase.Waiting? && phase.pending == {}
    case RunTag => phase.Tagging?
    case Kill => !phase.Done?
  }

  /** The version that worker `w` is publishing has reached the registry. */
  ghost predicate Landed(s: State, w: nat) {
    && s.run.phase.Publishing?
    && w < |s.run.phase.pool.workers|
    && var worker := s.run.phase.pool.workers[w];
       worker.InFlight? && worker.index < |s.run.phase.pool.packages| && IdOf(s.run.phase.pool.packages[worker.index]) in s.registry
  }

  ghost function DoStep(s: State, step: Step): State
    requires CanStep(s, step)
  {
    var run, phase := s.run, s.run.phase;
    match step
    case StartRun(tiers, skip, concurrency) => s.(run := EnterTier(Run(tiers, skip, concurrency, 0, Done, []), 0))
    case Read =>
      var p := run.tiers[run.tier][phase.k];
      if IdOf(p) in s.registry
      then s.(run := run.(phase := Reading(phase.unpublished, phase.k + 1), log := run.log + [Seen(p)]))
      else s.(run := run.(phase := Reading(phase.unpublished + [p], phase.k + 1)))
    case Filtered =>
      if phase.unpublished == [] then s.(run := EnterTier(run, run.tier + 1))
      else s.(run := run.(phase := Publishing(Start(phase.unpublished, run.concurrency))))
    case Work(a) =>
      s.(run := run.(phase := Publishing(Apply(phase.pool, a)), log := run.log + PoolEvents(phase.pool, a)),
         called := if a.Claim? then s.called + {CallOf(run.tiers, phase.pool.packages[phase.pool.next])} else s.called)
    case Land(v, pins) => s.(registry := s.registry[v := pins])
    case TierPublished =>
      if exists i :: 0 <= i < |phase.pool.results| && phase.pool.results[i].Some? && phase.pool.results[i].value.error.Some?
      then s.(run := run.(phase := Aborted))
      else if run.tier + 1 >= |run.tiers| || run.skip then s.(run := EnterTier(run, run.tier + 1))
      else s.(run := run.(phase := Waiting(set p | p in phase.pool.packages)))
    case Confirm(p) => s.(run := run.(phase := Waiting(phase.pending - {p}), log := run.log + [Resolvable(p)]))
    case Propagated => s.(run := EnterTier(run, run.tier + 1))
    case RunTag => s.(run := run.(phase := Done, log := run.log + [Tag]))
    case ReadFails | Timeout | Kill => s.(run := run.(phase := Aborted))
  }

  ghost function PoolEvents(pool: Pool, a: Action): seq<Event>
    requires Enabled(pool, a)
  {
    match a
    case Claim(_) => [Call(pool.packages[pool.next])]
    case Complete(w, error) =>
      var p := pool.packages[pool.workers[w].index];
      [if error.None? then Published(p) else Failed(p)]
    case Exit(_) => []
  }

  // ---------------------------------------------------------------- the claims

  /** The run has evidence that `p` is available: it saw the version on the registry, or it
      published it without error and (unless told to skip the wait) found it resolvable. */
  ghost predicate Cleared(log: seq<Event>, skip: bool, p: Package) {
    Seen(p) in log || (Published(p) in log && (skip || Resolvable(p) in log))
  }

  /** Every publish call comes after evidence for each dependency of its package. */
  ghost predicate GateSafe(run: Run) {
    forall k, q :: 0 <= k < |run.log| && run.log[k].Call? && q in Dependencies(run.tiers, run.log[k].pkg) ==>
      Cleared(run.log[..k], run.skip, q)
  }

  /** The tags are created at most once, last, and only with every package on the registry. */
  ghost predicate TagSafe(s: State) {
    && (forall k :: 0 <= k < |s.run.log| && s.run.log[k].Tag? ==> k == |s.run.log| - 1)
    && (Tag in s.run.log ==> forall p :: p in Flatten(s.run.tiers) ==> IdOf(p) in s.registry)
  }

  // ---------------------------------------------------------------- invariant

  ghost predicate TierDone(s: State, j: nat)
    requires j < |s.run.tiers|
  {
    forall p :: p in s.run.tiers[j] ==> IdOf(p) in s.registry && Cleared(s.run.log, s.run.skip, p)
  }

  ghost predicate ReadingInv(s: State)
    requires s.run.phase.Reading? && s.run.tier < |s.run.tiers|
  {
    var run, phase := s.run, s.run.phase;
    && phase.k <= |run.tiers[run.tier]|
    && UniqueNames(phase.unpublished)
    && (forall p :: p in phase.unpublished ==>
          p in run.tiers[run.tier][..phase.k] && NotYetThere(s, IdOf(p)))
    && (forall p :: p in run.tiers[run.tier][..phase.k] ==>
          p in phase.unpublished || (IdOf(p) in s.registry && Seen(p) in run.log))
  }

  ghost predicate PublishingInv(s: State)
    requires s.run.phase.Publishing? && s.run.tier < |s.run.tiers|
  {
    var run, pool := s.run, s.run.phase.pool;
    && Valid(pool)
    && |pool.workers| >= 1
    && Distinct(pool.packages)
    && (forall i :: 0 <= i < |pool.packages| ==> pool.packages[i] in run.tiers[run.tier])
    && (forall i :: 0 <= i < pool.next ==> CallOf(run.tiers, pool.packages[i]) in s.called)
    && (forall i :: pool.next <= i < |pool.packages| ==> NotYetThere(s, IdOf(pool.packages[i])))
    && (forall i :: 0 <= i < |pool.packages| && pool.results[i].Some? && pool.results[i].value.error.None? ==>
          IdOf(pool.packages[i]) in s.registry && Published(pool.packages[i]) in run.log)
    && (forall p :: p in run.tiers[run.tier] ==>
          p in pool.packages || (IdOf(p) in s.registry && Seen(p) in run.log))
  }

  ghost predicate WaitingInv(s: State)
    requires s.run.phase.Waiting? && s.run.tier < |s.run.tiers|
  {
    var run := s.run;
    forall p :: p in run.tiers[run.tier] ==>
         IdOf(p) in s.registry && (Cleared(run.log, run.skip, p) || (p in run.phase.pending && Published(p) in run.log))
  }

  predicate InTier(run: Run) {
    run.phase.Reading? || run.phase.Publishing? || run.phase.Waiting?
  }

  ghost predicate PhaseInv(s: State) {
    match s.run.phase
    case Reading(_, _) => s.run.tier < |s.run.tiers| && ReadingInv(s)
    case Publishing(_) => s.run.tier < |s.run.tiers| && PublishingInv(s)
    case Waiting(_) => s.run.tier < |s.run.tiers| && WaitingInv(s)
    case Tagging => forall p :: p in Flatten(s.run.tiers) ==> IdOf(p) in s.registry
    case Done => true
    case Aborted => true
  }

  ghost predicate Inv(s: State) {
    && Closed(s.registry)
    && (forall v, pins :: (v, pins) in s.called ==> pins <= s.registry.Keys)
    && ValidTiers(s.run.tiers)
    && GateSafe(s.run)
    && TagSafe(s)
    && (Tag in s.run.log ==> s.run.phase.Done? || s.run.phase.Aborted?)
    && PhaseInv(s)
    && (InTier(s.run) ==> forall j :: 0 <= j < s.run.tier ==> TierDone(s, j))
  }

  // ---------------------------------------------------------------- facts about valid tiers

  lemma {:induction false} DependencyEarlier(tiers: seq<seq<Package>>, k: nat, p: Package, q: Package)
    requires ValidTiers(tiers) && k < |tiers| && p in tiers[k] && q in Dependencies(tiers, p)
    ensures exists j :: 0 <= j < k && q in tiers[j]
  {
    var all := Flatten(tiers);
    ByNameFinds(all);
    assert PlacedBefore(tiers, k, q.name);
    var j, r :| 0 <= j < k && r in tiers[j] && r.name == q.name;
    FlattenMember(tiers, r);
    SameName(all, q, r);
  }

  lemma SameName(packages: seq<Package>, p: Package, q: Package)
    requires UniqueNames(packages) && p in packages && q in packages && p.name == q.name
    ensures p == q
  {
  }

  /** The dependencies of the tier being published are on the registry, with evidence. */
  lemma {:induction false} DependenciesDone(s: State, p: Package)
    requires ValidTiers(s.run.tiers) && s.run.tier < |s.run.tiers| && p in s.run.tiers[s.run.tier]
    requires forall j :: 0 <= j < s.run.tier ==> TierDone(s, j)
    ensures forall q :: q in Dependencies(s.run.tiers, p) ==> IdOf(q) in s.registry && Cleared(s.run.log, s.run.skip, q)
  {
    forall q | q in Dependencies(s.run.tiers, p) ensures IdOf(q) in s.registry && Cleared(s.run.log, s.run.skip, q) {
      DependencyEarlier(s.run.tiers, s.run.tier, p, q);
      var j :| 0 <= j < s.run.tier && q in s.run.tiers[j];
      assert TierDone(s, j);
    }
  }

  // ---------------------------------------------------------------- preservation

  /** Appending events that are neither a call nor a tag, or growing the registry, keeps
      what the log already established. */
  lemma {:induction false} LogGrows(s: State, t: State, e: Event)
    requires t.run.tiers == s.run.tiers && t.run.skip == s.run.skip && t.run.log == s.run.log + [e]
    requires t.registry == s.registry
    requires GateSafe(s.run) && Tag !in s.run.log && !e.Tag?
    requires e.Call? ==> forall q :: q in Dependencies(s.run.tiers, e.pkg) ==> Cleared(s.run.log, s.run.skip, q)
    ensures GateSafe(t.run) && Tag !in t.run.log
    ensures forall p :: Cleared(s.run.log, s.run.skip, p) ==> Cleared(t.run.log, t.run.skip, p)
    ensures forall j :: 0 <= j < |s.run.tiers| && TierDone(s, j) ==> TierDone(t, j)
  {
    var log := s.run.log;
    forall k, q | 0 <= k < |t.run.log| && t.run.log[k].Call? && q in Dependencies(t.run.tiers, t.run.log[k].pkg)
      ensures Cleared(t.run.log[..k], t.run.skip, q)
    {
      assert t.run.log[..k] == log[..k];
      assert log[..|log|] == log;
    }
  }

  lemma {:induction false} ReadKeeps(s: State)
    requires Inv(s) && CanStep(s, Read)
    ensures Inv(DoStep(s, Read))
  {
    var run, phase, t := s.run, s.run.phase, DoStep(s, Read);
    var tier := run.tiers[run.tier];
    var p := tier[phase.k];
    assert tier[..phase.k + 1] == tier[..phase.k] + [p];
    TierDistinct(run.tiers, run.tier);
    forall q | q in tier[..phase.k] ensures q.name != p.name {
      var i :| 0 <= i < phase.k && tier[i] == q;
    }
    if IdOf(p) in s.registry {
      LogGrows(s, t, Seen(p));
    } else {
      assert forall j :: 0 <= j < run.tier && TierDone(s, j) ==> TierDone(t, j);
    }
  }

  lemma {:induction false} TierDistinct(tiers: seq<seq<Package>>, k: nat)
    requires UniqueNames(Flatten(tiers)) && k < |tiers|
    ensures UniqueNames(tiers[k])
  {
    var at := OffsetOf(tiers, k);
    forall i, j | 0 <= i < j < |tiers[k]| ensures tiers[k][i].name != tiers[k][j].name {
      assert Flatten(tiers)[at + i] == tiers[k][i] && Flatten(tiers)[at + j] == tiers[k][j];
    }
  }

  lemma {:induction false} OffsetOf(tiers: seq<seq<Package>>, k: nat) returns (at: nat)
    requires k < |tiers|
    ensures at + |tiers[k]| <= |Flatten(tiers)|
    ensures forall i :: 0 <= i < |tiers[k]| ==> Flatten(tiers)[at + i] == tiers[k][i]
  {
    var init := tiers[..|tiers| - 1];
    if k == |init| {
      at := |Flatten(init)|;
    } else {
      at := OffsetOf(init, k);
    }
  }

  /** Going on from a tier whose packages are all on the registry, with evidence unless it
      is the last one. */
  lemma {:induction false} EnterKeeps(s: State, t: State)
    requires Inv(s) && InTier(s.run)
    requires forall p :: p in s.run.tiers[s.run.tier] ==> IdOf(p) in s.registry
    requires s.run.tier + 1 < |s.run.tiers| ==> TierDone(s, s.run.tier)
    requires t == s.(run := EnterTier(s.run, s.run.tier + 1))
    ensures Inv(t)
  {
    if t.run.phase.Tagging? {
      forall p | p in Flatten(t.run.tiers) ensures IdOf(p) in t.registry {
        FlattenMember(t.run.tiers, p);
        var j :| 0 <= j < |t.run.tiers| && p in t.run.tiers[j];
        assert j < s.run.tier ==> TierDone(s, j);
      }
    } else {
      forall j | 0 <= j < t.run.tier ensures TierDone(t, j) {
        assert TierDone(s, j);
      }
    }
  }

  lemma {:induction false} FilteredKeeps(s: State)
    requires Inv(s) && CanStep(s, Filtered)
    ensures Inv(DoStep(s, Filtered))
  {
    var run, phase, t := s.run, s.run.phase, DoStep(s, Filtered);
    var tier := run.tiers[run.tier];
    assert tier[..phase.k] == tier;
    if phase.unpublished == [] {
      assert TierDone(s, run.tier);
      EnterKeeps(s, t);
    } else {
      PoolStarts(s, phase.unpublished, t);
    }
  }

  lemma {:induction false} PoolStarts(s: State, missing: seq<Package>, t: State)
    requires Inv(s) && s.run.phase.Reading? && t == s.(run := s.run.(phase := Publishing(Start(missing, s.run.concurrency))))
    requires UniqueNames(missing)
    requires forall p :: p in missing ==> p in s.run.tiers[s.run.tier] && NotYetThere(s, IdOf(p))
    requires forall p :: p in s.run.tiers[s.run.tier] && p !in missing ==> IdOf(p) in s.registry && Seen(p) in s.run.log
    ensures Inv(t)
  {
    StartValid(missing, s.run.concurrency);
    forall j | 0 <= j < t.run.tier ensures TierDone(t, j) {
      assert TierDone(s, j);
    }
  }

  lemma {:induction false} ClaimKeeps(s: State, a: Action)
    requires Inv(s) && CanStep(s, Work(a)) && a.Claim?
    ensures Inv(DoStep(s, Work(a)))
    ensures NotYetThere(s, IdOf(s.run.phase.pool.packages[s.run.phase.pool.next]))
  {
    var run, pool, t := s.run, s.run.phase.pool, DoStep(s, Work(a));
    var p := pool.packages[pool.next];
    DependenciesDone(s, p);
    LogGrows(s, t, Call(p));
    ClaimKeepsPool(s, a);
  }

  lemma {:induction false} ClaimKeepsPool(s: State, a: Action)
    requires Inv(s) && CanStep(s, Work(a)) && a.Claim?
    ensures PublishingInv(DoStep(s, Work(a)))
  {
    var t := DoStep(s, Work(a));
    ApplyValid(s.run.phase.pool, a);
    assert forall e :: e in s.run.log ==> e in t.run.log;
    assert forall v :: NotYetThere(s, v) ==> NotYetThere(t, v);
  }

  lemma {:induction false} CompleteKeeps(s: State, a: Action)
    requires Inv(s) && CanStep(s, Work(a)) && a.Complete?
    ensures Inv(DoStep(s, Work(a)))
  {
    var run, pool, t := s.run, s.run.phase.pool, DoStep(s, Work(a));
    var p := pool.packages[pool.workers[a.worker].index];
    ApplyValid(pool, a);
    LogGrows(s, t, if a.error.None? then Published(p) else Failed(p));
  }

  lemma {:induction false} ExitKeeps(s: State, a: Action)
    requires Inv(s) && CanStep(s, Work(a)) && a.Exit?
    ensures Inv(DoStep(s, Work(a)))
  {
    var t := DoStep(s, Work(a));
    ApplyValid(s.run.phase.pool, a);
    assert t.run.log == s.run.log;
    assert forall j :: 0 <= j < s.run.tier && TierDone(s, j) ==> TierDone(t, j);
  }

  lemma {:induction false} LandKeeps(s: State, v: Id, pins: set<Id>)
    requires Inv(s) && CanStep(s, Land(v, pins))
    ensures Inv(DoStep(s, Land(v, pins)))
  {
    var t := DoStep(s, Land(v, pins));
    assert WasCalled(t, v);
    assert forall u :: WasCalled(s, u) ==> WasCalled(t, u);
    assert forall u :: u in t.registry <==> u in s.registry || u == v;
    assert forall j :: 0 <= j < |s.run.tiers| && TierDone(s, j) ==> TierDone(t, j);
  }

  lemma {:induction false} TierPublishedKeeps(s: State)
    requires Inv(s) && CanStep(s, TierPublished)
    ensures Inv(DoStep(s, TierPublished))
  {
    var run, pool, t := s.run, s.run.phase.pool, DoStep(s, TierPublished);
    if exists i :: 0 <= i < |pool.results| && pool.results[i].Some? && pool.results[i].value.error.Some? {
    } else {
      assert pool.workers[0].Finished?;
      forall i | 0 <= i < |pool.packages|
        ensures IdOf(pool.packages[i]) in s.registry && Published(pool.packages[i]) in run.log
      {
      }
      if run.tier + 1 >= |run.tiers| || run.skip {
        EnterKeeps(s, t);
      } else {
        assert forall j :: 0 <= j < run.tier && TierDone(s, j) ==> TierDone(t, j);
      }
    }
  }

  lemma {:induction false} ConfirmKeeps(s: State, p: Package)
    requires Inv(s) && CanStep(s, Confirm(p))
    ensures Inv(DoStep(s, Confirm(p)))
  {
    LogGrows(s, DoStep(s, Confirm(p)), Resolvable(p));
  }

  lemma {:induction false} StartRunKeeps(s: State, tiers: seq<seq<Package>>, skip: bool, concurrency: int)
    requires Inv(s) && CanStep(s, StartRun(tiers, skip, concurrency))
    ensures Inv(DoStep(s, StartRun(tiers, skip, concurrency)))
  {
    assert tiers == [] ==> Flatten(tiers) == [];
  }

  lemma {:induction false} EndKeeps(s: State, step: Step)
    requires Inv(s) && CanStep(s, step) && (step.ReadFails? || step.Timeout? || step.Kill? || step.RunTag?)
    ensures Inv(DoStep(s, step))
  {
    var t := DoStep(s, step);
    if step.RunTag? {
      forall k, q | 0 <= k < |t.run.log| && t.run.log[k].Call? && q in Dependencies(t.run.tiers, t.run.log[k].pkg)
        ensures Cleared(t.run.log[..k], t.run.skip, q)
      {
        assert t.run.log[..k] == s.run.log[..k];
      }
    }
  }

  lemma {:induction false} StepKeeps(s: State, step: Step)
    requires Inv(s) && CanStep(s, step)
    ensures Inv(DoStep(s, step))
  {
    match step
    case StartRun(tiers, skip, concurrency) => StartRunKeeps(s, tiers, skip, concurrency);
    case Read => ReadKeeps(s);
    case Filtered => FilteredKeeps(s);
    case Work(a) =>
      match a {
        case Claim(_) => ClaimKeeps(s, a);
        case Complete(_, _) => CompleteKeeps(s, a);
        case Exit(_) => ExitKeeps(s, a);
      }
    case Land(v, pins) => LandKeeps(s, v, pins);
    case TierPublished => TierPublishedKeeps(s);
    case Confirm(p) => ConfirmKeeps(s, p);
    case Propagated => EnterKeeps(s, DoStep(s, step));
    case ReadFails | Timeout | Kill | RunTag => EndKeeps(s, step);
  }
}
