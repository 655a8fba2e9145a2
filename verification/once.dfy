// No version is published twice (publishAllPackages in tools/deployments/publish-packages.ts):
// not by one run, whose tiers and pools share no package, and not by a later run, which reads
// the registry before it publishes.

module Once {
  import opened Common
  import opened Packages
  import opened WorkerPool
  import opened RegistryReads
  import opened Release
  import opened Histories
  import opened Gate

  /** Only packages of the tiers passed, and those of the current tier that a worker has
      claimed, were called. */
  ghost predicate CalledSoFar(run: Run)
    requires run.tier < |run.tiers|
  {
    forall p :: Call(p) in run.log ==>
      || InEarlierTier(run, p, run.tier)
      || (p in run.tiers[run.tier] && (run.phase.Waiting? || (run.phase.Publishing? && Claimed(run.phase.pool, p))))
  }

  ghost predicate Claimed(pool: Pool, p: Package) {
    exists i :: 0 <= i < pool.next && i < |pool.packages| && pool.packages[i] == p
  }

  ghost predicate CallsDiffer(log: seq<Event>) {
    forall k, k' :: 0 <= k < k' < |log| && log[k].Call? && log[k'].Call? ==> log[k].pkg != log[k'].pkg
  }

  ghost predicate PublishedWereCalled(log: seq<Event>) {
    forall p :: Published(p) in log ==> Call(p) in log
  }

  ghost predicate OnceInv(run: Run) {
    && CallsDiffer(run.log) && PublishedWereCalled(run.log)
    && (forall p :: Call(p) in run.log ==> p in Flatten(run.tiers))
    && (InTier(run) ==> run.tier < |run.tiers| && CalledSoFar(run))
    && (run.phase.Publishing? ==> forall w :: 0 <= w < |run.phase.pool.workers| && run.phase.pool.workers[w].InFlight? ==>
          run.phase.pool.workers[w].index < |run.phase.pool.packages| && Call(run.phase.pool.packages[run.phase.pool.workers[w].index]) in run.log)
  }

  // ---------------------------------------------------------------- preservation

  /** A worker claims only what the run has not called. */
  lemma ClaimsUncalled(s: State, a: Action, p: Package)
    requires Inv(s) && OnceInv(s.run) && Claims(s, a, p)
    ensures Call(p) !in s.run.log && p in Flatten(s.run.tiers) && p in s.run.tiers[s.run.tier]
  {
    var run, pool := s.run, s.run.phase.pool;
    assert p == pool.packages[pool.next] && p in run.tiers[run.tier];
    FlattenMember(run.tiers, p);
    NotEarlier(run, p);
  }

  lemma ClaimOnce(s: State, a: Action)
    requires Inv(s) && OnceInv(s.run) && CanStep(s, Work(a)) && a.Claim?
    ensures OnceInv(DoStep(s, Work(a)).run)
  {
    var p := s.run.phase.pool.packages[s.run.phase.pool.next];
    ClaimsUncalled(s, a, p);
    ClaimedSoFar(s.run, DoStep(s, Work(a)).run, p);
  }

  lemma ClaimedSoFar(run: Run, t: Run, p: Package)
    requires run.phase.Publishing? && t.phase.Publishing? && run.tier < |run.tiers| && CalledSoFar(run)
    requires t.tiers == run.tiers && t.tier == run.tier && t.log == run.log + [Call(p)] && p in run.tiers[run.tier]
    requires t.phase.pool.packages == run.phase.pool.packages && t.phase.pool.next == run.phase.pool.next + 1
    requires run.phase.pool.next < |run.phase.pool.packages| && run.phase.pool.packages[run.phase.pool.next] == p
    ensures CalledSoFar(t)
  {
    assert Claimed(t.phase.pool, p);
    assert forall q :: InEarlierTier(run, q, run.tier) ==> InEarlierTier(t, q, t.tier);
    forall q | Claimed(run.phase.pool, q) ensures Claimed(t.phase.pool, q) {
      var i :| 0 <= i < run.phase.pool.next && i < |run.phase.pool.packages| && run.phase.pool.packages[i] == q;
      assert t.phase.pool.packages[i] == q;
    }
  }

  lemma OnceStays(run: Run, t: Run)
    requires InTier(run) && OnceInv(run) && t.tiers == run.tiers
    requires t.log == run.log || exists e :: t.log == run.log + [e] && !e.Call? && (e.Published? ==> Call(e.pkg) in run.log)
    ensures CallsDiffer(t.log) && PublishedWereCalled(t.log) && forall p :: Call(p) in t.log ==> Call(p) in run.log
  {
  }

  lemma ReadOnce(s: State)
    requires Inv(s) && OnceInv(s.run) && CanStep(s, Read)
    ensures OnceInv(DoStep(s, Read).run)
  {
    var t := DoStep(s, Read).run;
    OnceStays(s.run, t);
    assert forall q :: InEarlierTier(s.run, q, s.run.tier) ==> InEarlierTier(t, q, t.tier);
  }

  lemma EnterOnce(run: Run)
    requires InTier(run) && OnceInv(run)
    ensures OnceInv(EnterTier(run, run.tier + 1))
  {
    EarlierNext(run);
  }

  lemma {:induction false} FilteredOnce(s: State)
    requires Inv(s) && OnceInv(s.run) && CanStep(s, Filtered)
    ensures OnceInv(DoStep(s, Filtered).run)
  {
    var t := DoStep(s, Filtered).run;
    if s.run.phase.unpublished == [] {
      EnterOnce(s.run);
    } else {
      SameTierOnce(s.run, t);
    }
  }

  /** The same tier in another phase. */
  lemma SameTierOnce(run: Run, t: Run)
    requires InTier(run) && OnceInv(run) && InTier(t) && t.tiers == run.tiers && t.tier == run.tier && t.log == run.log
    requires (run.phase.Reading? && t.phase.Publishing? && forall w :: 0 <= w < |t.phase.pool.workers| ==> !t.phase.pool.workers[w].InFlight?) || t.phase.Waiting?
    ensures OnceInv(t)
  {
    assert forall q :: InEarlierTier(run, q, run.tier) ==> InEarlierTier(t, q, t.tier);
  }

  lemma {:induction false} TierPublishedOnce(s: State)
    requires Inv(s) && OnceInv(s.run) && CanStep(s, TierPublished)
    ensures OnceInv(DoStep(s, TierPublished).run)
  {
    var t := DoStep(s, TierPublished).run;
    if t.phase.Waiting? {
      SameTierOnce(s.run, t);
    } else if !t.phase.Aborted? {
      EnterOnce(s.run);
    }
  }

  /** A worker that ends a publish or stops. */
  lemma {:induction false} CompleteOnce(s: State, a: Action)
    requires Inv(s) && OnceInv(s.run) && CanStep(s, Work(a)) && !a.Claim?
    ensures OnceInv(DoStep(s, Work(a)).run)
  {
    var t := DoStep(s, Work(a)).run;
    if a.Exit? {
      assert t.log == s.run.log;
    }
    OnceStays(s.run, t);
    assert forall q :: InEarlierTier(s.run, q, s.run.tier) ==> InEarlierTier(t, q, t.tier);
    assert forall q :: Claimed(s.run.phase.pool, q) ==> Claimed(t.phase.pool, q);
  }

  lemma {:induction false} ConfirmOnce(s: State, p: Package)
    requires Inv(s) && OnceInv(s.run) && CanStep(s, Confirm(p))
    ensures OnceInv(DoStep(s, Confirm(p)).run)
  {
    var t := DoStep(s, Confirm(p)).run;
    OnceStays(s.run, t);
    assert forall q :: InEarlierTier(s.run, q, s.run.tier) ==> InEarlierTier(t, q, t.tier);
  }

  lemma {:induction false} StepOnce(s: State, step: Step)
    requires Inv(s) && OnceInv(s.run) && CanStep(s, step)
    ensures OnceInv(DoStep(s, step).run)
  {
    match step
    case Read => ReadOnce(s);
    case Filtered => FilteredOnce(s);
    case Work(a) => if a.Claim? { ClaimOnce(s, a); } else { CompleteOnce(s, a); }
    case TierPublished => TierPublishedOnce(s);
    case Confirm(p) => ConfirmOnce(s, p);
    case Propagated => EnterOnce(s.run);
    case _ =>
  }

  lemma {:induction false} HistoryOnce(states: seq<State>, i: nat)
    requires History(states) && i < |states|
    ensures OnceInv(states[i].run)
  {
    if i == 0 {
    } else {
      HistoryOnce(states, i - 1);
      HistoryInv(states, i - 1);
      assert FollowsAt(states, i - 1);
      var step :| CanStep(states[i - 1], step) && states[i] == DoStep(states[i - 1], step);
      StepOnce(states[i - 1], step);
    }
  }

  // ---------------------------------------------------------------- over a whole history

  /** No run calls the publish of a package twice. */
  lemma CalledOnce(states: seq<State>, i: nat, k: nat, k': nat)
    requires History(states) && i < |states|
    requires var log := states[i].run.log; k < k' < |log| && log[k].Call? && log[k'].Call?
    ensures IdOf(states[i].run.log[k].pkg) != IdOf(states[i].run.log[k'].pkg)
  {
    var run := states[i].run;
    HistoryInv(states, i);
    HistoryOnce(states, i);
    if IdOf(run.log[k].pkg) == IdOf(run.log[k'].pkg) {
      SameName(Flatten(run.tiers), run.log[k].pkg, run.log[k'].pkg);
    }
  }

  /** What has been published without an error, in whichever run, is never published again. */
  lemma PublishedOnce(states: seq<State>, i: nat, j: nat, p: Package, a: Action, q: Package)
    requires History(states) && i <= j < |states|
    requires Published(p) in states[i].run.log && Claims(states[j], a, q)
    ensures IdOf(p) != IdOf(q)
  {
    if SameRun(states, i, j) {
      LogStays(states, i, j, Published(p));
      NotInOneRun(states, j, p, a, q);
    } else {
      var m: nat :| i <= m < j && StartsAt(states, m);
      PublishedIsThere(states, i, p);
      RegistryGrows(states, i, m);
      PlannedWasMissing(states, j, q);
      MissingSinceStart(states, m, j, q);
    }
  }

  lemma NotInOneRun(states: seq<State>, j: nat, p: Package, a: Action, q: Package)
    requires History(states) && j < |states|
    requires Published(p) in states[j].run.log && Claims(states[j], a, q)
    ensures IdOf(p) != IdOf(q)
  {
    HistoryInv(states, j);
    HistoryOnce(states, j);
    ClaimsUncalled(states[j], a, q);
    if IdOf(p) == IdOf(q) {
      SameName(Flatten(states[j].run.tiers), p, q);
    }
  }

  lemma {:induction false} LogStays(states: seq<State>, i: nat, j: nat, e: Event)
    requires History(states) && i <= j < |states| && SameRun(states, i, j) && e in states[i].run.log
    ensures e in states[j].run.log
    decreases j
  {
    if i == j {
    } else {
      ShorterRun(states, i, j);
      LogStays(states, i, j - 1, e);
      LogStaysNow(states, j, e);
    }
  }

  lemma ShorterRun(states: seq<State>, i: nat, j: nat)
    requires i < j < |states| && SameRun(states, i, j)
    ensures SameRun(states, i, j - 1) && !Starts(states[j - 1], states[j])
  {
    assert !StartsAt(states, j - 1);
  }

  lemma {:induction false} LogStaysNow(states: seq<State>, j: nat, e: Event)
    requires History(states) && 0 < j < |states| && !Starts(states[j - 1], states[j]) && e in states[j - 1].run.log
    ensures e in states[j].run.log
  {
    assert FollowsAt(states, j - 1);
    var step :| CanStep(states[j - 1], step) && states[j] == DoStep(states[j - 1], step);
    StartsByStart(states[j - 1], step);
  }

  ghost predicate CalledIn(s: State, v: Id) {
    exists p :: Call(p) in s.run.log && IdOf(p) == v
  }

  lemma {:induction false} WasCalledIn(states: seq<State>, j: nat, v: Id) returns (i: nat)
    requires History(states) && j < |states| && WasCalled(states[j], v)
    ensures i <= j && CalledIn(states[i], v)
  {
    i := j;
    if j == 0 {
    } else if WasCalled(states[j - 1], v) {
      i := WasCalledIn(states, j - 1, v);
    } else {
      CalledNow(states, j, v);
    }
  }

  lemma {:induction false} CalledNow(states: seq<State>, j: nat, v: Id)
    requires History(states) && 0 < j < |states| && WasCalled(states[j], v) && !WasCalled(states[j - 1], v)
    ensures CalledIn(states[j], v)
  {
    var s := states[j - 1];
    assert FollowsAt(states, j - 1);
    var step :| CanStep(s, step) && states[j] == DoStep(s, step);
    var p := s.run.phase.pool.packages[s.run.phase.pool.next];
    assert Call(p) in states[j].run.log;
  }

  /** If a version is on the registry when it is about to be published, then an earlier run
      called its publish, and it landed after this run had read it. */
  lemma LandedLate(states: seq<State>, j: nat, a: Action, p: Package) returns (i: nat)
    requires History(states) && j < |states| && Claims(states[j], a, p) && IdOf(p) in states[j].registry
    ensures WasMissing(states, j, p)
    ensures i < j && !SameRun(states, i, j) && CalledIn(states[i], IdOf(p))
  {
    ReleaseSafe(states, j);
    i := WasCalledIn(states, j, IdOf(p));
    if SameRun(states, i, j) {
      var q :| Call(q) in states[i].run.log && IdOf(q) == IdOf(p);
      LogStays(states, i, j, Call(q));
      HistoryInv(states, j);
      HistoryOnce(states, j);
      ClaimsUncalled(states[j], a, p);
      SameName(Flatten(states[j].run.tiers), p, q);
    }
  }

  /** The exception in `ReleaseSafe` is needed: a run is killed, the next one reads the registry,
      and then what the first one called lands, so that it is there when it is called again. */
  lemma LateLanding() returns (states: seq<State>)
    ensures History(states)
    ensures var s := states[|states| - 1]; Claims(s, Claim(0), DEP) && IdOf(DEP) in s.registry
  {
    ExampleTiers();
    states := Called();
    var log, idle := [Call(DEP)], WorkerPool.Start([DEP], 1);
    var s0 := Example(map[], CALLED, 0, Publishing(Pool([DEP], 1, [InFlight(0)], [None])), log);
    var s1, s2 := Example(map[], CALLED, 0, Aborted, log), Example(map[], CALLED, 0, Reading([], 0), []);
    states := Go(states, s0, Kill, s1);
    states := Go(states, s1, StartRun(TIERS, false, 1), s2);
    var s3, s4 := Example(map[], CALLED, 0, Reading([DEP], 1), []), Example(map[], CALLED, 0, Publishing(idle), []);
    assert [] + [DEP] == [DEP];
    states := Go(states, s2, Read, s3);
    states := Go(states, s3, Filtered, s4);
    var s5 := Example(LANDED, CALLED, 0, Publishing(idle), []);
    states := Go(states, s4, Land(IdOf(DEP), {}), s5);
  }
}
