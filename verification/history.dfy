// Whole histories of releases (tools/deployments/publish-packages.ts): any sequence of runs,
// each of which may fail or be killed, and what holds in every state of one.

module Histories {
  import opened Packages
  import opened WorkerPool
  import opened RegistryReads
  import opened Release

  /** A history: any sequence of runs against a registry that was closed to begin with. */
  ghost predicate History(states: seq<State>) {
    && |states| > 0
    && Closed(states[0].registry)
    && states[0].run == Run([], false, 0, 0, Done, []) && |states[0].called| == 0
    && forall i :: 0 <= i < |states| - 1 ==> FollowsAt(states, i)
  }

  ghost predicate Follows(s: State, t: State) {
    exists step :: CanStep(s, step) && t == DoStep(s, step)
  }

  ghost predicate FollowsAt(states: seq<State>, i: nat)
    requires i + 1 < |states|
  {
    Follows(states[i], states[i + 1])
  }

  lemma {:induction false} HistoryInv(states: seq<State>, i: nat)
    requires History(states) && i < |states|
    ensures Inv(states[i])
  {
    if i == 0 {
      ByNameFinds([]);
    } else {
      HistoryInv(states, i - 1);
      assert FollowsAt(states, i - 1);
      var step :| CanStep(states[i - 1], step) && states[i] == DoStep(states[i - 1], step);
      StepKeeps(states[i - 1], step);
    }
  }

  // ---------------------------------------------------------------- what a run publishes was missing

  predicate Over(s: State) {
    s.run.phase.Done? || s.run.phase.Aborted?
  }

  /** A new run starts between the two states. */
  predicate Starts(s: State, t: State) {
    Over(s) && !Over(t)
  }

  predicate StartsAt(states: seq<State>, m: nat) {
    m + 1 < |states| && Starts(states[m], states[m + 1])
  }

  /** No run starts between the two states. */
  ghost predicate SameRun(states: seq<State>, i: nat, j: nat) {
    forall m :: i <= m < j ==> !StartsAt(states, m)
  }

  /** The package is the next one of its tier to be read, and its version is not there. */
  ghost predicate ReadsMissing(s: State, p: Package) {
    && s.run.phase.Reading? && s.run.tier < |s.run.tiers| && s.run.phase.k < |s.run.tiers[s.run.tier]|
    && s.run.tiers[s.run.tier][s.run.phase.k] == p && IdOf(p) !in s.registry
  }

  /** The version was not on the registry when the package was read in the run of the state. */
  ghost predicate WasMissing(states: seq<State>, j: nat, p: Package) {
    exists i :: 0 <= i < j && i < |states| && SameRun(states, i, j) && ReadsMissing(states[i], p)
  }

  /** The run has found the package missing, is publishing its tier, or has called its publish. */
  ghost predicate Planned(run: Run, p: Package) {
    || (run.phase.Reading? && p in run.phase.unpublished)
    || (run.phase.Publishing? && p in run.phase.pool.packages)
    || Call(p) in run.log
  }

  lemma {:induction false} StartsByStart(s: State, step: Step)
    requires CanStep(s, step)
    ensures Starts(s, DoStep(s, step)) <==> step.StartRun?
  {
  }

  lemma {:induction false} PlannedBefore(states: seq<State>, j: nat, p: Package)
    requires History(states) && 0 < j < |states| && Planned(states[j].run, p)
    ensures (Planned(states[j - 1].run, p) || ReadsMissing(states[j - 1], p)) && !Starts(states[j - 1], states[j])
  {
    assert FollowsAt(states, j - 1);
    var step :| CanStep(states[j - 1], step) && states[j] == DoStep(states[j - 1], step);
    StartsByStart(states[j - 1], step);
  }

  lemma {:induction false} PlannedWasMissing(states: seq<State>, j: nat, p: Package)
    requires History(states) && j < |states| && Planned(states[j].run, p)
    ensures WasMissing(states, j, p)
  {
    if j == 0 {
    } else {
      PlannedBefore(states, j, p);
      if !ReadsMissing(states[j - 1], p) {
        PlannedWasMissing(states, j - 1, p);
      }
      StillMissing(states, j, p);
    }
  }

  lemma StillMissing(states: seq<State>, j: nat, p: Package)
    requires 0 < j < |states| && !Starts(states[j - 1], states[j])
    requires ReadsMissing(states[j - 1], p) || WasMissing(states, j - 1, p)
    ensures WasMissing(states, j, p)
  {
    var i := j - 1;
    if !ReadsMissing(states[i], p) {
      i :| 0 <= i < j - 1 && SameRun(states, i, j - 1) && ReadsMissing(states[i], p);
    }
    assert SameRun(states, i, j);
  }

  /** The package that a claim takes, if its worker may claim one. */
  ghost predicate Claims(s: State, a: Action, p: Package) {
    CanStep(s, Work(a)) && a.Claim? && p == s.run.phase.pool.packages[s.run.phase.pool.next]
  }

  /** The point of publishing in tiers. In every reachable state, whatever the interleaving of
      the workers, the failures, aborts and re-runs: no version is on the registry without the
      versions it pins; every publish call of the run had evidence for each dependency; tags
      are created once, at the end, with every package on the registry; whatever the run has
      called a publish for was not on the registry when the run read it; and when a package is
      about to be published its dependencies are on the registry and it is not itself, unless
      a publish of that very version, called before, landed after it was read in this run. */
  lemma {:induction false} ReleaseSafe(states: seq<State>, i: nat)
    requires History(states) && i < |states|
    ensures Closed(states[i].registry)
    ensures GateSafe(states[i].run)
    ensures TagSafe(states[i])
    ensures forall p :: Call(p) in states[i].run.log ==> WasMissing(states, i, p)
    ensures forall a, p :: Claims(states[i], a, p) ==>
      && WasMissing(states, i, p) && NotYetThere(states[i], IdOf(p))
      && PinsOf(states[i].run.tiers, p) <= states[i].registry.Keys
  {
    HistoryInv(states, i);
    forall p | Call(p) in states[i].run.log ensures WasMissing(states, i, p) {
      PlannedWasMissing(states, i, p);
    }
    forall a, p | Claims(states[i], a, p)
      ensures WasMissing(states, i, p) && NotYetThere(states[i], IdOf(p))
      ensures PinsOf(states[i].run.tiers, p) <= states[i].registry.Keys
    {
      PlannedWasMissing(states, i, p);
      ClaimKeeps(states[i], a);
      DependenciesDone(states[i], p);
    }
  }

  /** Whatever is on the registry when a run starts is published neither in that run nor later. */
  lemma {:induction false} NeverAgain(states: seq<State>, i: nat, j: nat, p: Package)
    requires History(states) && i < j < |states| && StartsAt(states, i)
    requires Call(p) in states[j].run.log
    ensures IdOf(p) !in states[i].registry
  {
    PlannedWasMissing(states, j, p);
    MissingSinceStart(states, i, j, p);
  }

  lemma {:induction false} MissingSinceStart(states: seq<State>, i: nat, j: nat, p: Package)
    requires History(states) && i < j < |states| && StartsAt(states, i)
    requires WasMissing(states, j, p)
    ensures IdOf(p) !in states[i].registry
  {
    var m :| 0 <= m < j && SameRun(states, m, j) && ReadsMissing(states[m], p);
    RegistryGrows(states, i, m);
  }

  /** Nothing on the registry is ever changed, so what is missing only shrinks, and it does
      shrink by each publish that ends without an error. */
  lemma {:induction false} MissingShrinks(states: seq<State>, i: nat, j: nat, wanted: set<Id>)
    requires History(states) && i <= j < |states|
    ensures forall v :: v in states[i].registry ==> v in states[j].registry && states[j].registry[v] == states[i].registry[v]
    ensures wanted - states[j].registry.Keys <= wanted - states[i].registry.Keys
    ensures forall p :: Published(p) in states[j].run.log && IdOf(p) in wanted - states[i].registry.Keys ==>
      |wanted - states[j].registry.Keys| < |wanted - states[i].registry.Keys|
  {
    RegistryGrows(states, i, j);
    var before, after := wanted - states[i].registry.Keys, wanted - states[j].registry.Keys;
    forall p | Published(p) in states[j].run.log && IdOf(p) in before ensures |after| < |before| {
      PublishedIsThere(states, j, p);
      SmallerSet(after, before, IdOf(p));
    }
  }

  lemma {:induction false} RegistryGrows(states: seq<State>, i: nat, j: nat)
    requires History(states) && i <= j < |states|
    ensures forall v :: v in states[i].registry ==> v in states[j].registry && states[j].registry[v] == states[i].registry[v]
    decreases j
  {
    if i == j {
    } else {
      RegistryGrows(states, i, j - 1);
      assert FollowsAt(states, j - 1);
    }
  }

  lemma {:induction false} PublishedIsThere(states: seq<State>, j: nat, p: Package)
    requires History(states) && j < |states| && Published(p) in states[j].run.log
    ensures IdOf(p) in states[j].registry
  {
    if j == 0 {
    } else {
      assert FollowsAt(states, j - 1);
      if Published(p) in states[j - 1].run.log {
        PublishedIsThere(states, j - 1, p);
        RegistryGrows(states, j - 1, j);
      } else {
        PublishedNow(states[j - 1], states[j], p);
      }
    }
  }

  lemma {:induction false} PublishedNow(s: State, t: State, p: Package)
    requires Follows(s, t) && Published(p) in t.run.log && Published(p) !in s.run.log
    ensures IdOf(p) in t.registry
  {
    var step :| CanStep(s, step) && t == DoStep(s, step);
    PublishedAfterLanding(s, step, p);
  }

  lemma {:induction false} PublishedAfterLanding(s: State, step: Step, p: Package)
    requires CanStep(s, step) && Published(p) in DoStep(s, step).run.log && Published(p) !in s.run.log
    ensures IdOf(p) in DoStep(s, step).registry
  {
    assert step.Work?;
    assert Published(p) in PoolEvents(s.run.phase.pool, step.action);
  }

  lemma SmallerSet(small: set<Id>, big: set<Id>, x: Id)
    requires small <= big && x in big && x !in small
    ensures |small| < |big|
  {
    assert small <= big - {x};
    SubsetSize(small, big - {x});
  }

  lemma {:induction false} SubsetSize(small: set<Id>, big: set<Id>)
    requires small <= big
    ensures |small| <= |big|
  {
    if small == {} {
    } else {
      var x :| x in small;
      SubsetSize(small - {x}, big - {x});
    }
  }
}
