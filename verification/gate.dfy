// Which dependencies a release waits for (publishAllPackages in
// tools/deployments/publish-packages.ts). The gate is there so that a dependency can be
// resolved before its dependants are published; a version that is listed when its tier is
// filtered passes without it.

module Gate {
  import opened Common
  import opened Packages
  import opened Tiers
  import opened WorkerPool
  import opened RegistryReads
  import opened Release
  import opened Histories

  ghost predicate InEarlierTier(run: Run, p: Package, n: nat) {
    exists j :: 0 <= j < n && j < |run.tiers| && p in run.tiers[j]
  }

  /** No package was both seen on the registry and awaited. */
  ghost predicate SeenOrAwaited(log: seq<Event>) {
    forall p :: !(Seen(p) in log && Resolvable(p) in log)
  }

  /** Only packages of the tiers passed, and of a tier that is being waited for, were awaited. */
  ghost predicate AwaitedSoFar(run: Run)
    requires run.tier < |run.tiers|
  {
    forall p :: Resolvable(p) in run.log ==>
      InEarlierTier(run, p, run.tier) || (run.phase.Waiting? && p in run.tiers[run.tier])
  }

  /** Only packages of the tiers passed, and those of the current tier that were read, were seen. */
  ghost predicate SeenSoFar(run: Run)
    requires run.tier < |run.tiers|
  {
    forall p :: Seen(p) in run.log ==>
      || InEarlierTier(run, p, run.tier)
      || (p in run.tiers[run.tier] && (run.phase.Reading? ==> p in run.tiers[run.tier][..Min(run.phase.k, |run.tiers[run.tier]|)]))
  }

  /** The packages of the current tier that are being published. */
  ghost function Unlisted(run: Run): set<Package> {
    match run.phase
    case Reading(unpublished, _) => set p | p in unpublished
    case Publishing(pool) => set p | p in pool.packages
    case Waiting(pending) => pending
    case _ => {}
  }

  ghost predicate AwaitInv(run: Run) {
    && SeenOrAwaited(run.log)
    && (InTier(run) ==>
          && run.tier < |run.tiers| && AwaitedSoFar(run) && SeenSoFar(run)
          && forall p :: p in Unlisted(run) ==> p in run.tiers[run.tier] && Seen(p) !in run.log)
  }

  // ---------------------------------------------------------------- one tier for each package

  lemma {:induction false} OnePlace(tiers: seq<seq<Package>>, j: nat, k: nat, p: Package)
    requires UniqueNames(Flatten(tiers)) && j < k < |tiers| && p in tiers[j]
    ensures p !in tiers[k]
  {
    var init, last := tiers[..|tiers| - 1], tiers[|tiers| - 1];
    assert Flatten(tiers) == Flatten(init) + last;
    if k < |init| {
      forall i, i' | 0 <= i < i' < |Flatten(init)| ensures Flatten(init)[i].name != Flatten(init)[i'].name {
        assert Flatten(tiers)[i].name != Flatten(tiers)[i'].name;
      }
      OnePlace(init, j, k, p);
    } else {
      FlattenMember(init, p);
      var i :| 0 <= i < |Flatten(init)| && Flatten(init)[i] == p;
      forall i' | 0 <= i' < |last| ensures last[i'] != p {
        assert Flatten(tiers)[i].name != Flatten(tiers)[|Flatten(init)| + i'].name;
      }
    }
  }

  lemma NotEarlier(run: Run, p: Package)
    requires UniqueNames(Flatten(run.tiers)) && run.tier < |run.tiers| && p in run.tiers[run.tier]
    ensures !InEarlierTier(run, p, run.tier)
  {
    forall j | 0 <= j < run.tier ensures p !in run.tiers[j] {
      if p in run.tiers[j] {
        OnePlace(run.tiers, j, run.tier, p);
      }
    }
  }

  // ---------------------------------------------------------------- preservation

  lemma ReadAwaits(s: State)
    requires Inv(s) && AwaitInv(s.run) && CanStep(s, Read)
    ensures AwaitInv(DoStep(s, Read).run)
  {
    var run, t := s.run, DoStep(s, Read).run;
    var tier, k := run.tiers[run.tier], run.phase.k;
    var p := tier[k];
    NotEarlier(run, p);
    TierDistinct(run.tiers, run.tier);
    assert tier[..k + 1] == tier[..k] + [p];
    forall i | 0 <= i < k ensures tier[i] != p {
      assert tier[i].name != tier[k].name;
    }
    assert forall q :: InEarlierTier(run, q, run.tier) ==> InEarlierTier(t, q, t.tier);
  }

  /** Going on to the next tier. */
  lemma EnterAwaits(run: Run)
    requires InTier(run) && AwaitInv(run)
    ensures AwaitInv(EnterTier(run, run.tier + 1))
  {
    EarlierNext(run);
  }

  lemma EarlierNext(run: Run)
    requires run.tier < |run.tiers|
    ensures var t := EnterTier(run, run.tier + 1);
      forall p :: InEarlierTier(run, p, run.tier) || p in run.tiers[run.tier] ==> InEarlierTier(t, p, t.tier)
  {
    var t := EnterTier(run, run.tier + 1);
    forall p | InEarlierTier(run, p, run.tier) || p in run.tiers[run.tier] ensures InEarlierTier(t, p, t.tier) {
      if p in run.tiers[run.tier] {
        assert p in t.tiers[run.tier];
      } else {
        var j :| 0 <= j < run.tier && j < |run.tiers| && p in run.tiers[j];
        assert p in t.tiers[j];
      }
    }
  }

  /** The same tier in its next phase, with at most another event that is no read. */
  lemma SameTierAwaits(run: Run, t: Run)
    requires InTier(run) && AwaitInv(run) && InTier(t) && t.tiers == run.tiers && t.tier == run.tier
    requires t.log == run.log || exists e :: t.log == run.log + [e] && !e.Seen? && (e.Resolvable? ==> e.pkg in Unlisted(run))
    requires Unlisted(t) <= Unlisted(run) && !t.phase.Reading?
    requires run.phase.Waiting? ==> t.phase.Waiting?
    requires t.log != run.log && t.log[|t.log| - 1].Resolvable? ==> t.phase.Waiting?
    ensures AwaitInv(t)
  {
    forall q | InEarlierTier(run, q, run.tier) ensures InEarlierTier(t, q, t.tier) {
      var j :| 0 <= j < run.tier && j < |run.tiers| && q in run.tiers[j];
      assert q in t.tiers[j];
    }
  }

  lemma WorkAwaits(s: State, a: Action)
    requires Inv(s) && AwaitInv(s.run) && CanStep(s, Work(a))
    ensures AwaitInv(DoStep(s, Work(a)).run)
  {
    var t := DoStep(s, Work(a)).run;
    if a.Exit? {
      assert t.log == s.run.log;
    }
    SameTierAwaits(s.run, t);
  }

  lemma {:induction false} FilteredAwaits(s: State)
    requires Inv(s) && AwaitInv(s.run) && CanStep(s, Filtered)
    ensures AwaitInv(DoStep(s, Filtered).run)
  {
    if s.run.phase.unpublished == [] {
      EnterAwaits(s.run);
    } else {
      SameTierAwaits(s.run, DoStep(s, Filtered).run);
    }
  }

  lemma {:induction false} TierPublishedAwaits(s: State)
    requires Inv(s) && AwaitInv(s.run) && CanStep(s, TierPublished)
    ensures AwaitInv(DoStep(s, TierPublished).run)
  {
    var t := DoStep(s, TierPublished).run;
    if t.phase.Waiting? {
      SameTierAwaits(s.run, t);
    } else if !t.phase.Aborted? {
      EnterAwaits(s.run);
    }
  }

  lemma {:induction false} ConfirmAwaits(s: State, p: Package)
    requires Inv(s) && AwaitInv(s.run) && CanStep(s, Confirm(p))
    ensures AwaitInv(DoStep(s, Confirm(p)).run)
  {
    SameTierAwaits(s.run, DoStep(s, Confirm(p)).run);
  }

  lemma {:induction false} StepAwaits(s: State, step: Step)
    requires Inv(s) && AwaitInv(s.run) && CanStep(s, step)
    ensures AwaitInv(DoStep(s, step).run)
  {
    match step
    case Read => ReadAwaits(s);
    case Filtered => FilteredAwaits(s);
    case Work(a) => WorkAwaits(s, a);
    case TierPublished => TierPublishedAwaits(s);
    case Confirm(p) => ConfirmAwaits(s, p);
    case Propagated => EnterAwaits(s.run);
    case _ =>
  }

  lemma {:induction false} HistoryAwaits(states: seq<State>, i: nat)
    requires History(states) && i < |states|
    ensures AwaitInv(states[i].run)
  {
    if i == 0 {
    } else {
      HistoryAwaits(states, i - 1);
      HistoryInv(states, i - 1);
      assert FollowsAt(states, i - 1);
      FollowerAwaits(states[i - 1], states[i]);
    }
  }

  lemma {:induction false} FollowerAwaits(s: State, t: State)
    requires Inv(s) && AwaitInv(s.run) && Follows(s, t)
    ensures AwaitInv(t.run)
  {
    var step :| CanStep(s, step) && t == DoStep(s, step);
    StepAwaits(s, step);
  }

  /** Exactly which dependencies were awaited before a publish call, in every run that does not
      skip the gate: those that were not listed on the registry when their tier was read. */
  lemma AwaitedIffNotListed(states: seq<State>, i: nat, k: nat, q: Package)
    requires History(states) && i < |states|
    requires var run := states[i].run;
      !run.skip && k < |run.log| && run.log[k].Call? && q in Dependencies(run.tiers, run.log[k].pkg)
    ensures var log := states[i].run.log;
      Resolvable(q) in log[..k] <==> Seen(q) !in log[..k]
  {
    var run := states[i].run;
    HistoryInv(states, i);
    HistoryAwaits(states, i);
    assert Cleared(run.log[..k], run.skip, q);
    assert forall e :: e in run.log[..k] ==> e in run.log;
  }

  // ---------------------------------------------------------------- a publish that was not awaited

  const DEP: Package := Package("d", "1", "packages/d", "public", [])
  const TOP: Package := Package("p", "1", "packages/p", "public", ["d"])
  const TIERS: seq<seq<Package>> := [[DEP], [TOP]]

  lemma FlatTiers()
    ensures Flatten(TIERS) == [DEP, TOP]
  {
    assert TIERS[..1][..0] == [] && Flatten<Package>([]) == [];
    assert TIERS[..1] == [[DEP]] && Flatten(TIERS[..1]) == [] + [DEP];
  }

  lemma ExampleTiers()
    ensures Flatten(TIERS) == [DEP, TOP] && ValidTiers(TIERS)
    ensures DEP in Dependencies(TIERS, TOP) && PinsOf(TIERS, DEP) == {}
  {
    FlatTiers();
    var all := Flatten(TIERS);
    assert "d"[0] != "p"[0];
    ByNameFinds(all);
    assert all[0] == DEP && all[1] == TOP;
    assert TIERS[0][0] == DEP;
    assert PlacedBefore(TIERS, 1, "d");
  }

  /** A history that ends in `s`, in which `DEP` was never found resolvable. */
  ghost predicate NeverResolvable(states: seq<State>, s: State) {
    History(states) && states[|states| - 1] == s && forall i :: 0 <= i < |states| ==> Resolvable(DEP) !in states[i].run.log
  }

  lemma Go(states: seq<State>, s: State, step: Step, t: State) returns (longer: seq<State>)
    requires NeverResolvable(states, s) && CanStep(s, step) && t == DoStep(s, step) && Resolvable(DEP) !in t.run.log
    ensures NeverResolvable(longer, t)
  {
    longer := states + [t];
    forall i | 0 <= i < |longer| - 1 ensures FollowsAt(longer, i) {
      assert i < |states| - 1 ==> FollowsAt(states, i);
    }
  }

  ghost function Example(registry: Registry, called: set<(Id, set<Id>)>, tier: nat, phase: Phase, log: seq<Event>): State {
    State(registry, Run(TIERS, false, 1, tier, phase, log), called)
  }

  const CALLED: set<(Id, set<Id>)> := {(IdOf(DEP), {})}
  const LANDED: Registry := map[IdOf(DEP) := {}]

  lemma Called() returns (states: seq<State>)
    ensures NeverResolvable(states, Example(map[], CALLED, 0, Publishing(Pool([DEP], 1, [InFlight(0)], [None])), [Call(DEP)]))
  {
    ExampleTiers();
    var idle := WorkerPool.Start([DEP], 1);
    var start := State(map[], Run([], false, 0, 0, Done, []), {});
    states := [start];
    var s1, s2 := Example(map[], {}, 0, Reading([], 0), []), Example(map[], {}, 0, Reading([DEP], 1), []);
    states := Go(states, start, StartRun(TIERS, false, 1), s1);
    assert [] + [DEP] == [DEP];
    states := Go(states, s1, Read, s2);
    var s3 := Example(map[], {}, 0, Publishing(idle), []);
    states := Go(states, s2, Filtered, s3);
    assert Apply(idle, Claim(0)) == Pool([DEP], 1, [InFlight(0)], [None]);
    assert {} + {CallOf(TIERS, DEP)} == CALLED;
    states := Go(states, s3, Work(Claim(0)),
      Example(map[], CALLED, 0, Publishing(Pool([DEP], 1, [InFlight(0)], [None])), [Call(DEP)]));
  }

  /** The first run publishes `DEP` and gives up waiting for it. */
  lemma GivenUp() returns (states: seq<State>)
    ensures NeverResolvable(states, Example(LANDED, CALLED, 0, Aborted, [Call(DEP), Published(DEP)]))
  {
    var calls, results := [Call(DEP), Published(DEP)], [Some(PublishResult("d", "1", None))];
    var busy, ready, ended := Pool([DEP], 1, [InFlight(0)], [None]), Pool([DEP], 1, [Idle], results), Pool([DEP], 1, [Finished], results);
    states := Called();
    var s1, s2 := Example(map[], CALLED, 0, Publishing(busy), [Call(DEP)]), Example(LANDED, CALLED, 0, Publishing(busy), [Call(DEP)]);
    states := Go(states, s1, Land(IdOf(DEP), {}), s2);
    var s3, s4 := Example(LANDED, CALLED, 0, Publishing(ready), calls), Example(LANDED, CALLED, 0, Publishing(ended), calls);
    assert Apply(busy, Complete(0, None)) == ready && [Call(DEP)] + [Published(DEP)] == calls;
    states := Go(states, s2, Work(Complete(0, None)), s3);
    assert Apply(ready, Exit(0)) == ended && calls + [] == calls;
    states := Go(states, s3, Work(Exit(0)), s4);
    var s5 := Example(LANDED, CALLED, 0, Waiting({DEP}), calls);
    assert (set p | p in ended.packages) == {DEP};
    states := Go(states, s4, TierPublished, s5);
    states := Go(states, s5, Timeout, Example(LANDED, CALLED, 0, Aborted, calls));
  }

  /** The wait can be missed: after a run that timed out, the next run publishes `TOP`, which
      pins `DEP`, although `DEP` was found resolvable in neither run. */
  lemma UnawaitedPublish() returns (states: seq<State>)
    ensures History(states) && DEP in Dependencies(TIERS, TOP)
    ensures var run := states[|states| - 1].run; run.tiers == TIERS && !run.skip && run.log == [Seen(DEP), Call(TOP)]
    ensures forall i :: 0 <= i < |states| ==> Resolvable(DEP) !in states[i].run.log
  {
    ExampleTiers();
    states := GivenUp();
    var idle := WorkerPool.Start([TOP], 1);
    assert IdOf(TOP).name[0] != IdOf(DEP).name[0];
    var s0, s1 := Example(LANDED, CALLED, 0, Aborted, [Call(DEP), Published(DEP)]), Example(LANDED, CALLED, 0, Reading([], 0), []);
    states := Go(states, s0, StartRun(TIERS, false, 1), s1);
    var s2, s3 := Example(LANDED, CALLED, 0, Reading([], 1), [Seen(DEP)]), Example(LANDED, CALLED, 1, Reading([], 0), [Seen(DEP)]);
    states := Go(states, s1, Read, s2);
    states := Go(states, s2, Filtered, s3);
    var s4, s5 := Example(LANDED, CALLED, 1, Reading([TOP], 1), [Seen(DEP)]), Example(LANDED, CALLED, 1, Publishing(idle), [Seen(DEP)]);
    assert [] + [TOP] == [TOP];
    states := Go(states, s3, Read, s4);
    states := Go(states, s4, Filtered, s5);
    states := Go(states, s5, Work(Claim(0)), DoStep(s5, Work(Claim(0))));
    assert [Seen(DEP)] + [Call(TOP)] == [Seen(DEP), Call(TOP)];
  }
}
