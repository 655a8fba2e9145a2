// The loop of publishAllPackages (tools/deployments/publish-packages.ts) itself: one run,
// from reading the manifests to creating the tags, with the parts it calls. It is proved to
// take only steps of the release protocol, each backed by what the environment answered, and
// to end exactly as the environment's answers decide.

module PublishAll {
  import opened Common
  import opened Packages
  import opened Tiers
  import opened WorkerPool
  import opened RegistryReads
  import opened Release
  import opened Histories
  import opened Sorting

  /** What publishing a package does: its error if any, and whether a failed one landed. */
  datatype Publisher = Publisher(error: Package -> Option<string>, landsAnyway: Package -> bool)

  datatype Settings = Settings(
    attempts: int, delaySeconds: nat, concurrency: int,
    skip: bool, minSeconds: nat, timeoutSeconds: nat, pollSeconds: nat)

  /** The settings of a run, and what its environment answers: reads of a registry with the
      given content, publishes, and in each tier the checks of the gate and the clock. */
  datatype Job = Job(
    settings: Settings, answers: set<Id> -> Replies, publisher: Publisher, checks: nat -> Checks, now: nat -> (nat -> int))

  /** Reads are accurate, and in every tier the clock reaches the deadline at some time. */
  ghost predicate Trusted(job: Job) {
    && (forall content, packages :: Accurate(job.answers(content), packages, content))
    && (forall index :: ClockReaches(job.now(index), job.settings.timeoutSeconds))
  }

  ghost predicate ClockReaches(now: nat -> int, timeoutSeconds: nat) {
    exists k :: k >= 1 && now(k) >= now(0) + timeoutSeconds * 1000
  }

  datatype Outcome =
    | Tagged
    | CannotRead(tier: nat)
    | PublishFailed(tier: nat, failures: seq<PublishResult>)
    | TimedOut(tier: nat, stuck: map<string, string>)
    | Cyclic(path: seq<string>)

  // ---------------------------------------------------------------- evidence

  /** The answer that a read of the registry with this content takes lists the version. */
  ghost predicate ListedAt(job: Job, content: set<Id>, p: Package) {
    exists k: nat ::
      FirstAnswer(job.answers(content), p.name, job.settings.attempts, k) && ListedBy(job.answers(content)(p.name, k), p.version)
  }

  /** In this state the tier of the package is being read, and an answer lists the version. */
  ghost predicate ReadListed(job: Job, s: State, tiers: seq<seq<Package>>, p: Package) {
    && s.run.tiers == tiers && s.run.phase.Reading? && s.run.tier < |tiers| && p in tiers[s.run.tier]
    && ListedAt(job, s.registry.Keys, p)
  }

  /** The version was listed when its tier was read, in one of the states from the given one on. */
  ghost predicate WasListed(job: Job, states: seq<State>, from: nat, tiers: seq<seq<Package>>, p: Package) {
    exists i :: from <= i < |states| && ReadListed(job, states[i], tiers, p)
  }

  predicate ListedBy(answer: Fetch, version: string) {
    answer.Packument? && version in answer.versions
  }

  /** A check that the gate makes in the tier of the package found it resolvable, in time. */
  ghost predicate WasChecked(job: Job, tiers: seq<seq<Package>>, p: Package) {
    exists j: nat :: j < |tiers| && p in tiers[j] && SeenInTime(job.checks(j), job.now(j), job.settings.timeoutSeconds, IdOf(p))
  }

  /** The environment did answer what the event reports. */
  ghost predicate Backs(job: Job, states: seq<State>, from: nat, tiers: seq<seq<Package>>, e: Event) {
    match e
    case Seen(p) => WasListed(job, states, from, tiers, p)
    case Published(p) => job.publisher.error(p).None?
    case Failed(p) => job.publisher.error(p).Some?
    case Resolvable(p) => WasChecked(job, tiers, p)
    case _ => true
  }

  /** The environment answers in state `t` what the event reports. */
  ghost predicate BacksNow(job: Job, t: State, e: Event) {
    match e
    case Seen(p) => ReadListed(job, t, t.run.tiers, p)
    case Published(p) => job.publisher.error(p).None?
    case Failed(p) => job.publisher.error(p).Some?
    case Resolvable(p) => WasChecked(job, t.run.tiers, p)
    case _ => true
  }

  ghost predicate NewBacked(job: Job, t: State, u: State) {
    forall e :: e in u.run.log && e !in t.run.log ==> BacksNow(job, t, e)
  }

  // ---------------------------------------------------------------- steps of the protocol

  /** A history that goes on from `past` to `t` with one more run, of these settings and with
      every event backed. */
  ghost predicate Trace(past: seq<State>, states: seq<State>, t: State, job: Job) {
    && History(states) && past <= states && states[|states| - 1] == t && OneRun(states, |past|)
    && t.run.skip == job.settings.skip && t.run.concurrency == job.settings.concurrency
    && forall e :: e in t.run.log ==> Backs(job, states, |past|, t.run.tiers, e)
  }

  /** The states from the given one on are those of the last run. */
  ghost predicate OneRun(states: seq<State>, from: nat) {
    0 < from < |states| && StartsAt(states, from - 1) && SameRun(states, from, |states| - 1)
  }

  /** The protocol can come to state `t` after what has happened so far. */
  ghost predicate EndsIn(past: seq<State>, t: State, job: Job) {
    exists states :: Trace(past, states, t, job)
  }

  /** The same, in the given run and at the same tier. */
  ghost predicate Reaches(past: seq<State>, t: State, run: Run, job: Job) {
    && EndsIn(past, t, job)
    && (InTier(t.run) ==> t.run.tier < |t.run.tiers|)
    && t.run.tiers == run.tiers && t.run.skip == run.skip && t.run.concurrency == run.concurrency && t.run.tier == run.tier
  }

  lemma Holds(past: seq<State>, t: State, job: Job)
    requires EndsIn(past, t, job)
    ensures Inv(t)
  {
    var states :| Trace(past, states, t, job);
    HistoryInv(states, |states| - 1);
  }

  lemma Advance(past: seq<State>, t: State, step: Step, job: Job) returns (u: State)
    requires EndsIn(past, t, job) && CanStep(t, step) && !step.StartRun? && NewBacked(job, t, DoStep(t, step))
    ensures u == DoStep(t, step) && EndsIn(past, u, job)
  {
    u := DoStep(t, step);
    var states :| Trace(past, states, t, job);
    var longer := states + [u];
    HistoryGrows(states, u);
    OneRunGrows(states, |past|, step, u);
    assert u.run.tiers == t.run.tiers;
    forall e | e in u.run.log ensures Backs(job, longer, |past|, u.run.tiers, e) {
      if e in t.run.log {
        StillBacked(job, states, u, |past|, t.run.tiers, e);
      } else {
        assert BacksNow(job, t, e);
        assert longer[|states| - 1] == t;
      }
    }
    assert Trace(past, longer, u, job);
  }

  lemma OneRunGrows(states: seq<State>, from: nat, step: Step, u: State)
    requires OneRun(states, from) && CanStep(states[|states| - 1], step) && !step.StartRun?
    requires u == DoStep(states[|states| - 1], step)
    ensures OneRun(states + [u], from)
  {
    var longer := states + [u];
    StartsByStart(states[|states| - 1], step);
    assert StartsAt(states, from - 1) && StartsAt(longer, from - 1);
    forall m | from <= m < |longer| - 1 ensures !StartsAt(longer, m) {
      assert m < |states| - 1 ==> !StartsAt(states, m);
    }
  }

  lemma HistoryGrows(states: seq<State>, u: State)
    requires History(states) && Follows(states[|states| - 1], u)
    ensures History(states + [u])
  {
    var longer := states + [u];
    forall i | 0 <= i < |longer| - 1 ensures FollowsAt(longer, i) {
      assert i < |states| - 1 ==> FollowsAt(states, i);
    }
  }

  lemma StillBacked(job: Job, states: seq<State>, u: State, from: nat, tiers: seq<seq<Package>>, e: Event)
    requires Backs(job, states, from, tiers, e)
    ensures Backs(job, states + [u], from, tiers, e)
  {
    if e.Seen? {
      var i :| from <= i < |states| && ReadListed(job, states[i], tiers, e.pkg);
      assert (states + [u])[i] == states[i];
    }
  }

  // ---------------------------------------------------------------- publishing a tier

  predicate Lands(publisher: Publisher, p: Package) {
    publisher.error(p).None? || publisher.landsAnyway(p)
  }

  function IdSet(packages: seq<Package>): set<Id> {
    set p | p in packages :: IdOf(p)
  }

  /** What publishing all of the packages puts on the registry. */
  function LandedIds(packages: seq<Package>, publisher: Publisher): set<Id> {
    set p | p in packages && Lands(publisher, p) :: IdOf(p)
  }

  function ResultOf(p: Package, publisher: Publisher): PublishResult {
    PublishResult(p.name, p.version, publisher.error(p))
  }

  ghost predicate Results(pool: Pool, publisher: Publisher) {
    && |pool.results| == |pool.packages|
    && forall i :: 0 <= i < |pool.results| && pool.results[i].Some? ==> pool.results[i].value == ResultOf(pool.packages[i], publisher)
  }

  /** What the publishes that have ended put on the registry. */
  ghost function LandedSoFar(pool: Pool, publisher: Publisher): set<Id>
    requires |pool.results| == |pool.packages|
  {
    set i | 0 <= i < |pool.packages| && pool.results[i].Some? && Lands(publisher, pool.packages[i]) :: IdOf(pool.packages[i])
  }

  /** The version that worker `w` publishes lands, if it has not yet. */
  lemma LandNow(past: seq<State>, t: State, w: nat, job: Job) returns (u: State)
    requires Reaches(past, t, t.run, job) && t.run.phase.Publishing? && Valid(t.run.phase.pool)
    requires w < |t.run.phase.pool.workers| && t.run.phase.pool.workers[w].InFlight?
    ensures Reaches(past, u, t.run, job) && u.run == t.run
    ensures u.registry.Keys == t.registry.Keys + {IdOf(t.run.phase.pool.packages[t.run.phase.pool.workers[w].index])}
  {
    var p := t.run.phase.pool.packages[t.run.phase.pool.workers[w].index];
    if IdOf(p) in t.registry {
      u := t;
    } else {
      Holds(past, t, job);
      u := Advance(past, t, Land(IdOf(p), PinsOf(t.run.tiers, p)), job);
    }
  }

  /** One action of the pool. */
  lemma WorkNow(past: seq<State>, t: State, a: Action, job: Job) returns (u: State)
    requires Reaches(past, t, t.run, job) && CanStep(t, Work(a))
    requires a.Complete? ==> var pool := t.run.phase.pool; a.error == job.publisher.error(pool.packages[pool.workers[a.worker].index])
    ensures Reaches(past, u, t.run, job) && u.registry == t.registry
    ensures u.run.phase == Publishing(Apply(t.run.phase.pool, a))
  {
    Holds(past, t, job);
    u := Advance(past, t, Work(a), job);
  }

  /** The worker pool, with any scheduler. */
  method PublishTier(packages: seq<Package>, job: Job, onRegistry: set<Id>, ghost past: seq<State>, ghost start: State)
    returns (results: seq<Option<PublishResult>>, after: set<Id>, ghost t: State)
    requires Reaches(past, start, start.run, job)
    requires start.run.phase == Publishing(WorkerPool.Start(packages, job.settings.concurrency))
    requires start.registry.Keys == onRegistry
    ensures Reaches(past, t, start.run, job) && t.registry.Keys == after
    ensures t.run.phase.Publishing? && t.run.phase.pool.packages == packages && t.run.phase.pool.results == results
    ensures AllFinished(t.run.phase.pool)
    ensures |results| == |packages|
    ensures forall i :: 0 <= i < |packages| ==> results[i] == Some(ResultOf(packages[i], job.publisher))
    ensures after == onRegistry + LandedIds(packages, job.publisher)
  {
    var pool := WorkerPool.Start(packages, job.settings.concurrency);
    StartValid(packages, job.settings.concurrency);
    t := start;
    after := onRegistry;
    while exists w :: 0 <= w < |pool.workers| && !pool.workers[w].Finished?
      invariant Reaches(past, t, start.run, job) && t.run.phase == Publishing(pool) && t.registry.Keys == after
      invariant pool.packages == packages && Results(pool, job.publisher)
      invariant after == onRegistry + LandedSoFar(pool, job.publisher)
      invariant Valid(pool) && |pool.workers| >= 1
      decreases Remaining(pool)
    {
      var w :| 0 <= w < |pool.workers| && !pool.workers[w].Finished?;
      pool, after, t := WorkerActs(pool, w, job, onRegistry, after, past, t);
    }
    results := pool.results;
    AllDelivered(pool, job.publisher);
  }

  lemma AllDelivered(pool: Pool, publisher: Publisher)
    requires Valid(pool) && |pool.workers| >= 1 && AllFinished(pool)
    ensures forall i :: 0 <= i < |pool.packages| ==> pool.results[i].Some?
    ensures LandedSoFar(pool, publisher) == LandedIds(pool.packages, publisher)
  {
    assert pool.workers[0].Finished?;
    forall i | 0 <= i < |pool.packages| ensures pool.results[i].Some? {
      assert pool.results[i].None? ==> Carries(pool, i);
    }
    forall v ensures v in LandedSoFar(pool, publisher) <==> v in LandedIds(pool.packages, publisher) {
      if v in LandedIds(pool.packages, publisher) {
        var p :| p in pool.packages && Lands(publisher, p) && v == IdOf(p);
        var i :| 0 <= i < |pool.packages| && pool.packages[i] == p;
        assert pool.results[i].Some?;
      }
    }
  }

  /** What a worker that is scheduled does next: claim a package, end a publish, or stop. */
  method WorkerActs(pool: Pool, w: nat, job: Job, ghost before: set<Id>, onRegistry: set<Id>, ghost past: seq<State>, ghost t: State)
    returns (next: Pool, after: set<Id>, ghost u: State)
    requires Reaches(past, t, t.run, job) && t.run.phase == Publishing(pool) && t.registry.Keys == onRegistry
    requires Valid(pool) && w < |pool.workers| && !pool.workers[w].Finished?
    requires Results(pool, job.publisher) && onRegistry == before + LandedSoFar(pool, job.publisher)
    ensures Reaches(past, u, t.run, job) && u.run.phase == Publishing(next) && u.registry.Keys == after
    ensures next.packages == pool.packages && Results(next, job.publisher) && after == before + LandedSoFar(next, job.publisher)
    ensures Valid(next) && |next.workers| == |pool.workers| && Remaining(next) < Remaining(pool)
  {
    var a := NextAction(pool, w, job.publisher);
    after := onRegistry + LandedBy(pool, a, job.publisher);
    WorkDone(pool, a, job.publisher, before);
    next := Apply(pool, a);
    u := ActNow(past, t, pool, a, job);
  }

  function NextAction(pool: Pool, w: nat, publisher: Publisher): (a: Action)
    requires Valid(pool) && w < |pool.workers| && !pool.workers[w].Finished?
    ensures Enabled(pool, a)
    ensures a.Complete? ==> a.error == publisher.error(pool.packages[pool.workers[a.worker].index])
  {
    if pool.workers[w].InFlight? then Complete(w, publisher.error(pool.packages[pool.workers[w].index]))
    else if pool.next < |pool.packages| then Claim(w)
    else Exit(w)
  }

  /** One action of the pool; what a publish puts on the registry lands just before it ends. */
  lemma ActNow(past: seq<State>, t: State, pool: Pool, a: Action, job: Job) returns (u: State)
    requires Reaches(past, t, t.run, job) && t.run.phase == Publishing(pool) && Valid(pool) && Enabled(pool, a)
    requires a.Complete? ==> a.error == job.publisher.error(pool.packages[pool.workers[a.worker].index])
    ensures Reaches(past, u, t.run, job) && u.run.phase == Publishing(Apply(pool, a))
    ensures u.registry.Keys == t.registry.Keys + LandedBy(pool, a, job.publisher)
  {
    u := t;
    if a.Complete? && Lands(job.publisher, pool.packages[pool.workers[a.worker].index]) {
      u := LandNow(past, t, a.worker, job);
    }
    u := WorkNow(past, u, a, job);
  }

  lemma WorkDone(pool: Pool, a: Action, publisher: Publisher, before: set<Id>)
    requires Valid(pool) && Enabled(pool, a) && Results(pool, publisher)
    requires a.Complete? ==> a.error == publisher.error(pool.packages[pool.workers[a.worker].index])
    ensures var next := Apply(pool, a);
      && Valid(next) && |next.workers| == |pool.workers| && Remaining(next) < Remaining(pool) && Results(next, publisher)
      && before + LandedSoFar(pool, publisher) + LandedBy(pool, a, publisher) == before + LandedSoFar(next, publisher)
  {
    var next := Apply(pool, a);
    ApplyValid(pool, a);
    SumByUpdate(WORK, pool.workers, a.worker, next.workers[a.worker]);
    MoreLanded(pool, a, publisher);
  }

  lemma MoreLanded(pool: Pool, a: Action, publisher: Publisher)
    requires Valid(pool) && Enabled(pool, a)
    ensures Valid(Apply(pool, a))
    ensures LandedSoFar(Apply(pool, a), publisher) == LandedSoFar(pool, publisher) + LandedBy(pool, a, publisher)
  {
    var next := Apply(pool, a);
    ApplyValid(pool, a);
    if a.Complete? {
      var done := pool.workers[a.worker].index;
      assert forall i :: 0 <= i < |pool.packages| ==> (next.results[i].Some? <==> pool.results[i].Some? || i == done);
    }
  }

  function LandedBy(pool: Pool, a: Action, publisher: Publisher): set<Id>
    requires Enabled(pool, a)
  {
    if a.Complete? && Lands(publisher, pool.packages[pool.workers[a.worker].index])
    then {IdOf(pool.packages[pool.workers[a.worker].index])} else {}
  }

  // ---------------------------------------------------------------- what a tier comes to

  ghost predicate Readable(job: Job, tier: seq<Package>, content: set<Id>) {
    forall p :: p in tier ==> !Unreadable(job.answers(content), job.settings.attempts, p)
  }

  predicate NoErrors(job: Job, packages: seq<Package>) {
    forall p :: p in packages ==> job.publisher.error(p).None?
  }

  /** The results of the publishes that fail, in order. */
  function Errors(packages: seq<Package>, publisher: Publisher): seq<PublishResult> {
    if packages == [] then []
    else
      var last := packages[|packages| - 1];
      Errors(packages[..|packages| - 1], publisher) + if publisher.error(last).Some? then [ResultOf(last, publisher)] else []
  }

  predicate Gated(job: Job, missing: seq<Package>, isLastTier: bool) {
    missing != [] && !isLastTier && !job.settings.skip
  }

  /** The versions that the gate of the tier gives up waiting for. */
  ghost function StuckAt(job: Job, index: nat, missing: seq<Package>): map<string, string> {
    NotInTime(PendingMap(IdsOf(missing)), job.checks(index), job.now(index), job.settings.timeoutSeconds)
  }

  /** So many rounds left these versions unseen, and then the deadline had passed. */
  ghost predicate GaveUp(job: Job, index: nat, missing: seq<Package>, stuck: map<string, string>, rounds: nat) {
    && stuck == Unseen(PendingMap(IdsOf(missing)), job.checks(index), rounds)
    && rounds > 0 && job.now(index)(rounds) >= job.now(index)(0) + job.settings.timeoutSeconds * 1000
    && (job.settings.pollSeconds > 0 && ClockAdvances(job.now(index), job.settings.pollSeconds) ==>
          AtMostRounds(rounds, job.settings.timeoutSeconds, job.settings.pollSeconds))
  }

  /** The tier can be read, what is missing is published without an error, and the gate, if
      there is one, opens. */
  ghost predicate TierPasses(job: Job, tier: seq<Package>, index: nat, isLastTier: bool, content: set<Id>) {
    var missing := Missing(tier, content);
    && Readable(job, tier, content)
    && NoErrors(job, missing)
    && (Gated(job, missing, isLastTier) ==> StuckAt(job, index, missing) == map[])
  }

  /** How the run ends when the tier does not pass, and with what on the registry. */
  ghost predicate TierFails(outcome: Outcome, after: set<Id>, job: Job, tier: seq<Package>, index: nat, isLastTier: bool, content: set<Id>) {
    var missing := Missing(tier, content);
    match outcome
    case CannotRead(i) => i == index && !Readable(job, tier, content) && after == content
    case PublishFailed(i, failures) =>
      && i == index && Readable(job, tier, content) && failures == Errors(missing, job.publisher) && failures != []
      && after == content + LandedIds(missing, job.publisher)
    case TimedOut(i, stuck) =>
      && i == index && Readable(job, tier, content) && NoErrors(job, missing) && Gated(job, missing, isLastTier)
      && stuck == StuckAt(job, index, missing) && stuck != map[] && after == content + IdSet(tier)
      && exists rounds :: GaveUp(job, index, missing, stuck, rounds)
    case _ => false
  }

  lemma {:induction false} ErrorsMembers(packages: seq<Package>, publisher: Publisher)
    ensures Errors(packages, publisher) == [] <==> forall p :: p in packages ==> publisher.error(p).None?
    ensures forall f :: f in Errors(packages, publisher) <==> exists p :: p in packages && publisher.error(p).Some? && f == ResultOf(p, publisher)
  {
    if packages == [] {
    } else {
      ErrorsMembers(packages[..|packages| - 1], publisher);
      assert packages == packages[..|packages| - 1] + [packages[|packages| - 1]];
    }
  }

  /** The failures are those of the packages whose publish ends with an error, in order. */
  lemma {:induction false} ErrorsInOrder(packages: seq<Package>, publisher: Publisher)
    ensures PickedFrom(Errors(packages, publisher), packages, (p: Package) => publisher.error(p).Some?,
      (p: Package) => PublishResult(p.name, p.version, publisher.error(p)))
  {
    var failed := (p: Package) => publisher.error(p).Some?;
    var result := (p: Package) => PublishResult(p.name, p.version, publisher.error(p));
    if packages == [] {
      PickNone(failed, result);
    } else {
      var init, last := packages[..|packages| - 1], packages[|packages| - 1];
      ErrorsInOrder(init, publisher);
      PickNext(Errors(init, publisher), init, last, failed, result);
      assert packages == init + [last];
    }
  }

  /** The tier passes and is there as a whole, or the run fails there. */
  ghost predicate TierEnds(
      outcome: Option<Outcome>, after: set<Id>, job: Job, tier: seq<Package>, index: nat, isLastTier: bool, content: set<Id>) {
    if outcome.None? then after == content + IdSet(tier) && TierPasses(job, tier, index, isLastTier, content)
    else TierFails(outcome.value, after, job, tier, index, isLastTier, content)
  }

  /** The run goes on to the next tier, or has been aborted without tags. */
  ghost predicate RunGoesOn(outcome: Option<Outcome>, run: Run, before: Run, index: nat) {
    if outcome.None? then AtTier(run, before, index + 1)
    else run.tiers == before.tiers && run.phase == Aborted && Tag !in run.log
  }

  /** A tier cannot both pass and fail. */
  lemma PassesOrFails(outcome: Outcome, after: set<Id>, job: Job, tier: seq<Package>, index: nat, isLastTier: bool, content: set<Id>)
    requires TierFails(outcome, after, job, tier, index, isLastTier, content)
    ensures !TierPasses(job, tier, index, isLastTier, content)
  {
    ErrorsMembers(Missing(tier, content), job.publisher);
  }

  /** `results.filter(result => result.error !== undefined)` */
  function Failures(results: seq<Option<PublishResult>>): seq<PublishResult> {
    if results == [] then []
    else
      var last := results[|results| - 1];
      Failures(results[..|results| - 1]) + if last.Some? && last.value.error.Some? then [last.value] else []
  }

  lemma {:induction false} FailuresAreErrors(results: seq<Option<PublishResult>>, packages: seq<Package>, publisher: Publisher)
    requires |results| == |packages| && forall i :: 0 <= i < |packages| ==> results[i] == Some(ResultOf(packages[i], publisher))
    ensures Failures(results) == Errors(packages, publisher)
    ensures Failures(results) != [] <==> SomeFailed(results)
  {
    if packages == [] {
    } else {
      var n := |packages| - 1;
      FailuresAreErrors(results[..n], packages[..n], publisher);
      if SomeFailed(results[..n]) {
        var i :| 0 <= i < n && results[..n][i].Some? && results[..n][i].value.error.Some?;
        assert results[i].Some?;
      }
      if SomeFailed(results) && results[n].value.error.None? {
        var i :| 0 <= i < |results| && results[i].Some? && results[i].value.error.Some?;
        assert results[..n][i].Some?;
      }
    }
  }

  /** Without errors, everything missing lands, so that the whole tier is there. */
  lemma AllLand(tier: seq<Package>, content: set<Id>, job: Job)
    requires NoErrors(job, Missing(tier, content))
    ensures content + LandedIds(Missing(tier, content), job.publisher) == content + IdSet(tier)
  {
    MissingMembers(tier, content);
    forall p | p in tier ensures IdOf(p) in content + LandedIds(Missing(tier, content), job.publisher) {
      assert IdOf(p) !in content ==> p in Missing(tier, content);
    }
  }

  // ---------------------------------------------------------------- one tier

  /** What has been read successfully and is on the registry was listed by an answer. */
  lemma ReadMeansListed(job: Job, tier: seq<Package>, content: set<Id>)
    requires Trusted(job) && Readable(job, tier, content)
    ensures forall p :: p in tier && IdOf(p) in content ==> ListedAt(job, content, p)
  {
    forall p | p in tier && IdOf(p) in content ensures ListedAt(job, content, p) {
      assert !Unreadable(job.answers(content), job.settings.attempts, p);
      var k: nat :| (k == 0 || k < job.settings.attempts) && !job.answers(content)(p.name, k).Throws?;
      var first := ThereIsAFirst(job.answers(content), p.name, job.settings.attempts, k);
      assert Accurate(job.answers(content), tier, content);
      assert ListedBy(job.answers(content)(p.name, first), p.version);
    }
  }

  lemma {:induction false} ThereIsAFirst(replies: Replies, name: string, attempts: int, k: nat) returns (first: nat)
    requires (k == 0 || k < attempts) && !replies(name, k).Throws?
    ensures FirstAnswer(replies, name, attempts, first)
  {
    if j: nat :| j < k && !replies(name, j).Throws? {
      first := ThereIsAFirst(replies, name, attempts, j);
    } else {
      first := k;
    }
  }

  /** Every package of the tier has been read. */
  lemma {:induction false} ReadAll(past: seq<State>, t: State, job: Job) returns (u: State)
    requires Reaches(past, t, t.run, job) && t.run.phase.Reading? && t.run.phase.k <= |t.run.tiers[t.run.tier]|
    requires t.run.phase.unpublished == Missing(t.run.tiers[t.run.tier][..t.run.phase.k], t.registry.Keys)
    requires forall p :: p in t.run.tiers[t.run.tier] && IdOf(p) in t.registry ==> ListedAt(job, t.registry.Keys, p)
    ensures Reaches(past, u, t.run, job) && u.registry == t.registry
    ensures u.run.phase == Reading(Missing(t.run.tiers[t.run.tier], t.registry.Keys), |t.run.tiers[t.run.tier]|)
    decreases |t.run.tiers[t.run.tier]| - t.run.phase.k
  {
    var tier, k := t.run.tiers[t.run.tier], t.run.phase.k;
    if k == |tier| {
      assert tier[..k] == tier;
      u := t;
    } else {
      assert tier[..k + 1][..k] == tier[..k];
      u := Advance(past, t, Read, job);
      u := ReadAll(past, u, job);
    }
  }

  /** The gate confirms everything it waits for, each package after a check of it. */
  lemma {:induction false} ConfirmAll(past: seq<State>, t: State, job: Job) returns (u: State)
    requires Reaches(past, t, t.run, job) && t.run.phase.Waiting?
    requires forall p :: p in t.run.phase.pending ==> IdOf(p) in t.registry && WasChecked(job, t.run.tiers, p)
    ensures Reaches(past, u, t.run, job) && u.registry == t.registry && u.run.phase == Waiting({})
    decreases if t.run.phase.Waiting? then t.run.phase.pending else {}
  {
    if t.run.phase.pending == {} {
      u := t;
    } else {
      var p :| p in t.run.phase.pending;
      u := Advance(past, t, Confirm(p), job);
      u := ConfirmAll(past, u, job);
    }
  }

  /** The run has come to the given tier, or past the last one. */
  ghost predicate AtTier(run: Run, before: Run, tier: nat) {
    && run.tiers == before.tiers && run.skip == before.skip && run.concurrency == before.concurrency
    && run.tier == tier && run.phase == if tier < |run.tiers| then Reading([], 0) else Tagging
  }

  /** The run has ended without tags. */
  ghost predicate EndedUntagged(past: seq<State>, t: State, before: Run, job: Job) {
    EndsIn(past, t, job) && t.run.tiers == before.tiers && t.run.phase == Aborted && Tag !in t.run.log
  }

  lemma AbortNow(past: seq<State>, t: State, step: Step, job: Job) returns (u: State)
    requires Reaches(past, t, t.run, job) && CanStep(t, step) && (step.ReadFails? || step.Timeout?)
    ensures EndedUntagged(past, u, t.run, job) && u.registry == t.registry
  {
    Holds(past, t, job);
    u := Advance(past, t, step, job);
  }

  lemma FilteredNow(past: seq<State>, t: State, missing: seq<Package>, job: Job) returns (u: State)
    requires Reaches(past, t, t.run, job) && t.run.phase.Reading? && t.run.phase == Reading(missing, |t.run.tiers[t.run.tier]|)
    ensures EndsIn(past, u, job) && u.registry == t.registry
    ensures missing == [] ==> AtTier(u.run, t.run, t.run.tier + 1)
    ensures missing != [] ==> Reaches(past, u, t.run, job) && u.run.phase == Publishing(WorkerPool.Start(missing, t.run.concurrency))
  {
    u := Advance(past, t, Filtered, job);
  }

  predicate AllFinished(pool: Pool) {
    forall w :: 0 <= w < |pool.workers| ==> pool.workers[w].Finished?
  }

  predicate SomeFailed(results: seq<Option<PublishResult>>) {
    exists i :: 0 <= i < |results| && results[i].Some? && results[i].value.error.Some?
  }

  lemma FailedNow(past: seq<State>, t: State, job: Job) returns (u: State)
    requires Reaches(past, t, t.run, job) && t.run.phase.Publishing? && AllFinished(t.run.phase.pool)
    requires SomeFailed(t.run.phase.pool.results)
    ensures EndedUntagged(past, u, t.run, job) && u.registry == t.registry
  {
    Holds(past, t, job);
    u := Advance(past, t, TierPublished, job);
  }

  lemma WithoutGateNow(past: seq<State>, t: State, job: Job) returns (u: State)
    requires Reaches(past, t, t.run, job) && t.run.phase.Publishing? && AllFinished(t.run.phase.pool)
    requires !SomeFailed(t.run.phase.pool.results) && (t.run.skip || t.run.tier + 1 >= |t.run.tiers|)
    ensures EndsIn(past, u, job) && u.registry == t.registry && AtTier(u.run, t.run, t.run.tier + 1)
  {
    u := Advance(past, t, TierPublished, job);
  }

  lemma GateCloses(past: seq<State>, t: State, job: Job) returns (u: State)
    requires Reaches(past, t, t.run, job) && t.run.phase.Publishing? && AllFinished(t.run.phase.pool)
    requires !SomeFailed(t.run.phase.pool.results) && !t.run.skip && t.run.tier + 1 < |t.run.tiers|
    ensures Reaches(past, u, t.run, job) && u.registry == t.registry
    ensures u.run.phase == Waiting(set p | p in t.run.phase.pool.packages)
    ensures forall p :: p in u.run.phase.pending ==> p in u.run.tiers[u.run.tier] && IdOf(p) in u.registry
  {
    u := Advance(past, t, TierPublished, job);
    PoolInTier(past, t, job);
    AllThere(past, u, job);
  }

  lemma PoolInTier(past: seq<State>, t: State, job: Job)
    requires Reaches(past, t, t.run, job) && t.run.phase.Publishing?
    ensures forall p :: p in t.run.phase.pool.packages ==> p in t.run.tiers[t.run.tier]
  {
    Holds(past, t, job);
  }

  lemma AllThere(past: seq<State>, t: State, job: Job)
    requires Reaches(past, t, t.run, job) && t.run.phase.Waiting?
    ensures forall p :: p in t.run.tiers[t.run.tier] ==> IdOf(p) in t.registry
  {
    Holds(past, t, job);
  }

  /** The gate opens: a check found every package it waits for. */
  lemma PropagatedNow(past: seq<State>, t: State, missing: seq<Package>, job: Job) returns (u: State)
    requires Reaches(past, t, t.run, job) && t.run.phase.Waiting? && UniqueNames(missing)
    requires t.run.phase.pending == set p | p in missing
    requires forall p :: p in t.run.phase.pending ==> p in t.run.tiers[t.run.tier] && IdOf(p) in t.registry
    requires StuckAt(job, t.run.tier, missing) == map[]
    ensures EndsIn(past, u, job) && u.registry == t.registry && AtTier(u.run, t.run, t.run.tier + 1)
  {
    OpensIffInTime(missing, job.checks(t.run.tier), job.now(t.run.tier), job.settings.timeoutSeconds);
    u := ConfirmAll(past, t, job);
    u := Advance(past, u, Propagated, job);
  }

  lemma MissingDiffer(past: seq<State>, t: State, job: Job)
    requires Reaches(past, t, t.run, job) && t.run.phase.Reading?
    ensures UniqueNames(t.run.tiers[t.run.tier])
  {
    Holds(past, t, job);
    TierDistinct(t.run.tiers, t.run.tier);
  }

  /** The tier has been read and what is missing of it is to be published. */
  lemma TierRead(past: seq<State>, start: State, tier: seq<Package>, job: Job, onRegistry: set<Id>) returns (t: State)
    requires Trusted(job) && Readable(job, tier, onRegistry)
    requires Reaches(past, start, start.run, job) && start.registry.Keys == onRegistry
    requires start.run.phase == Reading([], 0) && start.run.tier < |start.run.tiers| && start.run.tiers[start.run.tier] == tier
    ensures EndsIn(past, t, job) && t.registry == start.registry && UniqueNames(Missing(tier, onRegistry))
    ensures var missing := Missing(tier, onRegistry);
      && (missing == [] ==> AtTier(t.run, start.run, start.run.tier + 1))
      && (missing != [] ==> Reaches(past, t, start.run, job) && t.run.phase == Publishing(WorkerPool.Start(missing, start.run.concurrency)))
  {
    MissingDiffer(past, start, job);
    MissingMembers(tier, onRegistry);
    ReadMeansListed(job, tier, onRegistry);
    t := ReadAll(past, start, job);
    t := FilteredNow(past, t, Missing(tier, onRegistry), job);
  }

  /** One iteration of the loop over the tiers. It goes on exactly when the tier passes. */
  method RunTier(tier: seq<Package>, index: nat, isLastTier: bool, job: Job, onRegistry: set<Id>,
                 ghost past: seq<State>, ghost start: State)
    returns (outcome: Option<Outcome>, after: set<Id>, delays: seq<seq<nat>>, settled: nat, ghost t: State)
    requires Trusted(job)
    requires Reaches(past, start, start.run, job) && start.registry.Keys == onRegistry
    requires start.run.phase == Reading([], 0) && start.run.tier == index && start.run.tiers[index] == tier
    requires start.run.skip == job.settings.skip && start.run.concurrency == job.settings.concurrency
    requires isLastTier <==> index >= |start.run.tiers| - 1
    ensures t.registry.Keys == after && TierEnds(outcome, after, job, tier, index, isLastTier, onRegistry)
    ensures EndsIn(past, t, job) && RunGoesOn(outcome, t.run, start.run, index)
    ensures Readable(job, tier, onRegistry) ==> TierReadWith(delays, tier, job, onRegistry)
    ensures settled == SettlesFor(outcome, job, Missing(tier, onRegistry), isLastTier)
  {
    after, settled := onRegistry, 0;
    var pending;
    pending, delays := ReadTier(tier, job, onRegistry);
    if pending.None? {
      t := AbortNow(past, start, ReadFails, job);
      return Some(CannotRead(index)), after, delays, settled, t;
    }
    t := TierRead(past, start, tier, job, onRegistry);
    if |pending.value| == 0 {
      NothingMissing(tier, index, isLastTier, job, onRegistry);
      return None, after, delays, settled, t;
    }
    outcome, after, settled, t := PublishPending(tier, pending.value, index, isLastTier, job, onRegistry, past, t);
  }

  ghost predicate TierReadWith(delays: seq<seq<nat>>, tier: seq<Package>, job: Job, onRegistry: set<Id>) {
    ReadWith(delays, tier, job.answers(onRegistry), job.settings.attempts, job.settings.delaySeconds)
  }

  method ReadTier(tier: seq<Package>, job: Job, onRegistry: set<Id>) returns (pending: Option<seq<Package>>, delays: seq<seq<nat>>)
    requires Trusted(job)
    ensures pending.Some? <==> Readable(job, tier, onRegistry)
    ensures pending.Some? ==> pending.value == Missing(tier, onRegistry) && TierReadWith(delays, tier, job, onRegistry)
  {
    pending, delays := FilterUnpublished(tier, job.answers(onRegistry), job.settings.attempts, job.settings.delaySeconds, onRegistry);
  }

  lemma NothingMissing(tier: seq<Package>, index: nat, isLastTier: bool, job: Job, onRegistry: set<Id>)
    requires Readable(job, tier, onRegistry) && Missing(tier, onRegistry) == []
    ensures TierEnds(None, onRegistry, job, tier, index, isLastTier, onRegistry)
  {
    AllLand(tier, onRegistry, job);
  }

  /** The rest of the iteration, for packages that are missing. */
  method PublishPending(ghost tier: seq<Package>, pending: seq<Package>, index: nat, isLastTier: bool, job: Job,
                        onRegistry: set<Id>, ghost past: seq<State>, ghost start: State)
    returns (outcome: Option<Outcome>, after: set<Id>, settled: nat, ghost t: State)
    requires Trusted(job) && pending == Missing(tier, onRegistry) && pending != [] && UniqueNames(pending)
    requires Readable(job, tier, onRegistry)
    requires Reaches(past, start, start.run, job) && start.registry.Keys == onRegistry
    requires start.run.phase == Publishing(WorkerPool.Start(pending, job.settings.concurrency)) && start.run.tier == index
    requires start.run.skip == job.settings.skip
    requires isLastTier <==> index >= |start.run.tiers| - 1
    ensures t.registry.Keys == after && TierEnds(outcome, after, job, tier, index, isLastTier, onRegistry)
    ensures EndsIn(past, t, job) && RunGoesOn(outcome, t.run, start.run, index)
    ensures settled == SettlesFor(outcome, job, pending, isLastTier)
  {
    var results;
    results, after, t := PublishTier(pending, job, onRegistry, past, start);
    var failures := Failures(results);
    FailuresAreErrors(results, pending, job.publisher);
    ErrorsMembers(pending, job.publisher);
    if |failures| > 0 {
      t := FailedNow(past, t, job);
      return Some(PublishFailed(index, failures)), after, 0, t;
    }
    AllLand(tier, onRegistry, job);
    outcome, settled, t := AwaitTier(tier, pending, index, isLastTier, job, onRegistry, past, t);
  }

  /** The end of the iteration, for packages that have been published without an error. */
  method AwaitTier(ghost tier: seq<Package>, pending: seq<Package>, index: nat, isLastTier: bool, job: Job,
                   ghost onRegistry: set<Id>, ghost past: seq<State>, ghost start: State)
    returns (outcome: Option<Outcome>, settled: nat, ghost t: State)
    requires Trusted(job) && pending == Missing(tier, onRegistry) && pending != [] && UniqueNames(pending)
    requires Readable(job, tier, onRegistry) && NoErrors(job, pending)
    requires Reaches(past, start, start.run, job) && start.registry.Keys == onRegistry + IdSet(tier)
    requires start.run.phase.Publishing? && start.run.phase.pool.packages == pending && AllFinished(start.run.phase.pool)
    requires !SomeFailed(start.run.phase.pool.results) && start.run.tier == index && start.run.skip == job.settings.skip
    requires isLastTier <==> index >= |start.run.tiers| - 1
    ensures t.registry == start.registry
    ensures TierEnds(outcome, onRegistry + IdSet(tier), job, tier, index, isLastTier, onRegistry)
    ensures EndsIn(past, t, job) && RunGoesOn(outcome, t.run, start.run, index)
    ensures settled == SettlesFor(outcome, job, pending, isLastTier)
  {
    if isLastTier || job.settings.skip {
      t := WithoutGateNow(past, start, job);
      return None, 0, t;
    }
    t := GateCloses(past, start, job);
    var stuck;
    stuck, settled := AwaitPropagation(pending, index, job);
    if |stuck| > 0 {
      assert pending[0] in t.run.phase.pending;
      t := AbortNow(past, t, Timeout, job);
      return Some(TimedOut(index, stuck)), 0, t;
    }
    t := PropagatedNow(past, t, pending, job);
    outcome := None;
  }

  /** How long the run lets things settle after the gate of a tier has opened, in milliseconds. */
  function SettlesFor(outcome: Option<Outcome>, job: Job, missing: seq<Package>, isLastTier: bool): nat {
    if outcome.None? && Gated(job, missing, isLastTier) then job.settings.minSeconds * 1000 else 0
  }

  method AwaitPropagation(pending: seq<Package>, index: nat, job: Job) returns (stuck: map<string, string>, settled: nat)
    requires Trusted(job) && pending != []
    ensures |stuck| == 0 ==> settled == job.settings.minSeconds * 1000
    ensures stuck == StuckAt(job, index, pending)
    ensures |stuck| > 0 ==> exists rounds :: GaveUp(job, index, pending, stuck, rounds)
  {
    ghost var k :| k >= 1 && job.now(index)(k) >= job.now(index)(0) + job.settings.timeoutSeconds * 1000;
    assert EndsBy(PendingMap(IdsOf(pending)), job.checks(index), job.now(index), job.settings.timeoutSeconds, k);
    var rounds;
    stuck, rounds, settled := WaitForPropagation(IdsOf(pending), job.checks(index), job.now(index),
      job.settings.minSeconds, job.settings.timeoutSeconds, job.settings.pollSeconds);
    assert |stuck| > 0 ==> GaveUp(job, index, pending, stuck, rounds);
  }

  // ---------------------------------------------------------------- the whole run

  /** What is on the registry when the run has passed the first `n` tiers. */
  ghost function Content(onRegistry: set<Id>, tiers: seq<seq<Package>>, n: nat): set<Id>
    requires n <= |tiers|
  {
    onRegistry + IdSet(Flatten(tiers[..n]))
  }

  ghost predicate Passes(job: Job, tiers: seq<seq<Package>>, onRegistry: set<Id>, i: nat)
    requires i < |tiers|
  {
    TierPasses(job, tiers[i], i, i == |tiers| - 1, Content(onRegistry, tiers, i))
  }

  ghost predicate FirstPass(job: Job, tiers: seq<seq<Package>>, onRegistry: set<Id>, n: nat)
    requires n <= |tiers|
  {
    forall i :: 0 <= i < n ==> Passes(job, tiers, onRegistry, i)
  }

  /** The first tier that does not pass decides how the run ends. */
  ghost predicate Decided(outcome: Outcome, after: set<Id>, job: Job, tiers: seq<seq<Package>>, onRegistry: set<Id>) {
    if outcome.Tagged? then FirstPass(job, tiers, onRegistry, |tiers|) && after == Content(onRegistry, tiers, |tiers|)
    else exists i :: 0 <= i < |tiers| && FirstPass(job, tiers, onRegistry, i) &&
           TierFails(outcome, after, job, tiers[i], i, i == |tiers| - 1, Content(onRegistry, tiers, i))
  }

  /** A tier that passes after those before it. */
  lemma OnePassesMore(after: set<Id>, job: Job, tiers: seq<seq<Package>>, onRegistry: set<Id>, i: nat)
    requires i < |tiers| && FirstPass(job, tiers, onRegistry, i)
    requires TierEnds(None, after, job, tiers[i], i, i == |tiers| - 1, Content(onRegistry, tiers, i))
    ensures FirstPass(job, tiers, onRegistry, i + 1) && after == Content(onRegistry, tiers, i + 1)
  {
    assert Passes(job, tiers, onRegistry, i);
    NextContent(onRegistry, tiers, i);
  }

  /** What the outcome of a run that does not create the tags says: the tier is one of the run's, a
      failed publish is that of one of its packages, and a gate that timed out is not that of the
      last tier, and not one to be skipped. */
  lemma OutcomeMeans(outcome: Outcome, after: set<Id>, job: Job, tiers: seq<seq<Package>>, onRegistry: set<Id>)
    requires Decided(outcome, after, job, tiers, onRegistry)
    ensures outcome.CannotRead? || outcome.PublishFailed? || outcome.TimedOut? ==> outcome.tier < |tiers|
    ensures outcome.TimedOut? ==> outcome.tier < |tiers| - 1 && !job.settings.skip && outcome.stuck != map[]
    ensures outcome.PublishFailed? ==> outcome.failures != [] && forall f :: f in outcome.failures ==>
      exists p :: p in tiers[outcome.tier] && job.publisher.error(p).Some? && f == PublishResult(p.name, p.version, job.publisher.error(p))
  {
    if outcome.PublishFailed? {
      var missing := Missing(tiers[outcome.tier], Content(onRegistry, tiers, outcome.tier));
      MissingMembers(tiers[outcome.tier], Content(onRegistry, tiers, outcome.tier));
      ErrorsMembers(missing, job.publisher);
    }
  }

  lemma NextContent(onRegistry: set<Id>, tiers: seq<seq<Package>>, n: nat)
    requires n < |tiers|
    ensures Content(onRegistry, tiers, n + 1) == Content(onRegistry, tiers, n) + IdSet(tiers[n])
  {
    assert tiers[..n + 1][..n] == tiers[..n];
    assert Flatten(tiers[..n + 1]) == Flatten(tiers[..n]) + tiers[n];
  }

  lemma EndsHere(outcome: Outcome, after: set<Id>, job: Job, tiers: seq<seq<Package>>, onRegistry: set<Id>, i: nat)
    requires i < |tiers| && FirstPass(job, tiers, onRegistry, i)
    requires TierEnds(Some(outcome), after, job, tiers[i], i, i == |tiers| - 1, Content(onRegistry, tiers, i))
    ensures Decided(outcome, after, job, tiers, onRegistry) && !outcome.Cyclic? && !outcome.Tagged?
    ensures !FirstPass(job, tiers, onRegistry, |tiers|)
  {
    TaggedIffAllPass(outcome, after, job, tiers, onRegistry);
  }

  /** The tags are created if and only if every tier passes. */
  lemma TaggedIffAllPass(outcome: Outcome, after: set<Id>, job: Job, tiers: seq<seq<Package>>, onRegistry: set<Id>)
    requires Decided(outcome, after, job, tiers, onRegistry)
    ensures outcome.Tagged? <==> FirstPass(job, tiers, onRegistry, |tiers|)
  {
    if !outcome.Tagged? {
      var i :| 0 <= i < |tiers| && TierFails(outcome, after, job, tiers[i], i, i == |tiers| - 1, Content(onRegistry, tiers, i));
      PassesOrFails(outcome, after, job, tiers[i], i, i == |tiers| - 1, Content(onRegistry, tiers, i));
      assert !Passes(job, tiers, onRegistry, i);
    }
  }

  /** One package for each manifest, as that manifest says, in the order of the locale. */
  ghost predicate PackagesOf(packages: seq<Package>, manifests: map<string, Manifest>, locale: (string, string) -> bool) {
    && UniqueNames(packages) && ByName(packages).Keys == manifests.Keys && Ordered(ByLocale(locale), packages)
    && forall p :: p in packages ==> ReadAs(manifests, p)
  }

  /** The tiers of the packages by the lengths of their longest dependency chains. */
  ghost predicate TiersOf(tiers: seq<seq<Package>>, packages: seq<Package>, depths: map<string, nat>) {
    && Consistent(ByName(packages), depths) && depths.Keys == ByName(packages).Keys
    && (forall p :: p in packages ==> p.name in depths) && tiers == TiersBy(packages, depths)
  }

  /** Manifests that pin each other in a circle. */
  ghost predicate PinCycle(manifests: map<string, Manifest>) {
    exists p: seq<string> :: IsPinCycle(manifests, p)
  }

  ghost predicate IsPinCycle(manifests: map<string, Manifest>, p: seq<string>) {
    && |p| >= 2 && p[0] == p[|p| - 1]
    && forall i :: 0 <= i < |p| - 1 ==> PinsKnown(manifests, p[i], p[i + 1])
  }

  ghost predicate PinsKnown(manifests: map<string, Manifest>, a: string, b: string) {
    a in manifests && b in manifests && Pins(manifests[a], b)
  }

  /** The edges of the graph are the pins of the manifests. */
  lemma EdgesArePins(packages: seq<Package>, manifests: map<string, Manifest>, a: string, b: string)
    requires ByName(packages).Keys == manifests.Keys && forall p :: p in packages ==> ReadAs(manifests, p)
    ensures Edge(ByName(packages), a, b) <==> PinsKnown(manifests, a, b)
  {
    ByNameFinds(packages);
    if a in manifests {
      assert ReadAs(manifests, ByName(packages)[a]);
    }
  }

  lemma CyclesArePinCycles(packages: seq<Package>, manifests: map<string, Manifest>)
    requires ByName(packages).Keys == manifests.Keys && forall p :: p in packages ==> ReadAs(manifests, p)
    ensures HasCycle(ByName(packages)) <==> PinCycle(manifests)
  {
    var g := ByName(packages);
    forall a, b ensures Edge(g, a, b) <==> PinsKnown(manifests, a, b) {
      EdgesArePins(packages, manifests, a, b);
    }
    if p :| IsCycle(g, p) {
      assert forall i :: 0 <= i < |p| - 1 ==> Edge(g, p[i], p[i + 1]);
      assert IsPinCycle(manifests, p);
    }
    if p :| IsPinCycle(manifests, p) {
      assert PinsKnown(manifests, p[0], p[0 + 1]);
      assert IsCycle(g, p);
    }
  }

  /** What the release treats as the dependencies of a package are the packages that its
      manifest pins. */
  lemma DependenciesArePins(tiers: seq<seq<Package>>, packages: seq<Package>, manifests: map<string, Manifest>, p: Package, q: Package)
    requires multiset(Flatten(tiers)) == multiset(packages) && forall r :: r in packages ==> ReadAs(manifests, r)
    requires p in packages
    ensures q in Dependencies(tiers, p) <==> q in packages && PinsKnown(manifests, p.name, q.name)
  {
    assert q in Flatten(tiers) <==> q in multiset(packages);
    assert ReadAs(manifests, p) && (q in packages ==> ReadAs(manifests, q));
  }

  /** The start of publishAllPackages: a release of a workspace either has tiers that a run can
      use, or its packages depend on each other in a cycle and nothing is published. */
  method PlanRelease(entries: seq<Option<Manifest>>, locale: (string, string) -> bool)
    returns (r: Result<seq<seq<Package>>, seq<string>>, packages: seq<Package>, ghost depths: map<string, nat>)
    requires TotalPreorder(locale)
    ensures FindsPublic(entries, packages) && PackagesOf(packages, Manifests(entries), locale)
    ensures r.Err? <==> PinCycle(Manifests(entries))
    ensures r.Err? ==> EndsInCycle(ByName(packages), r.error)
    ensures r.Ok? ==> TiersOf(r.value, packages, depths) && ValidTiers(r.value) && multiset(Flatten(r.value)) == multiset(packages)
  {
    packages := FindPublishablePackages(entries, locale);
    r, depths := ComputeTiers(packages);
    CyclesArePinCycles(packages, Manifests(entries));
    if r.Ok? {
      ComputedTiersAreValid(packages, depths);
      TiersAreValid(packages, depths);
    }
  }

  /** The tiers that computeTiers returns for the packages that findPublishablePackages finds
      are what a run needs. */
  lemma {:induction false} ComputedTiersAreValid(packages: seq<Package>, depths: map<string, nat>)
    requires UniqueNames(packages) && KnownDependencies(packages)
    requires Consistent(ByName(packages), depths) && depths.Keys == ByName(packages).Keys
    requires forall p :: p in packages ==> p.name in depths
    ensures ValidTiers(TiersBy(packages, depths))
  {
    TiersAreValid(packages, depths);
    var all := Flatten(TiersBy(packages, depths));
    ByNameFinds(packages);
    ByNameFinds(all);
    UniqueByCount(packages, all);
    forall p, d | p in all && d in p.workspaceDependencies ensures d in ByName(all) {
      assert p in multiset(all);
      assert p in packages;
      var q := ByName(packages)[d];
      assert q in multiset(all);
      assert q in all;
    }
  }

  /** A run of the release. It takes only steps of the protocol after whatever has happened
      before, every event is backed by an answer of the environment, and the first tier that
      does not pass decides how it ends; if all do, the tags are created. */
  method PublishAllPackages(
      entries: seq<Option<Manifest>>, locale: (string, string) -> bool, job: Job, onRegistry: set<Id>, ghost past: seq<State>)
    returns (outcome: Outcome, packages: seq<Package>, tiers: seq<seq<Package>>, after: set<Id>, ghost depths: map<string, nat>, ghost t: State)
    requires TotalPreorder(locale) && Trusted(job) && History(past)
    requires past[|past| - 1].run.phase.Done? || past[|past| - 1].run.phase.Aborted?
    requires past[|past| - 1].registry.Keys == onRegistry
    ensures FindsPublic(entries, packages) && PackagesOf(packages, Manifests(entries), locale)
    ensures outcome.Cyclic? <==> PinCycle(Manifests(entries))
    ensures outcome.Cyclic? ==> EndsInCycle(ByName(packages), outcome.path) && after == onRegistry
    ensures !outcome.Cyclic? ==> TiersOf(tiers, packages, depths) && ValidTiers(tiers) && multiset(Flatten(tiers)) == multiset(packages)
    ensures !outcome.Cyclic? ==> EndsIn(past, t, job) && t.run.tiers == tiers && t.registry.Keys == after
    ensures !outcome.Cyclic? ==> Decided(outcome, after, job, tiers, onRegistry)
    ensures outcome.Tagged? <==> !outcome.Cyclic? && FirstPass(job, tiers, onRegistry, |tiers|)
    ensures outcome.Tagged? ==> t.run.phase.Done? && Tag in t.run.log
    ensures !outcome.Tagged? && !outcome.Cyclic? ==> t.run.phase.Aborted? && Tag !in t.run.log
  {
    var plan;
    plan, packages, depths := PlanRelease(entries, locale);
    after, tiers := onRegistry, [];
    t := past[|past| - 1];
    if plan.Err? {
      outcome := Cyclic(plan.error);
      return;
    }
    tiers := plan.value;
    t := StartNow(past, tiers, job);
    outcome, after, t := RunTiers(tiers, job, onRegistry, past, t);
  }

  /** The loop over the tiers. */
  method RunTiers(tiers: seq<seq<Package>>, job: Job, onRegistry: set<Id>, ghost past: seq<State>, ghost start: State)
    returns (outcome: Outcome, after: set<Id>, ghost t: State)
    requires Trusted(job) && EndsIn(past, start, job) && start.registry.Keys == onRegistry
    requires AtTier(start.run, Run(tiers, job.settings.skip, job.settings.concurrency, 0, Done, []), 0)
    ensures EndsIn(past, t, job) && t.run.tiers == tiers && t.registry.Keys == after
    ensures Decided(outcome, after, job, tiers, onRegistry) && !outcome.Cyclic?
    ensures outcome.Tagged? <==> FirstPass(job, tiers, onRegistry, |tiers|)
    ensures outcome.Tagged? ==> t.run.phase.Done? && Tag in t.run.log
    ensures !outcome.Tagged? ==> t.run.phase.Aborted? && Tag !in t.run.log
  {
    after, t := onRegistry, start;
    assert tiers[..0] == [];
    for index := 0 to |tiers|
      invariant EndsIn(past, t, job) && t.registry.Keys == after && AtTier(t.run, start.run, index)
      invariant FirstPass(job, tiers, onRegistry, index) && after == Content(onRegistry, tiers, index)
    {
      var ended, delays, settled;
      ended, after, delays, settled, t := RunTier(tiers[index], index, index == |tiers| - 1, job, after, past, t);
      if ended.Some? {
        outcome := ended.value;
        EndsHere(outcome, after, job, tiers, onRegistry, index);
        return;
      }
      OnePassesMore(after, job, tiers, onRegistry, index);
    }
    t := TagNow(past, t, job);
    outcome := Tagged;
  }

  lemma TagNow(past: seq<State>, t: State, job: Job) returns (u: State)
    requires EndsIn(past, t, job) && t.run.phase.Tagging?
    ensures EndsIn(past, u, job) && u.registry == t.registry && u.run.tiers == t.run.tiers
    ensures u.run.phase.Done? && Tag in u.run.log
  {
    u := Advance(past, t, RunTag, job);
  }

  lemma StartNow(past: seq<State>, tiers: seq<seq<Package>>, job: Job) returns (t: State)
    requires History(past) && ValidTiers(tiers)
    requires past[|past| - 1].run.phase.Done? || past[|past| - 1].run.phase.Aborted?
    ensures EndsIn(past, t, job) && t.registry == past[|past| - 1].registry
    ensures AtTier(t.run, Run(tiers, job.settings.skip, job.settings.concurrency, 0, Done, []), 0)
  {
    var s := past[|past| - 1];
    var step := StartRun(tiers, job.settings.skip, job.settings.concurrency);
    t := DoStep(s, step);
    assert Follows(s, t);
    HistoryGrows(past, t);
    StartsByStart(s, step);
    assert StartsAt(past + [t], |past| - 1);
    assert Trace(past, past + [t], t, job);
  }

  /** The evidence for a dependency before the k-th event: it was listed when its tier was read
      in this run, or it was published without an error and, unless the gate is skipped, a check
      found it. */
  ghost predicate Evidence(job: Job, states: seq<State>, from: nat, run: Run, k: nat, q: Package)
    requires k <= |run.log|
  {
    || (Seen(q) in run.log[..k] && WasListed(job, states, from, run.tiers, q))
    || (Published(q) in run.log[..k] && job.publisher.error(q).None? &&
        (run.skip || (Resolvable(q) in run.log[..k] && WasChecked(job, run.tiers, q))))
  }

  /** So whatever holds of every history holds of every run: each version on the registry has
      the versions it pins there too, every publish call came after evidence for each
      dependency and for a version that was not there when the run started nor when the run
      read it, and tags came last. */
  lemma RunIsSafe(past: seq<State>, t: State, job: Job) returns (states: seq<State>)
    requires EndsIn(past, t, job)
    ensures Trace(past, states, t, job)
    ensures Closed(t.registry) && TagSafe(t)
    ensures forall k, q :: 0 <= k < |t.run.log| && t.run.log[k].Call? && q in Dependencies(t.run.tiers, t.run.log[k].pkg) ==>
      Evidence(job, states, |past|, t.run, k, q)
    ensures forall p :: Call(p) in t.run.log ==>
      WasMissing(states, |states| - 1, p) && IdOf(p) !in past[|past| - 1].registry
  {
    states :| Trace(past, states, t, job);
    ReleaseSafe(states, |states| - 1);
    CallsHaveEvidence(past, states, t, job);
    NothingAgain(past, states, t, job);
  }

  lemma CallsHaveEvidence(past: seq<State>, states: seq<State>, t: State, job: Job)
    requires Trace(past, states, t, job) && GateSafe(t.run)
    ensures forall k, q :: 0 <= k < |t.run.log| && t.run.log[k].Call? && q in Dependencies(t.run.tiers, t.run.log[k].pkg) ==>
      Evidence(job, states, |past|, t.run, k, q)
  {
    forall k, q | 0 <= k < |t.run.log| && t.run.log[k].Call? && q in Dependencies(t.run.tiers, t.run.log[k].pkg)
      ensures Evidence(job, states, |past|, t.run, k, q)
    {
      assert Cleared(t.run.log[..k], t.run.skip, q);
      ClearedMeansEvidence(past, states, t, job, k, q);
    }
  }

  lemma NothingAgain(past: seq<State>, states: seq<State>, t: State, job: Job)
    requires Trace(past, states, t, job)
    ensures forall p :: Call(p) in t.run.log ==> IdOf(p) !in past[|past| - 1].registry
  {
    forall p | Call(p) in t.run.log ensures IdOf(p) !in past[|past| - 1].registry {
      NeverAgain(states, |past| - 1, |states| - 1, p);
    }
  }

  lemma ClearedMeansEvidence(past: seq<State>, states: seq<State>, t: State, job: Job, k: nat, q: Package)
    requires Trace(past, states, t, job) && k <= |t.run.log| && Cleared(t.run.log[..k], t.run.skip, q)
    ensures Evidence(job, states, |past|, t.run, k, q)
  {
    assert forall e :: e in t.run.log[..k] ==> e in t.run.log;
    assert Seen(q) in t.run.log[..k] ==> Backs(job, states, |past|, t.run.tiers, Seen(q));
    assert Published(q) in t.run.log[..k] ==> Backs(job, states, |past|, t.run.tiers, Published(q));
    assert Resolvable(q) in t.run.log[..k] ==> Backs(job, states, |past|, t.run.tiers, Resolvable(q));
  }
}
