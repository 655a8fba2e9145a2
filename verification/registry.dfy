// Reading the registry during a release (fetchPackumentWithRetry, filterUnpublished and
// waitForPropagation in tools/deployments/publish-packages.ts). What the registry answers,
// and what the clock shows, is decided by the environment.

module RegistryReads {
  import opened Common
  import opened Packages

  datatype Id = Id(name: string, version: string)

  /** One attempt to fetch a packument: an error, a 404, or the versions on the registry. */
  datatype Fetch = Throws | NotFound | Packument(versions: set<string>)

  type Replies = (string, nat) -> Fetch

  function IdOf(p: Package): Id {
    Id(p.name, p.version)
  }

  function Power2(n: nat): nat {
    if n == 0 then 1 else 2 * Power2(n - 1)
  }

  /** The delays slept before the attempts 2, 3, ..., n + 1. */
  function Backoff(delaySeconds: nat, n: nat): seq<nat> {
    if n == 0 then [] else Backoff(delaySeconds, n - 1) + [delaySeconds * 1000 * Power2(n - 1)]
  }

  /** Attempt `k` is the first that does not throw, within the attempts allowed. */
  ghost predicate FirstAnswer(replies: Replies, name: string, attempts: int, k: nat) {
    (k == 0 || k < attempts) && !replies(name, k).Throws? && forall j :: 0 <= j < k ==> replies(name, j).Throws?
  }

  /** The first delay is the given one, each later one twice the one before. */
  predicate Doubles(sleeps: seq<nat>, delaySeconds: nat) {
    && (sleeps != [] ==> sleeps[0] == 1000 * delaySeconds)
    && forall k :: 0 <= k < |sleeps| - 1 ==> sleeps[k + 1] == 2 * sleeps[k]
  }

  /** Returns the first answer, sleeping twice as long after each failure; gives up with the
      last allowed attempt. There is always at least one. */
  method FetchPackumentWithRetry(name: string, replies: Replies, attempts: int, delaySeconds: nat)
    returns (r: Option<Fetch>, sleeps: seq<nat>)
    ensures r.Some? ==> FirstAnswer(replies, name, attempts, |sleeps|) && r.value == replies(name, |sleeps|)
    ensures r.None? ==> forall k :: 0 <= k && (k == 0 || k < attempts) ==> replies(name, k).Throws?
    ensures r.None? ==> |sleeps| == if attempts > 1 then attempts - 1 else 0
    ensures sleeps == Backoff(delaySeconds, |sleeps|)
    ensures Doubles(sleeps, delaySeconds)
  {
    var delay := delaySeconds * 1000;
    var attempt := 1;
    sleeps := [];
    while true
      invariant attempt >= 1 && |sleeps| == attempt - 1
      invariant attempt == 1 || attempt <= attempts
      invariant delay == delaySeconds * 1000 * Power2(attempt - 1)
      invariant sleeps == Backoff(delaySeconds, attempt - 1)
      invariant Doubles(sleeps, delaySeconds)
      invariant delay == if sleeps == [] then 1000 * delaySeconds else 2 * sleeps[|sleeps| - 1]
      invariant forall j :: 0 <= j < attempt - 1 ==> replies(name, j).Throws?
      decreases attempts - attempt
    {
      var reply := replies(name, attempt - 1);
      if !reply.Throws? {
        return Some(reply), sleeps;
      }
      if attempt >= attempts {
        return None, sleeps;
      }
      sleeps := sleeps + [delay];
      delay := delay * 2;
      attempt := attempt + 1;
    }
  }

  /** The packages whose exact version is not on the registry, in order. */
  function Missing(packages: seq<Package>, onRegistry: set<Id>): seq<Package> {
    if packages == [] then []
    else
      Missing(packages[..|packages| - 1], onRegistry) +
      if IdOf(packages[|packages| - 1]) in onRegistry then [] else [packages[|packages| - 1]]
  }

  lemma {:induction false} MissingMembers(packages: seq<Package>, onRegistry: set<Id>)
    ensures forall p :: p in Missing(packages, onRegistry) <==> p in packages && IdOf(p) !in onRegistry
    ensures UniqueNames(packages) ==> UniqueNames(Missing(packages, onRegistry))
  {
    if packages == [] {
    } else {
      var init, last := packages[..|packages| - 1], packages[|packages| - 1];
      assert packages == init + [last];
      MissingMembers(init, onRegistry);
      if UniqueNames(packages) {
        forall p | p in Missing(init, onRegistry) ensures p.name != last.name {
          var i :| 0 <= i < |init| && init[i] == p;
          assert packages[i] == p;
        }
      }
    }
  }

  /** What is missing are exactly the packages whose version is not there, in the order given. */
  ghost predicate NotThere(missing: seq<Package>, packages: seq<Package>, onRegistry: set<Id>) {
    PickedFrom(missing, packages, (p: Package) => Id(p.name, p.version) !in onRegistry, (p: Package) => p)
  }

  lemma {:induction false} MissingInOrder(packages: seq<Package>, onRegistry: set<Id>)
    ensures NotThere(Missing(packages, onRegistry), packages, onRegistry)
  {
    var keep, same := (p: Package) => Id(p.name, p.version) !in onRegistry, (p: Package) => p;
    if packages == [] {
      PickNone(keep, same);
    } else {
      var init, last := packages[..|packages| - 1], packages[|packages| - 1];
      MissingInOrder(init, onRegistry);
      PickNext(Missing(init, onRegistry), init, last, keep, same);
      assert packages == init + [last];
    }
  }

  /** Whatever answer arrives for a package tells the truth about its version. */
  ghost predicate Accurate(replies: Replies, packages: seq<Package>, onRegistry: set<Id>) {
    forall p, k: nat :: p in packages && !replies(p.name, k).Throws? ==>
      (IdOf(p) in onRegistry <==> replies(p.name, k).Packument? && p.version in replies(p.name, k).versions)
  }

  ghost predicate Unreadable(replies: Replies, attempts: int, p: Package) {
    forall k :: 0 <= k && (k == 0 || k < attempts) ==> replies(p.name, k).Throws?
  }

  /** The delays with which each package was read. */
  ghost predicate ReadWith(delays: seq<seq<nat>>, packages: seq<Package>, replies: Replies, attempts: int, delaySeconds: nat) {
    && |delays| == |packages|
    && forall i :: 0 <= i < |packages| ==>
         FirstAnswer(replies, packages[i].name, attempts, |delays[i]|) && Doubles(delays[i], delaySeconds)
  }

  /** Fails exactly when some package cannot be read; otherwise, with accurate answers, what
      is left are the missing packages. */
  method FilterUnpublished(packages: seq<Package>, replies: Replies, attempts: int, delaySeconds: nat, ghost onRegistry: set<Id>)
    returns (r: Option<seq<Package>>, delays: seq<seq<nat>>)
    requires Accurate(replies, packages, onRegistry)
    ensures r.None? <==> exists p :: p in packages && Unreadable(replies, attempts, p)
    ensures r.Some? ==> r.value == Missing(packages, onRegistry) && NotThere(r.value, packages, onRegistry)
    ensures r.Some? ==> ReadWith(delays, packages, replies, attempts, delaySeconds)
  {
    var unpublished: seq<Package> := [];
    delays := [];
    for i := 0 to |packages|
      invariant unpublished == Missing(packages[..i], onRegistry)
      invariant ReadWith(delays, packages[..i], replies, attempts, delaySeconds)
      invariant forall p :: p in packages[..i] ==> !Unreadable(replies, attempts, p)
    {
      var pkg := packages[i];
      var packument, sleeps := FetchPackumentWithRetry(pkg.name, replies, attempts, delaySeconds);
      if packument.None? {
        assert Unreadable(replies, attempts, pkg);
        return None, delays;
      }
      delays := delays + [sleeps];
      assert packages[..i + 1][..i] == packages[..i];
      assert packages[..i + 1] == packages[..i] + [pkg];
      if !(packument.value.Packument? && pkg.version in packument.value.versions) {
        unpublished := unpublished + [pkg];
      }
    }
    assert packages[..|packages|] == packages;
    MissingInOrder(packages, onRegistry);
    return Some(unpublished), delays;
  }

  // ---------------------------------------------------------------- propagation

  /** The check of a version in a round: its packument lists it and its tarball is ok. */
  type Checks = (nat, Id) -> bool

  /** `Map(packages.map(p => [p.name, p.version]))`: the last version of each name. */
  function PendingMap(packages: seq<Id>): map<string, string> {
    if packages == [] then map[]
    else PendingMap(packages[..|packages| - 1])[packages[|packages| - 1].name := packages[|packages| - 1].version]
  }

  /** The entries that one round leaves pending. */
  function Unresolved(before: map<string, string>, checks: Checks, round: nat): map<string, string> {
    map n | n in before && !checks(round, Id(n, before[n])) :: before[n]
  }

  /** The entries with no successful check in the first `rounds` rounds. */
  function Unseen(all: map<string, string>, checks: Checks, rounds: nat): map<string, string> {
    if rounds == 0 then all else Unresolved(Unseen(all, checks, rounds - 1), checks, rounds - 1)
  }

  lemma {:induction false} UnseenMeans(all: map<string, string>, checks: Checks, rounds: nat, n: string)
    requires n in all
    ensures n in Unseen(all, checks, rounds) <==> forall k: nat :: k < rounds ==> !checks(k, Id(n, all[n]))
    ensures n in Unseen(all, checks, rounds) ==> Unseen(all, checks, rounds)[n] == all[n]
  {
    if rounds == 0 {
    } else {
      UnseenMeans(all, checks, rounds - 1, n);
    }
  }

  /** `rounds` is at most ceil(timeout / poll) + 1. */
  predicate AtMostRounds(rounds: nat, timeoutSeconds: nat, pollSeconds: nat) {
    rounds <= 1 || (rounds - 2) * pollSeconds < timeoutSeconds
  }

  lemma AtMostRoundsIsCeiling(rounds: nat, timeoutSeconds: nat, pollSeconds: nat)
    requires pollSeconds > 0
    ensures AtMostRounds(rounds, timeoutSeconds, pollSeconds) <==>
      rounds <= (timeoutSeconds + pollSeconds - 1) / pollSeconds + 1
  {
    var q := (timeoutSeconds + pollSeconds - 1) / pollSeconds;
    assert q * pollSeconds <= timeoutSeconds + pollSeconds - 1 < q * pollSeconds + pollSeconds;
    if rounds - 2 >= q {
      assert (rounds - 2) * pollSeconds >= q * pollSeconds;
    } else if rounds >= 2 {
      assert (rounds - 2) * pollSeconds + pollSeconds == (rounds - 1) * pollSeconds <= q * pollSeconds;
    }
  }

  /** The clock: `now(0)` is the start, `now(k)` the reading after round k. Between two
      readings after the first the gate slept `pollSeconds`. */
  ghost predicate ClockAdvances(now: nat -> int, pollSeconds: nat) {
    now(0) <= now(1) && forall k: nat :: k >= 1 ==> now(k) + pollSeconds * 1000 <= now(k + 1)
  }

  /** The version is found in a round that begins before the deadline has been read. */
  ghost predicate SeenInTime(checks: Checks, now: nat -> int, timeoutSeconds: nat, v: Id) {
    exists k: nat :: checks(k, v) && BeforeDeadline(now, timeoutSeconds, k)
  }

  ghost predicate BeforeDeadline(now: nat -> int, timeoutSeconds: nat, k: nat) {
    forall i :: 1 <= i <= k ==> now(i) < now(0) + timeoutSeconds * 1000
  }

  /** The entries that are not found in time. */
  ghost function NotInTime(all: map<string, string>, checks: Checks, now: nat -> int, timeoutSeconds: nat): map<string, string> {
    map n | n in all && !SeenInTime(checks, now, timeoutSeconds, Id(n, all[n])) :: all[n]
  }

  /** The gate ends after this many rounds at the latest. Without such a number it polls for
      ever, so the condition is what its callers owe it. */
  ghost predicate EndsBy(all: map<string, string>, checks: Checks, now: nat -> int, timeoutSeconds: nat, rounds: nat) {
    rounds >= 1 && (|Unseen(all, checks, rounds)| == 0 || now(rounds) >= now(0) + timeoutSeconds * 1000)
  }

  /** What is reported as stuck are exactly the versions not found in time, so the gate opens if
      and only if each version is; then it settles for `minSeconds`. A timeout comes only at the
      deadline. With a clock that each sleep advances there are at most ceil(timeout / poll) + 1
      rounds. */
  method WaitForPropagation(packages: seq<Id>, checks: Checks, now: nat -> int,
                            minSeconds: nat, timeoutSeconds: nat, pollSeconds: nat)
    returns (stuck: map<string, string>, rounds: nat, settled: nat)
    requires exists enough: nat :: EndsBy(PendingMap(packages), checks, now, timeoutSeconds, enough)
    ensures stuck == NotInTime(PendingMap(packages), checks, now, timeoutSeconds)
    ensures stuck == Unseen(PendingMap(packages), checks, rounds)
    ensures |stuck| > 0 ==> rounds > 0 && now(rounds) >= now(0) + timeoutSeconds * 1000
    ensures |stuck| == 0 ==> settled == if |packages| == 0 then 0 else minSeconds * 1000
    ensures rounds > 0 ==> |Unseen(PendingMap(packages), checks, rounds - 1)| > 0
    ensures rounds > 0 ==> BeforeDeadline(now, timeoutSeconds, rounds - 1)
    ensures pollSeconds > 0 && ClockAdvances(now, pollSeconds) ==> AtMostRounds(rounds, timeoutSeconds, pollSeconds)
  {
    settled := 0;
    if |packages| == 0 {
      NothingPending(packages, checks, now, timeoutSeconds);
      return map[], 0, 0;
    }
    ghost var enough: nat :| EndsBy(PendingMap(packages), checks, now, timeoutSeconds, enough);
    stuck, rounds := Poll(PendingMap(packages), checks, now, timeoutSeconds, enough);
    PollDecides(PendingMap(packages), checks, now, timeoutSeconds, rounds);
    RoundsBounded(now, timeoutSeconds, pollSeconds, rounds);
    if |stuck| > 0 {
      return;
    }
    if minSeconds > 0 {
      settled := minSeconds * 1000;
    }
  }

  /** These rounds were made, each with something pending and before the deadline was read. */
  ghost predicate Polled(all: map<string, string>, checks: Checks, now: nat -> int, timeoutSeconds: nat, rounds: nat) {
    rounds > 0 ==> |Unseen(all, checks, rounds - 1)| > 0 && BeforeDeadline(now, timeoutSeconds, rounds - 1)
  }

  lemma PollOn(all: map<string, string>, checks: Checks, now: nat -> int, timeoutSeconds: nat, rounds: nat)
    requires Polled(all, checks, now, timeoutSeconds, rounds) && |Unseen(all, checks, rounds)| > 0
    requires rounds > 0 ==> now(rounds) < now(0) + timeoutSeconds * 1000
    ensures Polled(all, checks, now, timeoutSeconds, rounds + 1)
  {
  }

  /** A round that comes after enough of them finds nothing pending, or the deadline has passed. */
  lemma NotMoreThan(all: map<string, string>, checks: Checks, now: nat -> int, timeoutSeconds: nat, enough: nat, rounds: nat)
    requires EndsBy(all, checks, now, timeoutSeconds, enough) && rounds <= enough
    requires |Unseen(all, checks, rounds)| > 0 && (rounds > 0 ==> now(rounds) < now(0) + timeoutSeconds * 1000)
    ensures rounds < enough
  {
  }

  /** The loop over the rounds; it ends without pending entries or at the deadline. */
  method Poll(all: map<string, string>, checks: Checks, now: nat -> int, timeoutSeconds: nat, ghost enough: nat)
    returns (pending: map<string, string>, rounds: nat)
    requires EndsBy(all, checks, now, timeoutSeconds, enough)
    ensures pending == Unseen(all, checks, rounds) && Polled(all, checks, now, timeoutSeconds, rounds)
    ensures |pending| > 0 ==> rounds > 0 && now(rounds) >= now(0) + timeoutSeconds * 1000
  {
    var deadline := now(0) + timeoutSeconds * 1000;
    pending, rounds := all, 0;
    while |pending| > 0
      invariant pending == Unseen(all, checks, rounds) && Polled(all, checks, now, timeoutSeconds, rounds)
      invariant rounds > 0 && |pending| > 0 ==> now(rounds) < deadline
      invariant rounds <= enough
      decreases enough - rounds
    {
      PollOn(all, checks, now, timeoutSeconds, rounds);
      NotMoreThan(all, checks, now, timeoutSeconds, enough, rounds);
      pending := CheckRound(all, pending, checks, rounds);
      rounds := rounds + 1;
      if |pending| > 0 {
        if now(rounds) >= deadline {
          return;
        }
      }
    }
  }

  lemma NothingPending(packages: seq<Id>, checks: Checks, now: nat -> int, timeoutSeconds: nat)
    requires |packages| == 0
    ensures NotInTime(PendingMap(packages), checks, now, timeoutSeconds) == map[] == Unseen(PendingMap(packages), checks, 0)
  {
  }

  lemma PollDecides(all: map<string, string>, checks: Checks, now: nat -> int, timeoutSeconds: nat, rounds: nat)
    requires rounds > 0 ==> BeforeDeadline(now, timeoutSeconds, rounds - 1)
    requires |Unseen(all, checks, rounds)| > 0 ==> rounds > 0 && now(rounds) >= now(0) + timeoutSeconds * 1000
    ensures NotInTime(all, checks, now, timeoutSeconds) == Unseen(all, checks, rounds)
  {
    if |Unseen(all, checks, rounds)| == 0 {
      AllInTime(all, checks, now, timeoutSeconds, rounds);
    } else {
      StuckAtDeadline(all, checks, now, timeoutSeconds, rounds);
    }
  }

  /** At the deadline, what has not been seen will not be in time. */
  lemma StuckAtDeadline(all: map<string, string>, checks: Checks, now: nat -> int, timeoutSeconds: nat, rounds: nat)
    requires rounds > 0 && now(rounds) >= now(0) + timeoutSeconds * 1000 && BeforeDeadline(now, timeoutSeconds, rounds - 1)
    ensures Unseen(all, checks, rounds) == NotInTime(all, checks, now, timeoutSeconds)
  {
    UnseenInside(all, checks, rounds);
    forall n | n in all
      ensures n in Unseen(all, checks, rounds) <==> n in NotInTime(all, checks, now, timeoutSeconds)
      ensures n in Unseen(all, checks, rounds) ==> Unseen(all, checks, rounds)[n] == all[n]
    {
      UnseenMeans(all, checks, rounds, n);
      if n !in Unseen(all, checks, rounds) {
        var k: nat :| k < rounds && checks(k, Id(n, all[n]));
        assert BeforeDeadline(now, timeoutSeconds, k);
      }
    }
  }

  lemma AllInTime(all: map<string, string>, checks: Checks, now: nat -> int, timeoutSeconds: nat, rounds: nat)
    requires Unseen(all, checks, rounds) == map[] && (rounds > 0 ==> BeforeDeadline(now, timeoutSeconds, rounds - 1))
    ensures NotInTime(all, checks, now, timeoutSeconds) == map[]
  {
    forall n | n in all ensures SeenInTime(checks, now, timeoutSeconds, Id(n, all[n])) {
      UnseenMeans(all, checks, rounds, n);
      var k: nat :| k < rounds && checks(k, Id(n, all[n]));
      assert BeforeDeadline(now, timeoutSeconds, k);
    }
  }

  lemma {:induction false} UnseenInside(all: map<string, string>, checks: Checks, rounds: nat)
    ensures Unseen(all, checks, rounds).Keys <= all.Keys
  {
    if rounds == 0 {
    } else {
      UnseenInside(all, checks, rounds - 1);
    }
  }

  /** The pending map of packages with different names holds each of them. */
  lemma {:induction false} PendingHolds(packages: seq<Package>)
    requires UniqueNames(packages)
    ensures forall p :: p in packages ==> p.name in PendingMap(IdsOf(packages)) && PendingMap(IdsOf(packages))[p.name] == p.version
    ensures forall n :: n in PendingMap(IdsOf(packages)) ==> exists p :: p in packages && p.name == n
  {
    if packages == [] {
    } else {
      var init, last := packages[..|packages| - 1], packages[|packages| - 1];
      PendingHolds(init);
      LastPending(packages);
      assert packages == init + [last];
      assert forall i :: 0 <= i < |init| ==> packages[i].name != last.name;
    }
  }

  lemma LastPending(packages: seq<Package>)
    requires packages != []
    ensures var last := packages[|packages| - 1];
      PendingMap(IdsOf(packages)) == PendingMap(IdsOf(packages[..|packages| - 1]))[last.name := last.version]
  {
    assert IdsOf(packages)[..|packages| - 1] == IdsOf(packages[..|packages| - 1]);
  }

  function IdsOf(packages: seq<Package>): seq<Id> {
    seq(|packages|, i requires 0 <= i < |packages| => IdOf(packages[i]))
  }

  /** So the gate opens for such packages if and only if each of them is found in time. */
  lemma OpensIffInTime(packages: seq<Package>, checks: Checks, now: nat -> int, timeoutSeconds: nat)
    requires UniqueNames(packages)
    ensures NotInTime(PendingMap(IdsOf(packages)), checks, now, timeoutSeconds) == map[] <==>
      forall p :: p in packages ==> SeenInTime(checks, now, timeoutSeconds, IdOf(p))
  {
    var all := PendingMap(IdsOf(packages));
    PendingHolds(packages);
    if NotInTime(all, checks, now, timeoutSeconds) == map[] {
      forall p | p in packages ensures SeenInTime(checks, now, timeoutSeconds, IdOf(p)) {
        assert p.name !in NotInTime(all, checks, now, timeoutSeconds);
      }
    }
    if forall p :: p in packages ==> SeenInTime(checks, now, timeoutSeconds, IdOf(p)) {
      forall n | n in all ensures SeenInTime(checks, now, timeoutSeconds, Id(n, all[n])) {
        var p :| p in packages && p.name == n;
      }
    }
  }

  /** One round over a snapshot of the pending entries, deleting those that are resolvable. */
  method CheckRound(ghost all: map<string, string>, before: map<string, string>, checks: Checks, round: nat)
    returns (pending: map<string, string>)
    requires before == Unseen(all, checks, round)
    ensures pending == Unseen(all, checks, round + 1)
  {
    pending := before;
    var todo := before.Keys;
    while todo != {}
      invariant todo <= before.Keys
      invariant pending == map n | n in before && (n in todo || !checks(round, Id(n, before[n]))) :: before[n]
    {
      var name :| name in todo;
      if checks(round, Id(name, before[name])) {
        pending := pending - {name};
      }
      todo := todo - {name};
    }
    assert pending == Unresolved(before, checks, round);
  }

  lemma {:induction false} ClockAfter(now: nat -> int, pollSeconds: nat, k: nat)
    requires ClockAdvances(now, pollSeconds) && k >= 1
    ensures now(0) + (k - 1) * (pollSeconds * 1000) <= now(k)
  {
    if k == 1 {
    } else {
      ClockAfter(now, pollSeconds, k - 1);
      assert (k - 1) * (pollSeconds * 1000) == (k - 2) * (pollSeconds * 1000) + pollSeconds * 1000;
    }
  }

  lemma RoundsBounded(now: nat -> int, timeoutSeconds: nat, pollSeconds: nat, rounds: nat)
    requires rounds > 0 ==> BeforeDeadline(now, timeoutSeconds, rounds - 1)
    ensures pollSeconds > 0 && ClockAdvances(now, pollSeconds) ==> AtMostRounds(rounds, timeoutSeconds, pollSeconds)
  {
    if rounds > 1 && pollSeconds > 0 && ClockAdvances(now, pollSeconds) {
      ClockAfter(now, pollSeconds, rounds - 1);
      assert (rounds - 2) * (pollSeconds * 1000) == (rounds - 2) * pollSeconds * 1000;
    }
  }
}
