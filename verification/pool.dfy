// The worker pool of publishTier (tools/deployments/publish-packages.ts): a fixed number
// of workers share the counter `next`; each claims the next index, publishes that package
// and stores the result at the same index. An execution is any interleaving of the
// workers' actions.

module WorkerPool {
  import opened Common
  import opened Packages

  datatype PublishResult = PublishResult(name: string, version: string, error: Option<string>)

  datatype Worker = Idle | InFlight(index: nat) | Finished

  datatype Pool = Pool(packages: seq<Package>, next: nat, workers: seq<Worker>, results: seq<Option<PublishResult>>)

  datatype Action =
    | Claim(worker: nat)
    | Complete(worker: nat, error: Option<string>)
    | Exit(worker: nat)

  function Max(a: int, b: int): int { if a > b then a else b }

  function Min(a: int, b: int): int { if a < b then a else b }

  function Start(packages: seq<Package>, concurrency: int): Pool {
    Pool(packages, 0, seq(Max(1, Min(concurrency, |packages|)), _ => Idle), seq(|packages|, _ => None))
  }

  predicate Enabled(p: Pool, a: Action) {
    && a.worker < |p.workers|
    && match a
       case Claim(w) => p.workers[w].Idle? && p.next < |p.packages|
       case Complete(w, _) => p.workers[w].InFlight? && p.workers[w].index < |p.results| && p.workers[w].index < |p.packages|
       case Exit(w) => p.workers[w].Idle? && p.next >= |p.packages|
  }

  function Apply(p: Pool, a: Action): Pool
    requires Enabled(p, a)
  {
    match a
    case Claim(w) => p.(workers := p.workers[w := InFlight(p.next)], next := p.next + 1)
    case Complete(w, error) =>
      var i := p.workers[w].index;
      var result := PublishResult(p.packages[i].name, p.packages[i].version, error);
      p.(workers := p.workers[w := Idle], results := p.results[i := Some(result)])
    case Exit(w) => p.(workers := p.workers[w := Finished])
  }

  /** The pool after the actions, if each was enabled in its turn. */
  ghost function Execute(p: Pool, actions: seq<Action>): Option<Pool> {
    if actions == [] then Some(p)
    else
      var before := Execute(p, actions[..|actions| - 1]);
      if before.Some? && Enabled(before.value, actions[|actions| - 1])
      then Some(Apply(before.value, actions[|actions| - 1])) else None
  }

  /** The index that each claim of an execution took, in order. */
  ghost function Claimed(p: Pool, actions: seq<Action>): seq<nat>
    requires Execute(p, actions).Some?
  {
    if actions == [] then []
    else
      var earlier := actions[..|actions| - 1];
      Claimed(p, earlier) + if actions[|actions| - 1].Claim? then [Execute(p, earlier).value.next] else []
  }

  ghost predicate Carries(p: Pool, i: nat) {
    exists w :: 0 <= w < |p.workers| && p.workers[w] == InFlight(i)
  }

  ghost predicate Belongs(p: Pool, i: nat)
    requires i < |p.results| && i < |p.packages| && p.results[i].Some?
  {
    p.results[i].value.name == p.packages[i].name && p.results[i].value.version == p.packages[i].version
  }

  ghost predicate Valid(p: Pool) {
    && |p.results| == |p.packages|
    && p.next <= |p.packages|
    && (forall w :: 0 <= w < |p.workers| && p.workers[w].InFlight? ==>
          p.workers[w].index < p.next && p.results[p.workers[w].index].None?)
    && (forall v, w :: 0 <= v < w < |p.workers| && p.workers[v].InFlight? && p.workers[w].InFlight? ==>
          p.workers[v].index != p.workers[w].index)
    && (forall i :: 0 <= i < |p.results| && p.results[i].Some? ==> i < p.next && Belongs(p, i))
    && (forall i :: 0 <= i < p.next && p.results[i].None? ==> Carries(p, i))
    && (forall w :: 0 <= w < |p.workers| && p.workers[w].Finished? ==> p.next == |p.packages|)
  }

  lemma StartValid(packages: seq<Package>, concurrency: int)
    ensures Valid(Start(packages, concurrency))
  {
  }

  lemma ApplyValid(p: Pool, a: Action)
    requires Valid(p) && Enabled(p, a)
    ensures Valid(Apply(p, a))
  {
    var q := Apply(p, a);
    forall i | 0 <= i < q.next && q.results[i].None? ensures Carries(q, i) {
      if a.Claim? && i == p.next {
        assert q.workers[a.worker] == InFlight(i);
      } else {
        assert Carries(p, i);
        var w :| 0 <= w < |p.workers| && p.workers[w] == InFlight(i);
        assert w != a.worker;
        assert q.workers[w] == InFlight(i);
      }
    }
    forall i | 0 <= i < |q.results| && q.results[i].Some? ensures i < q.next && Belongs(q, i) {
      if p.results[i].Some? {
        assert Belongs(p, i);
      }
    }
  }

  function InFlightIndices(workers: seq<Worker>): set<nat> {
    if workers == [] then {}
    else
      InFlightIndices(workers[..|workers| - 1]) +
      if workers[|workers| - 1].InFlight? then {workers[|workers| - 1].index} else {}
  }

  lemma {:induction false} InFlightFew(workers: seq<Worker>)
    ensures |InFlightIndices(workers)| <= |workers|
    ensures forall i :: i in InFlightIndices(workers) <==> exists w :: 0 <= w < |workers| && workers[w] == InFlight(i)
  {
    if workers == [] {
    } else {
      var init, last := workers[..|workers| - 1], workers[|workers| - 1];
      InFlightFew(init);
      assert workers == init + [last];
      var one: set<nat> := if last.InFlight? then {last.index} else {};
      assert |InFlightIndices(init) + one| <= |InFlightIndices(init)| + |one|;
      forall i ensures i in InFlightIndices(workers) <==> exists w :: 0 <= w < |workers| && workers[w] == InFlight(i) {
        if w :| 0 <= w < |init| && init[w] == InFlight(i) {
          assert workers[w] == InFlight(i);
        }
        if last == InFlight(i) {
          assert workers[|init|] == InFlight(i);
        }
      }
    }
  }

  const WORK: Worker -> nat := (w: Worker) => if w.Idle? then 1 else if w.InFlight? then 2 else 0

  /** What is still to be done; every action uses up one unit. */
  function Remaining(p: Pool): nat
    requires p.next <= |p.packages|
  {
    2 * (|p.packages| - p.next) + SumBy(WORK, p.workers)
  }

  lemma {:induction false} StartRemaining(n: nat)
    ensures SumBy(WORK, seq<Worker>(n, _ => Idle)) == n
  {
    if n == 0 {
    } else {
      StartRemaining(n - 1);
      assert seq<Worker>(n, _ => Idle)[..n - 1] == seq<Worker>(n - 1, _ => Idle);
    }
  }

  lemma {:induction false} ExecuteValid(packages: seq<Package>, concurrency: int, actions: seq<Action>)
    requires Execute(Start(packages, concurrency), actions).Some?
    ensures var start, p := Start(packages, concurrency), Execute(Start(packages, concurrency), actions).value;
      && Valid(p) && p.packages == packages && |p.workers| == |start.workers|
      && |actions| + Remaining(p) == Remaining(start)
      && |Claimed(start, actions)| == p.next
      && forall k :: 0 <= k < p.next ==> Claimed(start, actions)[k] == k
  {
    var start := Start(packages, concurrency);
    StartValid(packages, concurrency);
    if actions == [] {
    } else {
      var earlier, a := actions[..|actions| - 1], actions[|actions| - 1];
      ExecuteValid(packages, concurrency, earlier);
      var before := Execute(start, earlier).value;
      ApplyValid(before, a);
      SumByUpdate(WORK, before.workers, a.worker, Apply(before, a).workers[a.worker]);
    }
  }

  /** publishTier under every interleaving. The claims take the indices 0, 1, 2, ... once
      each, so at most max(1, min(concurrency, n)) distinct packages are in flight; as long as
      some worker has not finished there is an action to take, an execution has at most
      2n + max(1, min(concurrency, n)) of them, and when all workers have finished the result
      at every index is that of its package. */
  lemma PublishTierCorrect(packages: seq<Package>, concurrency: int, actions: seq<Action>)
    requires Execute(Start(packages, concurrency), actions).Some?
    ensures var start, p := Start(packages, concurrency), Execute(Start(packages, concurrency), actions).value;
      var fewer := if concurrency < |packages| then concurrency else |packages|;
      var limit := if fewer > 1 then fewer else 1;
      && p.next <= |packages| && |p.workers| == limit
      && Claimed(start, actions) == seq(p.next, k => k)
      && |InFlightIndices(p.workers)| <= limit
      && |actions| <= 2 * |packages| + limit
      && ((exists w :: 0 <= w < |p.workers| && !p.workers[w].Finished?) ==> exists a :: Enabled(p, a))
      && ((forall w :: 0 <= w < |p.workers| ==> p.workers[w].Finished?) ==> Delivered(p, packages))
  {
    var start, p := Start(packages, concurrency), Execute(Start(packages, concurrency), actions).value;
    ExecuteValid(packages, concurrency, actions);
    InFlightFew(p.workers);
    StartRemaining(|start.workers|);
    assert start.workers == seq<Worker>(|start.workers|, _ => Idle);
    if w :| 0 <= w < |p.workers| && !p.workers[w].Finished? {
      var a := if p.workers[w].InFlight? then Complete(w, None) else if p.next < |packages| then Claim(w) else Exit(w);
      assert Enabled(p, a);
    } else {
      assert p.workers[0].Finished?;
      forall i | 0 <= i < |packages| ensures p.results[i].Some? {
        assert p.results[i].None? ==> Carries(p, i);
      }
      CompactAll(p.results);
      assert forall i :: 0 <= i < |packages| ==> Belongs(p, i);
    }
  }

  function Compact<T>(s: seq<Option<T>>): seq<T> {
    if s == [] then []
    else Compact(s[..|s| - 1]) + if s[|s| - 1].Some? then [s[|s| - 1].value] else []
  }

  lemma {:induction false} CompactAll<T>(s: seq<Option<T>>)
    requires forall i :: 0 <= i < |s| ==> s[i].Some?
    ensures |Compact(s)| == |s| && forall i :: 0 <= i < |s| ==> Compact(s)[i] == s[i].value
  {
    if s == [] {
    } else {
      CompactAll(s[..|s| - 1]);
    }
  }

  /** The list publishTier returns: one result per package, in input order. */
  ghost predicate Delivered(p: Pool, packages: seq<Package>) {
    && |Compact(p.results)| == |packages|
    && forall i :: 0 <= i < |packages| ==>
         Compact(p.results)[i].name == packages[i].name && Compact(p.results)[i].version == packages[i].version
  }
}
