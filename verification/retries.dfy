// The retry loop of tools/e2e/runIndividualE2EFiles.ts: four rounds, each running the
// files that failed in the round before. Whether a run passes is decided by the
// environment: `passes(r, i)` is the outcome of the i-th file run in round r.

module Retries {
  import opened Common

  const RETRIES: nat := 4

  type Outcomes = (nat, nat) -> bool

  /** The files of one round that fail, each listed once, in the order of their first failure. */
  function FailedIn(tests: seq<string>, passes: Outcomes, round: nat): seq<string> {
    if tests == [] then []
    else
      var last := |tests| - 1;
      var before := FailedIn(tests[..last], passes, round);
      if passes(round, last) || tests[last] in before then before else before + [tests[last]]
  }

  lemma {:induction false} FailedInMembers(tests: seq<string>, passes: Outcomes, round: nat)
    ensures Distinct(FailedIn(tests, passes, round))
    ensures forall f :: f in FailedIn(tests, passes, round) <==>
      exists i :: 0 <= i < |tests| && tests[i] == f && !passes(round, i)
  {
    if tests == [] {
    } else {
      var last := |tests| - 1;
      FailedInMembers(tests[..last], passes, round);
      assert forall i :: 0 <= i < last && !passes(round, i) ==> tests[..last][i] in FailedIn(tests[..last], passes, round);
    }
  }

  /** File `f` fails in the round before `g` does. */
  ghost predicate FailsFirst(tests: seq<string>, passes: Outcomes, round: nat, f: string, g: string) {
    exists a: nat :: a < |tests| && tests[a] == f && !passes(round, a) && forall b: nat :: b < a && tests[b] == g ==> passes(round, b)
  }

  ghost predicate InFailOrder(failed: seq<string>, tests: seq<string>, passes: Outcomes, round: nat) {
    forall i, j :: 0 <= i < j < |failed| ==> FailsFirst(tests, passes, round, failed[i], failed[j])
  }

  /** They are listed in the order in which they first fail. */
  lemma {:induction false} FailedInOrder(tests: seq<string>, passes: Outcomes, round: nat)
    ensures InFailOrder(FailedIn(tests, passes, round), tests, passes, round)
  {
    if tests == [] {
    } else {
      var last := |tests| - 1;
      var init := tests[..last];
      var before, failed := FailedIn(init, passes, round), FailedIn(tests, passes, round);
      FailedInOrder(init, passes, round);
      FailedInMembers(init, passes, round);
      forall i, j | 0 <= i < j < |failed| ensures FailsFirst(tests, passes, round, failed[i], failed[j]) {
        assert failed[i] == before[i];
        if j < |before| {
          assert failed[j] == before[j];
        } else {
          assert failed[i] in before;
          var a: nat :| a < |init| && init[a] == failed[i] && !passes(round, a);
          assert FailsFirst(init, passes, round, failed[i], failed[j]);
        }
        StillFirst(tests, passes, round, failed[i], failed[j]);
      }
    }
  }

  lemma StillFirst(tests: seq<string>, passes: Outcomes, round: nat, f: string, g: string)
    requires tests != [] && FailsFirst(tests[..|tests| - 1], passes, round, f, g)
    ensures FailsFirst(tests, passes, round, f, g)
  {
    var init := tests[..|tests| - 1];
    var a: nat :| a < |init| && init[a] == f && !passes(round, a) && forall b: nat :: b < a && init[b] == g ==> passes(round, b);
    assert forall b: nat :: b <= a ==> tests[b] == init[b];
  }

  /** The files run in round `r`. */
  function Queue(tests: seq<string>, passes: Outcomes, r: nat): seq<string> {
    if r == 0 then tests else FailedIn(Queue(tests, passes, r - 1), passes, r - 1)
  }

  /** What the first `n` rounds run. */
  function Rounds(tests: seq<string>, passes: Outcomes, n: nat): (rounds: seq<seq<string>>)
    ensures |rounds| == n
  {
    if n == 0 then [] else Rounds(tests, passes, n - 1) + [Queue(tests, passes, n - 1)]
  }

  /** One round: runs every file of the queue and collects the set of failures. */
  method RunRound(queue: seq<string>, passes: Outcomes, round: nat) returns (failedTest: seq<string>)
    ensures failedTest == FailedIn(queue, passes, round)
  {
    failedTest := [];
    for k := 0 to |queue|
      invariant failedTest == FailedIn(queue[..k], passes, round)
    {
      assert queue[..k + 1][..k] == queue[..k];
      if !passes(round, k) && queue[k] !in failedTest {
        failedTest := failedTest + [queue[k]];
      }
    }
    assert queue[..|queue|] == queue;
  }

  /** Runs the rounds. `ran` lists what each round ran; `reported` is what the script prints
      as failed before exiting with code 1. */
  method RunWithRetries(tests: seq<string>, passes: Outcomes)
    returns (exitCode: nat, reported: seq<string>, ran: seq<seq<string>>)
    ensures exitCode == if Queue(tests, passes, 4) == [] then 0 else 1
    ensures reported == Queue(tests, passes, 4)
    ensures 1 <= |ran| <= 4 && (|ran| < 4 ==> exitCode == 0)
    ensures ran == Rounds(tests, passes, |ran|)
  {
    var queue := tests;
    var failedTest: seq<string> := [];
    ran := [];
    for i := 0 to RETRIES
      invariant |ran| == i
      invariant queue == Queue(tests, passes, i)
      invariant i > 0 ==> failedTest == queue && queue != []
      invariant ran == Rounds(tests, passes, i)
    {
      ran := ran + [queue];
      failedTest := RunRound(queue, passes, i);
      if |failedTest| == 0 {
        EmptyStaysEmpty(tests, passes, i + 1, RETRIES);
        return 0, [], ran;
      }
      queue := failedTest;
    }
    exitCode, reported := 1, failedTest;
  }

  lemma {:induction false} EmptyStaysEmpty(tests: seq<string>, passes: Outcomes, r: nat, s: nat)
    requires r <= s && Queue(tests, passes, r) == []
    ensures Queue(tests, passes, s) == []
    decreases s
  {
    if r == s {
    } else {
      EmptyStaysEmpty(tests, passes, r, s - 1);
    }
  }

  /** Round `r` ran file `f` and it failed there. */
  ghost predicate FailedAt(tests: seq<string>, passes: Outcomes, r: nat, f: string) {
    exists i :: 0 <= i < |Queue(tests, passes, r)| && Queue(tests, passes, r)[i] == f && !passes(r, i)
  }

  /** A file is still in the queue after `n` rounds if and only if it failed in every one. */
  lemma {:induction false} QueuedIffAlwaysFailed(tests: seq<string>, passes: Outcomes, n: nat, f: string)
    requires n > 0
    ensures f in Queue(tests, passes, n) <==> forall r: nat :: r < n ==> FailedAt(tests, passes, r, f)
  {
    FailedInMembers(Queue(tests, passes, n - 1), passes, n - 1);
    assert f in Queue(tests, passes, n) <==> FailedAt(tests, passes, n - 1, f);
    if n == 1 {
    } else if f in Queue(tests, passes, n) {
      assert f in Queue(tests, passes, n - 1);
      QueuedIffAlwaysFailed(tests, passes, n - 1, f);
    }
  }

  /** A file that passed is never run again. Only a list that names it twice could do that. */
  lemma {:induction false} PassedNeverRunsAgain(tests: seq<string>, passes: Outcomes, r: nat, i: nat, s: nat)
    requires Distinct(tests)
    requires i < |Queue(tests, passes, r)| && passes(r, i) && r < s
    ensures Queue(tests, passes, r)[i] !in Queue(tests, passes, s)
    decreases s
  {
    var f := Queue(tests, passes, r)[i];
    FailedInMembers(Queue(tests, passes, s - 1), passes, s - 1);
    if s == r + 1 {
      if r > 0 {
        FailedInMembers(Queue(tests, passes, r - 1), passes, r - 1);
      }
      assert Distinct(Queue(tests, passes, r));
    } else {
      PassedNeverRunsAgain(tests, passes, r, i, s - 1);
      assert forall g :: g in Queue(tests, passes, s) ==> g in Queue(tests, passes, s - 1);
    }
  }
}
