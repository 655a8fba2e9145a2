// The bound on the balance of the shards (tools/e2e/runIndividualE2EFiles.ts) cannot be
// improved, for any number of shards: Graham's family of 2m + 1 files, two each of the
// durations 2m - 1, ..., m + 1 and three of the duration m.

module Tightness {
  import opened Common
  import opened Shards

  /** The duration of the i-th file, longest first. */
  function Duration(m: nat, i: nat): nat
    requires i <= 2 * m && m >= 1
  {
    if i == 2 * m then m else 2 * m - 1 - i / 2
  }

  function Files(m: nat): (files: seq<nat>)
    requires m >= 1
  {
    seq(2 * m + 1, i requires 0 <= i < 2 * m + 1 => Duration(m, i))
  }

  /** The split that puts files together whose durations add up to 3m. */
  function BestSplit(m: nat): seq<seq<nat>>
    requires m >= 1
  {
    Pairs(Files(m)[..2 * m - 2]) + [[m, m, m]]
  }

  /** Each element with the one as far from the other end. */
  function Pairs(g: seq<nat>): (pairs: seq<seq<nat>>)
    ensures |pairs| == |g| / 2
  {
    if |g| < 2 then [] else Pairs(g[1..|g| - 1]) + [[g[0], g[|g| - 1]]]
  }

  // ---------------------------------------------------------------- how the shards fill

  /** The first m files go to a shard each; so do the next m, the least loaded shard first and
      the first one of two that are equally loaded. This is the place of shard `i` in that order. */
  function Rank(m: nat, i: nat): (j: nat)
    requires i < m
    ensures j < m
  {
    if i % 2 == 1 then m - i else if i == m - 1 then 0 else m - 2 - i
  }

  function Unrank(m: nat, j: nat): (i: nat)
    requires j < m
    ensures i < m && Rank(m, i) == j
  {
    if (m - j) % 2 == 0 then m - 2 - j else if j == 0 then m - 1 else m - j
  }

  /** What shard `i` carries after `n` files. */
  function Load(m: nat, n: nat, i: nat): nat
    requires i < m && n <= 2 * m
  {
    if n <= m then if i < n then Duration(m, i) else 0
    else if Rank(m, i) < n - m then 3 * m - 1 else Duration(m, i)
  }

  lemma RankOrders(m: nat, i: nat, k: nat)
    requires i < m && k < m && Rank(m, i) < Rank(m, k)
    ensures Duration(m, i) < Duration(m, k) || (Duration(m, i) == Duration(m, k) && i < k)
  {
  }

  lemma RankInjective(m: nat, i: nat, k: nat)
    requires i < m && k < m && Rank(m, i) == Rank(m, k)
    ensures i == k
  {
  }

  lemma FitsRank(m: nat, i: nat)
    requires i < m
    ensures Duration(m, i) + Duration(m, m + Rank(m, i)) == 3 * m - 1
  {
  }

  /** The first least load among all. */
  ghost predicate FirstLeast(m: nat, n: nat, k: nat)
    requires n <= 2 * m
  {
    && k < m && (forall i :: 0 <= i < m ==> Load(m, n, k) <= Load(m, n, i))
    && (forall i :: 0 <= i < k ==> Load(m, n, k) < Load(m, n, i))
  }

  lemma FirstRound(m: nat, n: nat, k: nat)
    requires n < m && FirstLeast(m, n, k)
    ensures k == n
  {
    assert Load(m, n, n) == 0;
  }

  lemma SecondRound(m: nat, n: nat, k: nat)
    requires m <= n < 2 * m && FirstLeast(m, n, k)
    ensures Rank(m, k) == n - m
  {
    var i := Unrank(m, n - m);
    assert Load(m, n, k) <= Load(m, n, i) == Duration(m, i);
    if n - m < Rank(m, k) {
      RankOrders(m, i, k);
    }
  }

  lemma LoadNext(m: nat, n: nat, k: nat, i: nat)
    requires n < 2 * m && i < m && FirstLeast(m, n, k)
    ensures Load(m, n + 1, i) == if i == k then Load(m, n, k) + Duration(m, n) else Load(m, n, i)
  {
    if n < m {
      FirstRound(m, n, k);
    } else {
      SecondRound(m, n, k);
      FitsRank(m, k);
      if Rank(m, i) == Rank(m, k) {
        RankInjective(m, i, k);
      }
    }
  }

  ghost predicate Carries(dur: nat -> nat, shards: seq<seq<nat>>, m: nat, n: nat)
    requires n <= 2 * m
  {
    |shards| == m && forall i :: 0 <= i < m ==> Total(dur, shards, i) == Load(m, n, i)
  }

  lemma {:induction false} GreedyCarries(dur: nat -> nat, m: nat, n: nat)
    requires (forall d :: dur(d) == d) && m >= 1 && n <= 2 * m
    ensures Carries(dur, Greedy(dur, Files(m)[..n], m), m, n)
  {
    if n == 0 {
      assert Greedy(dur, [], m) == seq(m, _ => []);
    } else {
      GreedyCarries(dur, m, n - 1);
      PutCarries(dur, Greedy(dur, Files(m)[..n - 1], m), m, n - 1);
      GreedyNext(dur, Files(m), m, n - 1);
    }
  }

  /** Where the next file goes. */
  lemma GreedyNext(dur: nat -> nat, files: seq<nat>, m: nat, n: nat)
    requires m >= 1 && n < |files|
    ensures var before := Greedy(dur, files[..n], m);
      var k := Lightest(dur, before, m);
      Greedy(dur, files[..n + 1], m) == before[k := before[k] + [files[n]]]
  {
    assert files[..n + 1][..n] == files[..n];
  }

  lemma PutCarries(dur: nat -> nat, shards: seq<seq<nat>>, m: nat, n: nat)
    requires (forall d :: dur(d) == d) && m >= 1 && n < 2 * m && Carries(dur, shards, m, n)
    ensures var k := Lightest(dur, shards, m); Carries(dur, shards[k := shards[k] + [Duration(m, n)]], m, n + 1)
  {
    var k, x := Lightest(dur, shards, m), Duration(m, n);
    var after := shards[k := shards[k] + [x]];
    assert (shards[k] + [x])[..|shards[k]|] == shards[k];
    assert FirstLeast(m, n, k);
    forall i | 0 <= i < m ensures Total(dur, after, i) == Load(m, n + 1, i) {
      LoadNext(m, n, k, i);
      assert Total(dur, shards, i) == Load(m, n, i);
    }
  }

  lemma GreedyLoad(dur: nat -> nat, m: nat)
    requires (forall d :: dur(d) == d) && m >= 1
    ensures Makespan(dur, Greedy(dur, Files(m), m)) == 4 * m - 1
  {
    GreedyCarries(dur, m, 2 * m);
    OneFileMore(dur, Files(m), m);
  }

  /** The last file overloads a shard. */
  lemma OneFileMore(dur: nat -> nat, files: seq<nat>, m: nat)
    requires (forall d :: dur(d) == d) && m >= 1 && |files| == 2 * m + 1 && files[2 * m] == m
    requires Carries(dur, Greedy(dur, files[..2 * m], m), m, 2 * m)
    ensures Makespan(dur, Greedy(dur, files, m)) == 4 * m - 1
  {
    LastOverloads(dur, Greedy(dur, files[..2 * m], m), m);
    assert files[..|files| - 1] == files[..2 * m];
  }

  lemma LastOverloads(dur: nat -> nat, shards: seq<seq<nat>>, m: nat)
    requires (forall d :: dur(d) == d) && m >= 1 && Carries(dur, shards, m, 2 * m)
    ensures var k := Lightest(dur, shards, m); Makespan(dur, shards[k := shards[k] + [m]]) == 4 * m - 1
  {
    var k := Lightest(dur, shards, m);
    var after := shards[k := shards[k] + [m]];
    assert (shards[k] + [m])[..|shards[k]|] == shards[k];
    forall i | 0 <= i < m ensures Total(dur, after, i) == if i == k then 4 * m - 1 else 3 * m - 1 {
      assert Total(dur, shards, i) == Load(m, 2 * m, i) == 3 * m - 1;
    }
    assert Total(dur, after, k) == 4 * m - 1;
    MakespanIsMax(dur, after);
  }

  // ---------------------------------------------------------------- the best split

  lemma {:induction false} PairsHoldAll(g: seq<nat>)
    requires |g| % 2 == 0
    ensures multiset(Flatten(Pairs(g))) == multiset(g)
  {
    if g == [] {
    } else {
      var inner, x, y := g[1..|g| - 1], g[0], g[|g| - 1];
      PairsHoldAll(inner);
      assert g == [x] + inner + [y];
      OnePairMore(Pairs(inner), inner, x, y);
    }
  }

  lemma OnePairMore(pairs: seq<seq<nat>>, inner: seq<nat>, x: nat, y: nat)
    requires multiset(Flatten(pairs)) == multiset(inner)
    ensures multiset(Flatten(pairs + [[x, y]])) == multiset([x] + inner + [y])
  {
    assert (pairs + [[x, y]])[..|pairs|] == pairs;
    assert Flatten(pairs + [[x, y]]) == Flatten(pairs) + [x, y];
  }

  lemma {:induction false} PairsWeigh(dur: nat -> nat, g: seq<nat>, sum: nat, i: nat)
    requires (forall d :: dur(d) == d) && i < |g| / 2
    requires forall k :: 0 <= k < |g| ==> g[k] + g[|g| - 1 - k] == sum
    ensures SumBy(dur, Pairs(g)[i]) == sum
  {
    var inner := g[1..|g| - 1];
    if i == |Pairs(inner)| {
      SmallSums(dur, g[0], g[|g| - 1], 0);
    } else {
      forall k | 0 <= k < |inner| ensures inner[k] + inner[|inner| - 1 - k] == sum {
        assert g[k + 1] + g[|g| - 1 - (k + 1)] == sum;
      }
      PairsWeigh(dur, inner, sum, i);
    }
  }

  lemma BestSplitsFiles(m: nat)
    requires m >= 1
    ensures |BestSplit(m)| == m && multiset(Flatten(BestSplit(m))) == multiset(Files(m))
  {
    var g := Files(m)[..2 * m - 2];
    PairsHoldAll(g);
    assert BestSplit(m)[..m - 1] == Pairs(g);
    assert Flatten(BestSplit(m)) == Flatten(Pairs(g)) + [m, m, m];
    LastThree(m);
  }

  lemma LastThree(m: nat)
    requires m >= 1
    ensures Files(m) == Files(m)[..2 * m - 2] + [m, m, m]
  {
    assert (2 * m - 2) / 2 == m - 1 && (2 * m - 1) / 2 == m - 1;
    assert Duration(m, 2 * m - 2) == m && Duration(m, 2 * m - 1) == m && Duration(m, 2 * m) == m;
  }

  lemma SmallSums(dur: nat -> nat, a: nat, b: nat, c: nat)
    requires forall d :: dur(d) == d
    ensures SumBy(dur, [a, b]) == a + b && SumBy(dur, [a, b, c]) == a + b + c
  {
    assert [a, b, c][..2] == [a, b] && [a, b][..1] == [a] && [a][..0] == [];
    assert SumBy(dur, [a]) == a;
  }

  lemma Opposite(m: nat, i: nat)
    requires i < m
    ensures Duration(m, i) + Duration(m, 2 * m - 1 - i) == 3 * m - 1
    ensures i <= m - 2 ==> Duration(m, i) + Duration(m, 2 * m - 3 - i) == 3 * m
  {
    assert i / 2 + (2 * m - 1 - i) / 2 == m - 1;
    assert i <= m - 2 ==> i / 2 + (2 * m - 3 - i) / 2 == m - 2;
  }

  lemma BestLoad(dur: nat -> nat, m: nat)
    requires (forall d :: dur(d) == d) && m >= 1
    ensures Makespan(dur, BestSplit(m)) == 3 * m
  {
    var split, g := BestSplit(m), Files(m)[..2 * m - 2];
    forall k | 0 <= k < |g| ensures g[k] + g[|g| - 1 - k] == 3 * m {
      Opposite(m, if k < m - 1 then k else 2 * m - 3 - k);
    }
    forall i | 0 <= i < m ensures Total(dur, split, i) == 3 * m {
      if i < m - 1 {
        PairsWeigh(dur, g, 3 * m, i);
      } else {
        SmallSums(dur, m, m, m);
      }
    }
    MakespanIsMax(dur, split);
  }

  /** For every number of shards there are files on which the heaviest shard is exactly
      4/3 - 1/(3m) times that of another split. */
  lemma LptTight(dur: nat -> nat, m: nat)
    requires (forall d :: dur(d) == d) && m >= 1
    ensures |BestSplit(m)| == m && multiset(Flatten(BestSplit(m))) == multiset(Files(m))
    ensures Makespan(dur, BestSplit(m)) == 3 * m
    ensures Makespan(dur, Greedy(dur, SortDesc(dur, Files(m)), m)) == 4 * m - 1
    ensures 3 * m * Makespan(dur, Greedy(dur, SortDesc(dur, Files(m)), m)) == (4 * m - 1) * Makespan(dur, BestSplit(m))
  {
    BestSplitsFiles(m);
    BestLoad(dur, m);
    SortedStays(dur, Files(m));
    GreedyLoad(dur, m);
  }
}
