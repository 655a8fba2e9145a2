// Sharding of the end-to-end test files (tools/e2e/runIndividualE2EFiles.ts):
// sort the files by estimated duration, longest first, then give each file to
// the lightest shard so far. The proofs below are Graham's bounds for that
// heuristic against every other way of splitting the files.

module Shards {
  import opened Common
  import opened Sorting

  const DEFAULT_DURATION: nat := 30

  function GetDuration(durations: map<string, nat>, file: string): nat {
    if file in durations then durations[file] else DEFAULT_DURATION
  }

  function Total<T(!new)>(dur: T -> nat, shards: seq<seq<T>>, i: nat): nat
    requires i < |shards|
  {
    SumBy(dur, shards[i])
  }

  /** The duration of the heaviest shard. */
  function Makespan<T(!new)>(dur: T -> nat, shards: seq<seq<T>>): nat {
    if shards == [] then 0
    else
      var rest := Makespan(dur, shards[..|shards| - 1]);
      var last := SumBy(dur, shards[|shards| - 1]);
      if last > rest then last else rest
  }

  /** The index of the first shard of least total among the first `n`. */
  function Lightest<T(!new)>(dur: T -> nat, shards: seq<seq<T>>, n: nat): (k: nat)
    requires 1 <= n <= |shards|
    ensures k < n
    ensures forall i :: 0 <= i < n ==> Total(dur, shards, k) <= Total(dur, shards, i)
    ensures forall i :: 0 <= i < k ==> Total(dur, shards, k) < Total(dur, shards, i)
  {
    if n == 1 then 0
    else
      var k := Lightest(dur, shards, n - 1);
      if Total(dur, shards, n - 1) < Total(dur, shards, k) then n - 1 else k
  }

  /** The shards after every file of the list went, in order, to the lightest one. */
  function Greedy<T(!new)>(dur: T -> nat, files: seq<T>, m: nat): (shards: seq<seq<T>>)
    requires m >= 1
    ensures |shards| == m
  {
    if files == [] then seq(m, _ => [])
    else
      var before := Greedy(dur, files[..|files| - 1], m);
      var k := Lightest(dur, before, m);
      before[k := before[k] + [files[|files| - 1]]]
  }

  // ---------------------------------------------------------------- sorting

  /** The order by descending duration. */
  function Longer<T(!new)>(dur: T -> nat): (T, T) -> bool {
    (a, b) => dur(a) >= dur(b)
  }

  /** The stable sort by descending duration. */
  function SortDesc<T(!new)>(dur: T -> nat, files: seq<T>): seq<T> {
    SortBy(Longer(dur), files)
  }

  ghost predicate Descending<T(!new)>(dur: T -> nat, s: seq<T>) {
    forall i, j :: 0 <= i < j < |s| ==> dur(s[i]) >= dur(s[j])
  }

  lemma SortDescSorts<T(!new)>(dur: T -> nat, files: seq<T>)
    ensures Descending(dur, SortDesc(dur, files))
    ensures multiset(SortDesc(dur, files)) == multiset(files)
  {
    SortBySorts(Longer(dur), files);
    var sorted := SortDesc(dur, files);
    forall i, j | 0 <= i < j < |sorted| ensures dur(sorted[i]) >= dur(sorted[j]) {
      assert Longer(dur)(sorted[i], sorted[j]);
    }
  }

  /** The files of equal duration, in the order of the list. */
  function OfDuration<T(!new)>(dur: T -> nat, files: seq<T>, d: nat): seq<T> {
    if files == [] then []
    else
      OfDuration(dur, files[..|files| - 1], d) +
      if dur(files[|files| - 1]) == d then [files[|files| - 1]] else []
  }

  lemma {:induction false} InsertStable<T(!new)>(dur: T -> nat, sorted: seq<T>, x: T, d: nat)
    requires Descending(dur, sorted)
    ensures OfDuration(dur, Insert(Longer(dur), sorted, x), d) == OfDuration(dur, sorted + [x], d)
  {
    assert (sorted + [x])[..|sorted|] == sorted;
    if sorted == [] || dur(sorted[|sorted| - 1]) >= dur(x) {
    } else {
      var init, last := sorted[..|sorted| - 1], sorted[|sorted| - 1];
      InsertStable(dur, init, x, d);
      assert (init + [x])[..|init|] == init;
      var inserted := Insert(Longer(dur), init, x);
      assert (inserted + [last])[..|inserted|] == inserted;
    }
  }

  /** Files of equal duration keep the order they had in the input. */
  lemma {:induction false} SortDescStable<T(!new)>(dur: T -> nat, files: seq<T>, d: nat)
    ensures OfDuration(dur, SortDesc(dur, files), d) == OfDuration(dur, files, d)
  {
    if files == [] {
    } else {
      var init := files[..|files| - 1];
      SortDescStable(dur, init, d);
      SortDescSorts(dur, init);
      var sorted := SortDesc(dur, init);
      InsertStable(dur, sorted, files[|files| - 1], d);
      assert (sorted + [files[|files| - 1]])[..|sorted|] == sorted;
    }
  }

  // ---------------------------------------------------------------- sums over shards

  lemma {:induction false} MakespanIsMax<T(!new)>(dur: T -> nat, shards: seq<seq<T>>)
    ensures forall i :: 0 <= i < |shards| ==> Total(dur, shards, i) <= Makespan(dur, shards)
    ensures shards != [] ==> exists i :: 0 <= i < |shards| && Total(dur, shards, i) == Makespan(dur, shards)
  {
    if shards == [] {
    } else {
      var init := shards[..|shards| - 1];
      MakespanIsMax(dur, init);
      assert forall i :: 0 <= i < |init| ==> Total(dur, shards, i) == Total(dur, init, i);
      if SumBy(dur, shards[|shards| - 1]) > Makespan(dur, init) {
        assert Total(dur, shards, |shards| - 1) == Makespan(dur, shards);
      } else if init != [] {
        var i :| 0 <= i < |init| && Total(dur, init, i) == Makespan(dur, init);
        assert Total(dur, shards, i) == Makespan(dur, shards);
      } else {
        assert Total(dur, shards, |shards| - 1) == Makespan(dur, shards);
      }
    }
  }

  lemma OneMore(n: nat, bound: nat)
    ensures (n + 1) * bound == n * bound + bound
  {
  }

  lemma {:induction false} FlattenAtMost<T(!new)>(f: T -> nat, shards: seq<seq<T>>, bound: nat)
    requires forall i :: 0 <= i < |shards| ==> SumBy(f, shards[i]) <= bound
    ensures SumBy(f, Flatten(shards)) <= |shards| * bound
  {
    if shards == [] {
    } else {
      var init := shards[..|shards| - 1];
      FlattenAtMost(f, init, bound);
      SumByAppend(f, Flatten(init), shards[|shards| - 1]);
      OneMore(|init|, bound);
    }
  }

  lemma {:induction false} FlattenAtLeast<T(!new)>(f: T -> nat, shards: seq<seq<T>>, bound: nat)
    requires forall i :: 0 <= i < |shards| ==> SumBy(f, shards[i]) >= bound
    ensures SumBy(f, Flatten(shards)) >= |shards| * bound
  {
    if shards == [] {
    } else {
      var init := shards[..|shards| - 1];
      FlattenAtLeast(f, init, bound);
      SumByAppend(f, Flatten(init), shards[|shards| - 1]);
      OneMore(|init|, bound);
    }
  }

  /** Nothing is lost and nothing is run twice: the shards partition the files. */
  lemma {:induction false} GreedyConserves<T(!new)>(dur: T -> nat, files: seq<T>, m: nat)
    requires m >= 1
    ensures multiset(Flatten(Greedy(dur, files, m))) == multiset(files)
  {
    if files == [] {
      FlattenEmpty<T>(m);
    } else {
      var init := files[..|files| - 1];
      assert files == init + [files[|files| - 1]];
      GreedyConserves(dur, init, m);
      var before := Greedy(dur, init, m);
      FlattenUpdate(before, Lightest(dur, before, m), files[|files| - 1]);
    }
  }

  lemma FlattenEmpty<T>(m: nat)
    ensures Flatten(seq<seq<T>>(m, _ => [])) == []
  {
    if m > 0 {
      var lists := seq<seq<T>>(m, _ => []);
      assert lists[..m - 1] == seq<seq<T>>(m - 1, _ => []);
      FlattenEmpty<T>(m - 1);
    }
  }

  // ---------------------------------------------------------------- the greedy step

  /** The last file that went to shard `i`: the shard was a lightest one then, and
      has not changed since. */
  lemma {:induction false} LastPlaced<T(!new)>(dur: T -> nat, files: seq<T>, m: nat, i: nat) returns (k: nat)
    requires 1 <= m && i < m && Greedy(dur, files, m)[i] != []
    ensures k < |files|
    ensures Greedy(dur, files, m)[i] == Greedy(dur, files[..k], m)[i] + [files[k]]
    ensures forall j :: 0 <= j < m ==>
      Total(dur, Greedy(dur, files[..k], m), i) <= Total(dur, Greedy(dur, files[..k], m), j)
  {
    if files == [] {
      assert false;
    } else {
      var init := files[..|files| - 1];
      var before := Greedy(dur, init, m);
      if Lightest(dur, before, m) == i {
        k := |files| - 1;
      } else {
        k := LastPlaced(dur, init, m, i);
        assert init[..k] == files[..k];
      }
    }
  }

  /** At the moment the heaviest shard of `files` received its last file, of duration
      `t`, every shard had reached `makespan - t`. */
  lemma HeaviestShard<T(!new)>(dur: T -> nat, files: seq<T>, m: nat) returns (k: nat)
    requires m >= 1 && Makespan(dur, Greedy(dur, files, m)) > 0
    ensures k < |files|
    ensures forall j :: 0 <= j < m ==>
      Makespan(dur, Greedy(dur, files, m)) <= Total(dur, Greedy(dur, files[..k], m), j) + dur(files[k])
  {
    var shards := Greedy(dur, files, m);
    MakespanIsMax(dur, shards);
    var i :| 0 <= i < m && Total(dur, shards, i) == Makespan(dur, shards);
    k := LastPlaced(dur, files, m, i);
    var at := Greedy(dur, files[..k], m)[i];
    assert (at + [files[k]])[..|at|] == at;
  }

  lemma PrefixSum<T(!new)>(f: T -> nat, files: seq<T>, k: nat)
    requires k < |files|
    ensures SumBy(f, files[..k]) + f(files[k]) <= SumBy(f, files)
  {
    assert files[..k + 1][..k] == files[..k];
    assert files == files[..k + 1] + files[k + 1..];
    SumByAppend(f, files[..k + 1], files[k + 1..]);
  }

  /** Another split of the same files: its heaviest shard is at least the average
      and at least every single file. */
  lemma OtherSplit<T(!new)>(dur: T -> nat, files: seq<T>, other: seq<seq<T>>)
    requires multiset(Flatten(other)) == multiset(files)
    ensures SumBy(dur, files) <= |other| * Makespan(dur, other)
    ensures forall x :: x in files ==> dur(x) <= Makespan(dur, other)
  {
    MakespanIsMax(dur, other);
    forall i | 0 <= i < |other| ensures SumBy(dur, other[i]) <= Makespan(dur, other) {
      assert Total(dur, other, i) <= Makespan(dur, other);
    }
    FlattenAtMost(dur, other, Makespan(dur, other));
    SumByPermutation(dur, Flatten(other), files);
    forall x | x in files ensures dur(x) <= Makespan(dur, other) {
      assert x in multiset(Flatten(other));
      FlattenMember(other, x);
      var i :| 0 <= i < |other| && x in other[i];
      SumByMember(dur, other[i], x);
    }
  }

  /** The sum of what `k` files put on the shards, when each shard carries at least `low`. */
  lemma EvenlyLoaded<T(!new)>(f: T -> nat, dur: T -> nat, files: seq<T>, m: nat, k: nat, low: nat)
    requires m >= 1 && k < |files|
    requires forall j :: 0 <= j < m ==> SumBy(f, Greedy(dur, files[..k], m)[j]) >= low
    ensures m * low + f(files[k]) <= SumBy(f, files)
  {
    var shards := Greedy(dur, files[..k], m);
    FlattenAtLeast(f, shards, low);
    GreedyConserves(dur, files[..k], m);
    SumByPermutation(f, Flatten(shards), files[..k]);
    PrefixSum(f, files, k);
  }

  /** At every moment the heaviest and the lightest shard differ by at most the
      longest file assigned so far. */
  lemma {:induction false} GreedyGap<T(!new)>(dur: T -> nat, files: seq<T>, m: nat, longest: nat)
    requires m >= 1
    requires forall x :: x in files ==> dur(x) <= longest
    ensures forall i, j :: 0 <= i < m && 0 <= j < m ==>
      Total(dur, Greedy(dur, files, m), i) <= Total(dur, Greedy(dur, files, m), j) + longest
  {
    if files == [] {
    } else {
      var init, x := files[..|files| - 1], files[|files| - 1];
      GreedyGap(dur, init, m, longest);
      var before, after := Greedy(dur, init, m), Greedy(dur, files, m);
      var k := Lightest(dur, before, m);
      assert (before[k] + [x])[..|before[k]|] == before[k];
      assert Total(dur, after, k) == Total(dur, before, k) + dur(x);
      assert forall j :: 0 <= j < m && j != k ==> Total(dur, after, j) == Total(dur, before, j);
    }
  }

  // ---------------------------------------------------------------- approximation bounds

  /** Graham's list-scheduling bound. It needs no sorting: whatever the order of the
      files, m * makespan <= (2m - 1) * (the makespan of any other split). */
  lemma {:induction false} ListSchedulingBound<T(!new)>(dur: T -> nat, files: seq<T>, m: nat, other: seq<seq<T>>)
    requires m >= 1 && |other| == m
    requires multiset(Flatten(other)) == multiset(files)
    ensures m * Makespan(dur, Greedy(dur, files, m)) <= (2 * m - 1) * Makespan(dur, other)
  {
    ListScheduling(dur, files, m, other, Makespan(dur, Greedy(dur, files, m)), Makespan(dur, other));
  }

  lemma {:induction false} ListScheduling<T(!new)>(dur: T -> nat, files: seq<T>, m: nat, other: seq<seq<T>>, c: nat, opt: nat)
    requires m >= 1 && |other| == m
    requires multiset(Flatten(other)) == multiset(files)
    requires c == Makespan(dur, Greedy(dur, files, m)) && opt == Makespan(dur, other)
    ensures m * c <= (2 * m - 1) * opt
  {
    if c > 0 {
      var k := HeaviestShard(dur, files, m);
      OtherSplit(dur, files, other);
      LastFileBound(dur, files, m, k, c, opt);
    } else {
      ListArithmetic(m, c, opt, 0);
    }
  }

  lemma LastFileBound<T(!new)>(dur: T -> nat, files: seq<T>, m: nat, k: nat, c: nat, opt: nat)
    requires m >= 1 && k < |files| && dur(files[k]) <= opt
    requires forall j :: 0 <= j < m ==> c <= Total(dur, Greedy(dur, files[..k], m), j) + dur(files[k])
    requires SumBy(dur, files) <= m * opt
    ensures m * c <= (2 * m - 1) * opt
  {
    AverageBound(dur, files, m, k, c, opt);
    ListArithmetic(m, c, opt, dur(files[k]));
  }

  lemma AverageBound<T(!new)>(dur: T -> nat, files: seq<T>, m: nat, k: nat, c: nat, opt: nat)
    requires m >= 1 && k < |files|
    requires forall j :: 0 <= j < m ==> c <= Total(dur, Greedy(dur, files[..k], m), j) + dur(files[k])
    requires SumBy(dur, files) <= m * opt
    ensures m * c <= m * opt + (m - 1) * dur(files[k])
  {
    var t := dur(files[k]);
    if c < t {
      assert m * c <= m * t == (m - 1) * t + t;
      PrefixSum(dur, files, k);
      assert t <= m * opt;
    } else {
      forall j | 0 <= j < m ensures SumBy(dur, Greedy(dur, files[..k], m)[j]) >= c - t {
        assert c <= Total(dur, Greedy(dur, files[..k], m), j) + t;
      }
      EvenlyLoaded(dur, dur, files, m, k, c - t);
      assert m * (c - t) + t <= m * opt;
      assert m * (c - t) == m * c - m * t;
      assert (m - 1) * t == m * t - t;
    }
  }

  lemma ListArithmetic(m: nat, c: nat, opt: nat, t: nat)
    requires m >= 1 && t <= opt
    requires m * c <= m * opt + (m - 1) * t
    ensures m * c <= (2 * m - 1) * opt
  {
    assert (m - 1) * t <= (m - 1) * opt;
    assert (2 * m - 1) * opt == m * opt + (m - 1) * opt;
  }

  lemma LptArithmetic(m: nat, c: nat, opt: nat, t: nat)
    requires m >= 1 && 3 * t <= opt
    requires m * c <= m * opt + (m - 1) * t
    ensures 3 * m * c <= (4 * m - 1) * opt
  {
    assert 3 * m * c == 3 * (m * c);
    assert (m - 1) * (3 * t) == 3 * ((m - 1) * t);
    assert (m - 1) * (3 * t) <= (m - 1) * opt;
    assert (4 * m - 1) * opt == 3 * (m * opt) + (m - 1) * opt;
  }

  lemma NoWorse(m: nat, c: nat, opt: nat)
    requires m >= 1 && c <= opt
    ensures 3 * m * c <= (4 * m - 1) * opt
  {
    assert 3 * m * c <= 3 * m * opt;
    assert (4 * m - 1) * opt == 3 * m * opt + (m - 1) * opt;
  }

  /** How many of two places a file takes in a shard that must stay within `opt`, when
      three files as long as `t` do not fit: both if not even one such file fits beside it. */
  function Weight(opt: nat, t: nat, d: nat): nat
    requires t <= opt
  {
    if d < t then 0 else if d > opt - t then 2 else 1
  }

  lemma {:induction false} WeightNeedsRoom<T(!new)>(dur: T -> nat, opt: nat, t: nat, weight: T -> nat, s: seq<T>)
    requires t <= opt < 3 * t
    requires forall x :: weight(x) == Weight(opt, t, dur(x))
    ensures SumBy(weight, s) == 1 ==> SumBy(dur, s) >= t
    ensures SumBy(weight, s) == 2 ==> SumBy(dur, s) > opt - t
    ensures SumBy(weight, s) >= 3 ==> SumBy(dur, s) > opt
  {
    if s == [] {
    } else {
      WeightNeedsRoom(dur, opt, t, weight, s[..|s| - 1]);
      assert weight(s[|s| - 1]) == Weight(opt, t, dur(s[|s| - 1]));
    }
  }

  lemma HeavyHasWeight<T(!new)>(dur: T -> nat, opt: nat, t: nat, weight: T -> nat, s: seq<T>)
    requires t <= opt < 3 * t
    requires forall x :: weight(x) == Weight(opt, t, dur(x))
    requires forall x :: x in s ==> dur(x) >= t
    requires SumBy(dur, s) > opt - t
    ensures SumBy(weight, s) >= 2
  {
    var init, last := s[..|s| - 1], s[|s| - 1];
    if init != [] {
      assert forall x :: x in init ==> x in s;
      var y := init[|init| - 1];
      assert y in s && last in s;
      SumByMember(weight, init, y);
    } else {
      assert SumBy(dur, init) == 0;
    }
  }

  /** Three of the last files would overfill a shard of the other split: then the greedy
      split is no worse than the other one. Counting places, the other split has at most
      two per shard, the greedy one already had two per shard before its last file. */
  lemma FewLongFiles<T(!new)>(dur: T -> nat, files: seq<T>, m: nat, k: nat, other: seq<seq<T>>)
    requires m >= 1 && |other| == m && k < |files|
    requires Descending(dur, files)
    requires multiset(Flatten(other)) == multiset(files)
    requires Makespan(dur, other) < 3 * dur(files[k])
    ensures exists j :: 0 <= j < m && Total(dur, Greedy(dur, files[..k], m), j) + dur(files[k]) <= Makespan(dur, other)
  {
    var opt, t, shards := Makespan(dur, other), dur(files[k]), Greedy(dur, files[..k], m);
    OtherSplit(dur, files, other);
    assert files[k] in files;
    var weight := (x: T) => Weight(opt, t, dur(x));
    if forall j :: 0 <= j < m ==> Total(dur, shards, j) + t > opt {
      forall j | 0 <= j < m ensures SumBy(weight, shards[j]) >= 2 {
        assert Total(dur, shards, j) + t > opt;
        GreedyKeepsLong(dur, files, m, k, j);
        HeavyHasWeight(dur, opt, t, weight, shards[j]);
      }
      EvenlyLoaded(weight, dur, files, m, k, 2);
      MakespanIsMax(dur, other);
      forall i | 0 <= i < |other| ensures SumBy(weight, other[i]) <= 2 {
        assert Total(dur, other, i) <= opt;
        WeightNeedsRoom(dur, opt, t, weight, other[i]);
      }
      FlattenAtMost(weight, other, 2);
      SumByPermutation(weight, Flatten(other), files);
      assert false;
    }
  }

  lemma GreedyKeepsLong<T(!new)>(dur: T -> nat, files: seq<T>, m: nat, k: nat, j: nat)
    requires m >= 1 && k < |files| && j < m
    requires Descending(dur, files)
    ensures forall x :: x in Greedy(dur, files[..k], m)[j] ==> dur(x) >= dur(files[k])
  {
    var shards := Greedy(dur, files[..k], m);
    GreedyConserves(dur, files[..k], m);
    forall x | x in shards[j] ensures dur(x) >= dur(files[k]) {
      FlattenMember(shards, x);
      assert x in multiset(files[..k]);
      assert x in files[..k];
    }
  }

  /** Graham's bound for the longest-processing-time order the script uses: the heaviest
      shard is at most 4/3 - 1/(3m) times the heaviest shard of any other split. */
  lemma {:induction false} LptBound<T(!new)>(dur: T -> nat, tests: seq<T>, m: nat, other: seq<seq<T>>)
    requires m >= 1 && |other| == m
    requires multiset(Flatten(other)) == multiset(tests)
    ensures 3 * m * Makespan(dur, Greedy(dur, SortDesc(dur, tests), m)) <= (4 * m - 1) * Makespan(dur, other)
  {
    SortDescSorts(dur, tests);
    LptBoundSorted(dur, SortDesc(dur, tests), m, other, Makespan(dur, other));
  }

  lemma {:induction false} LptBoundSorted<T(!new)>(dur: T -> nat, files: seq<T>, m: nat, other: seq<seq<T>>, opt: nat)
    requires m >= 1 && |other| == m && opt == Makespan(dur, other)
    requires Descending(dur, files)
    requires multiset(Flatten(other)) == multiset(files)
    ensures 3 * m * Makespan(dur, Greedy(dur, files, m)) <= (4 * m - 1) * opt
  {
    var c := Makespan(dur, Greedy(dur, files, m));
    if c == 0 {
      NoWorse(m, c, opt);
    } else {
      var k := HeaviestShard(dur, files, m);
      if 3 * dur(files[k]) <= opt {
        OtherSplit(dur, files, other);
        AverageBound(dur, files, m, k, c, opt);
        LptArithmetic(m, c, opt, dur(files[k]));
      } else {
        FewLongFiles(dur, files, m, k, other);
        var j :| 0 <= j < m && Total(dur, Greedy(dur, files[..k], m), j) + dur(files[k]) <= opt;
        assert c <= Total(dur, Greedy(dur, files[..k], m), j) + dur(files[k]);
        NoWorse(m, c, opt);
      }
    }
  }

  lemma SortedStays<T(!new)>(dur: T -> nat, files: seq<T>)
    requires Descending(dur, files)
    ensures SortDesc(dur, files) == files
  {
    OrderedStays(Longer(dur), files);
  }

  // ---------------------------------------------------------------- the script

  datatype ShardError = BadCount | BadIndex

  function DurationOf(durations: map<string, nat>): string -> nat {
    file => GetDuration(durations, file)
  }

  /** The files of each of the `m` jobs. */
  function ShardsOf(tests: seq<string>, durations: map<string, nat>, m: nat): (shards: seq<seq<string>>)
    requires m >= 1
    ensures |shards| == m
  {
    Greedy(DurationOf(durations), SortDesc(DurationOf(durations), tests), m)
  }

  /** The inner loop: the shard with the lowest total duration. */
  method LightestIndex(shardTotals: array<nat>, ghost dur: string -> nat, ghost shards: seq<seq<string>>) returns (minIdx: nat)
    requires 1 <= shardTotals.Length == |shards|
    requires forall i :: 0 <= i < |shards| ==> shardTotals[i] == Total(dur, shards, i)
    ensures minIdx == Lightest(dur, shards, |shards|)
  {
    minIdx := 0;
    for i := 1 to shardTotals.Length
      invariant minIdx == Lightest(dur, shards, i)
    {
      if shardTotals[i] < shardTotals[minIdx] {
        minIdx := i;
      }
    }
  }

  method Pack(sortedByDuration: seq<string>, getDuration: string -> nat, shardCount: nat)
    returns (shards: array<seq<string>>)
    requires shardCount >= 1
    ensures shards[..] == Greedy(getDuration, sortedByDuration, shardCount)
  {
    shards := new seq<string>[shardCount](_ => []);
    var shardTotals := new nat[shardCount](_ => 0);
    ghost var done := Greedy(getDuration, [], shardCount);
    for n := 0 to |sortedByDuration|
      invariant done == Greedy(getDuration, sortedByDuration[..n], shardCount)
      invariant forall i :: 0 <= i < shardCount ==> shards[i] == done[i]
      invariant forall i :: 0 <= i < shardCount ==> shardTotals[i] == Total(getDuration, done, i)
    {
      var file := sortedByDuration[n];
      var minIdx := LightestIndex(shardTotals, getDuration, done);
      PackStep(getDuration, sortedByDuration, n, shardCount);
      shards[minIdx] := shards[minIdx] + [file];
      shardTotals[minIdx] := shardTotals[minIdx] + getDuration(file);
      done := done[minIdx := done[minIdx] + [file]];
    }
    assert sortedByDuration[..|sortedByDuration|] == sortedByDuration;
  }

  lemma PackStep(dur: string -> nat, files: seq<string>, n: nat, m: nat)
    requires n < |files| && m >= 1
    ensures var before := Greedy(dur, files[..n], m); var k := Lightest(dur, before, m);
      && Greedy(dur, files[..n + 1], m) == before[k := before[k] + [files[n]]]
      && forall i :: 0 <= i < m ==>
        Total(dur, before[k := before[k] + [files[n]]], i) == Total(dur, before, i) + if i == k then dur(files[n]) else 0
  {
    assert files[..n + 1][..n] == files[..n];
    var before := Greedy(dur, files[..n], m);
    var shard := before[Lightest(dur, before, m)];
    assert (shard + [files[n]])[..|shard|] == shard;
  }

  // ---------------------------------------------------------------- what the jobs run

  /** The estimated duration of a file: 30 for one that is not in the table. */
  ghost predicate Estimates(d: string -> nat, durations: map<string, nat>) {
    forall f :: d(f) == if f in durations then durations[f] else 30
  }

  lemma {:induction false} SameSums<T(!new)>(f: T -> nat, g: T -> nat, s: seq<T>)
    requires forall x :: f(x) == g(x)
    ensures SumBy(f, s) == SumBy(g, s)
  {
    if s == [] {
    } else {
      SameSums(f, g, s[..|s| - 1]);
    }
  }

  lemma {:induction false} SameMakespans<T(!new)>(f: T -> nat, g: T -> nat, shards: seq<seq<T>>)
    requires forall x :: f(x) == g(x)
    ensures Makespan(f, shards) == Makespan(g, shards)
  {
    if shards == [] {
    } else {
      SameMakespans(f, g, shards[..|shards| - 1]);
      SameSums(f, g, shards[|shards| - 1]);
    }
  }

  /** No job of the given list takes longer than 4/3 - 1/(3m) times the slowest one of any other
      split of the files over m jobs. */
  ghost predicate NearOptimal(job: seq<string>, tests: seq<string>, durations: map<string, nat>, m: nat) {
    forall d: string -> nat, other: seq<seq<string>> :: Estimates(d, durations) && |other| == m && multiset(Flatten(other)) == multiset(tests) ==>
      3 * m * SumBy(d, job) <= (4 * m - 1) * Makespan(d, other)
  }

  lemma JobsNearOptimal(tests: seq<string>, durations: map<string, nat>, m: nat, k: nat)
    requires k < m
    ensures NearOptimal(ShardsOf(tests, durations, m)[k], tests, durations, m)
  {
    var dur, shards := DurationOf(durations), ShardsOf(tests, durations, m);
    forall d: string -> nat, other: seq<seq<string>> | Estimates(d, durations) && |other| == m && multiset(Flatten(other)) == multiset(tests)
      ensures 3 * m * SumBy(d, shards[k]) <= (4 * m - 1) * Makespan(d, other)
    {
      LptBound(dur, tests, m, other);
      MakespanIsMax(dur, shards);
      SameSums(dur, d, shards[k]);
      SameMakespans(dur, d, other);
      assert Total(dur, shards, k) <= Makespan(dur, shards);
      TimesAtMost(3 * m, Total(dur, shards, k), Makespan(dur, shards));
    }
  }

  lemma TimesAtMost(n: nat, a: nat, b: nat)
    requires a <= b
    ensures n * a <= n * b
  {
  }

  /** The lists of two jobs differ by at most the longest file. */
  lemma JobsAreClose(tests: seq<string>, durations: map<string, nat>, m: nat, i: nat, j: nat, d: string -> nat, longest: nat)
    requires i < m && j < m && Estimates(d, durations) && forall f :: f in tests ==> d(f) <= longest
    ensures SumBy(d, ShardsOf(tests, durations, m)[i]) <= SumBy(d, ShardsOf(tests, durations, m)[j]) + longest
  {
    var dur, shards := DurationOf(durations), ShardsOf(tests, durations, m);
    SortedMembers(dur, tests);
    GreedyGap(dur, SortDesc(dur, tests), m, longest);
    assert Total(dur, shards, i) <= Total(dur, shards, j) + longest;
    SameSums(dur, d, shards[i]);
    SameSums(dur, d, shards[j]);
  }

  lemma SortedMembers<T(!new)>(dur: T -> nat, tests: seq<T>)
    ensures forall f :: f in SortDesc(dur, tests) ==> f in tests
  {
    SortDescSorts(dur, tests);
    forall f | f in SortDesc(dur, tests) ensures f in tests {
      assert f in multiset(SortDesc(dur, tests));
    }
  }

  /** Each job runs its files from the longest to the shortest. */
  lemma JobsDescend(tests: seq<string>, durations: map<string, nat>, m: nat, k: nat, d: string -> nat)
    requires k < m && Estimates(d, durations)
    ensures Descending(d, ShardsOf(tests, durations, m)[k])
  {
    var dur := DurationOf(durations);
    SortDescSorts(dur, tests);
    ShardInOrder(dur, SortDesc(dur, tests), m, k);
  }

  /** A shard gets its files in the order of the list. */
  lemma {:induction false} ShardInOrder<T(!new)>(dur: T -> nat, files: seq<T>, m: nat, i: nat)
    requires i < m && Descending(dur, files)
    ensures Descending(dur, Greedy(dur, files, m)[i])
    ensures files != [] ==> forall x :: x in Greedy(dur, files, m)[i] ==> dur(x) >= dur(files[|files| - 1])
  {
    if files == [] {
    } else {
      var init := files[..|files| - 1];
      ShardInOrder(dur, init, m, i);
    }
  }

  /** Splits the files over the jobs and picks one. */
  method ShardAt(tests: seq<string>, durations: map<string, nat>, shardCount: nat, k: nat) returns (job: seq<string>)
    requires k < shardCount
    ensures job == ShardsOf(tests, durations, shardCount)[k]
    ensures NearOptimal(job, tests, durations, shardCount)
  {
    var shards := Pack(SortDesc(DurationOf(durations), tests), DurationOf(durations), shardCount);
    JobsNearOptimal(tests, durations, shardCount, k);
    job := shards[k];
  }

  /** The files that the job with the given settings runs. */
  method SelectTests(tests: seq<string>, shardIndex: Option<int>, shardCount: Option<int>, durations: map<string, nat>)
    returns (r: Result<seq<string>, ShardError>)
    ensures shardIndex.None? || shardCount.None? ==> r == Ok(tests)
    ensures shardIndex.Some? && shardCount.Some? && shardCount.value < 1 ==> r == Err(BadCount)
    ensures shardIndex.Some? && shardCount.Some? && shardCount.value >= 1 ==>
      r == if 1 <= shardIndex.value <= shardCount.value
           then Ok(ShardsOf(tests, durations, shardCount.value)[shardIndex.value - 1])
           else Err(BadIndex)
    ensures shardIndex.Some? && shardCount.Some? && r.Ok? ==> NearOptimal(r.value, tests, durations, shardCount.value)
  {
    if shardIndex.None? || shardCount.None? {
      return Ok(tests);
    }
    var count, index := shardCount.value, shardIndex.value;
    if !(count >= 1) {
      return Err(BadCount);
    }
    if !(index >= 1 && index <= count) {
      return Err(BadIndex);
    }
    var job := ShardAt(tests, durations, count, index - 1);
    return Ok(job);
  }

  /** The assignment depends on nothing but its inputs, so the jobs of one matrix agree on it if
      they see the files in the same order: each file that occurs once in the list is then run by
      exactly one job. */
  lemma EachFileInOneShard(tests: seq<string>, durations: map<string, nat>, m: nat, file: string)
    requires m >= 1
    ensures multiset(Flatten(ShardsOf(tests, durations, m))) == multiset(tests)
    ensures multiset(tests)[file] == 1 ==>
      exists i :: 0 <= i < m && file in ShardsOf(tests, durations, m)[i] &&
        forall j :: 0 <= j < m && j != i ==> file !in ShardsOf(tests, durations, m)[j]
  {
    var dur, shards := DurationOf(durations), ShardsOf(tests, durations, m);
    SortDescSorts(dur, tests);
    GreedyConserves(dur, SortDesc(dur, tests), m);
    if multiset(tests)[file] == 1 {
      assert file in Flatten(shards);
      FlattenMember(shards, file);
      var i :| 0 <= i < m && file in shards[i];
      forall j | 0 <= j < m && j != i ensures file !in shards[j] {
        if file in shards[j] {
          FlattenTwice(shards, i, j, file);
        }
      }
    }
  }

  lemma {:induction false} FlattenTwice<T>(lists: seq<seq<T>>, i: nat, j: nat, x: T)
    requires i < |lists| && j < |lists| && i != j && x in lists[i] && x in lists[j]
    ensures multiset(Flatten(lists))[x] >= 2
  {
    var init, last := lists[..|lists| - 1], lists[|lists| - 1];
    if i < |init| && j < |init| {
      FlattenTwice(init, i, j, x);
    } else {
      var k := if i < |init| then i else j;
      assert x in init[k];
      FlattenMember(init, x);
      assert multiset(Flatten(init))[x] >= 1 && multiset(last)[x] >= 1;
    }
  }

  // ---------------------------------------------------------------- jobs that see other orders

  /** Jobs agree on the shards if and only if they see the files of each duration in the same
      order. */
  lemma ShardsAgree(tests: seq<string>, tests': seq<string>, durations: map<string, nat>, m: nat)
    requires m >= 1
    ensures ShardsOf(tests, durations, m) == ShardsOf(tests', durations, m) <==> SameOfEach(DurationOf(durations), tests, tests')
  {
    var dur := DurationOf(durations);
    var sorted, sorted' := SortDesc(dur, tests), SortDesc(dur, tests');
    SortDescSorts(dur, tests);
    SortDescSorts(dur, tests');
    SameSorted(dur, tests, tests');
    if Greedy(dur, sorted, m) == Greedy(dur, sorted', m) {
      GreedyConserves(dur, sorted, m);
      GreedyConserves(dur, sorted', m);
      SameDurations(dur, sorted, sorted');
      GreedyInjective(dur, sorted, sorted', m);
    }
  }

  /** Sorting loses nothing but the order of files of different durations. */
  lemma SameSorted<T(!new)>(dur: T -> nat, a: seq<T>, b: seq<T>)
    ensures SortDesc(dur, a) == SortDesc(dur, b) <==> SameOfEach(dur, a, b)
  {
    forall d
      ensures OfDuration(dur, SortDesc(dur, a), d) == OfDuration(dur, a, d)
      ensures OfDuration(dur, SortDesc(dur, b), d) == OfDuration(dur, b, d)
    {
      SortDescStable(dur, a, d);
      SortDescStable(dur, b, d);
    }
    if SameOfEach(dur, a, b) {
      SortDescSorts(dur, a);
      SortDescSorts(dur, b);
      SameByDuration(dur, SortDesc(dur, a), SortDesc(dur, b));
    }
  }

  // ---------------------------------------------------------------- the files from their shards

  ghost predicate SameDurs<T(!new)>(dur: T -> nat, a: seq<T>, b: seq<T>) {
    |a| == |b| && forall i :: 0 <= i < |a| ==> dur(a[i]) == dur(b[i])
  }

  function AtLeast<T(!new)>(dur: T -> nat, d: nat): T -> nat {
    x => if dur(x) >= d then 1 else 0
  }

  lemma {:induction false} LongOnesFirst<T(!new)>(dur: T -> nat, s: seq<T>, d: nat)
    requires Descending(dur, s)
    ensures SumBy(AtLeast(dur, d), s) <= |s|
    ensures forall i :: 0 <= i < |s| ==> (dur(s[i]) >= d <==> i < SumBy(AtLeast(dur, d), s))
  {
    if s == [] {
    } else {
      LongOnesFirst(dur, s[..|s| - 1], d);
    }
  }

  lemma SameDurations<T(!new)>(dur: T -> nat, a: seq<T>, b: seq<T>)
    requires Descending(dur, a) && Descending(dur, b) && multiset(a) == multiset(b)
    ensures SameDurs(dur, a, b)
  {
    assert |multiset(a)| == |a| && |multiset(b)| == |b|;
    forall i | 0 <= i < |a| ensures dur(a[i]) == dur(b[i]) {
      SumByPermutation(AtLeast(dur, dur(a[i])), a, b);
      LongOnesFirst(dur, a, dur(a[i]));
      LongOnesFirst(dur, b, dur(a[i]));
      SumByPermutation(AtLeast(dur, dur(b[i])), a, b);
      LongOnesFirst(dur, a, dur(b[i]));
      LongOnesFirst(dur, b, dur(b[i]));
    }
  }

  ghost predicate SameTotals<T(!new)>(dur: T -> nat, a: seq<seq<T>>, b: seq<seq<T>>) {
    |a| == |b| && forall i :: 0 <= i < |a| ==> Total(dur, a, i) == Total(dur, b, i)
  }

  lemma SameLightest<T(!new)>(dur: T -> nat, a: seq<seq<T>>, b: seq<seq<T>>)
    requires SameTotals(dur, a, b) && |a| >= 1
    ensures Lightest(dur, a, |a|) == Lightest(dur, b, |a|)
  {
  }

  /** Where the files go depends on nothing but their durations. */
  lemma {:induction false} TotalsByDurations<T(!new)>(dur: T -> nat, a: seq<T>, b: seq<T>, m: nat)
    requires m >= 1 && SameDurs(dur, a, b)
    ensures SameTotals(dur, Greedy(dur, a, m), Greedy(dur, b, m))
  {
    if a == [] {
      assert b == [];
    } else {
      var n := |a| - 1;
      TotalsByDurations(dur, a[..n], b[..n], m);
      var before, before' := Greedy(dur, a[..n], m), Greedy(dur, b[..n], m);
      SameLightest(dur, before, before');
      PutTotals(dur, before, before', Lightest(dur, before, m), a[n], b[n]);
    }
  }

  lemma PutTotals<T(!new)>(dur: T -> nat, s: seq<seq<T>>, t: seq<seq<T>>, k: nat, x: T, y: T)
    requires SameTotals(dur, s, t) && k < |s| && dur(x) == dur(y)
    ensures SameTotals(dur, s[k := s[k] + [x]], t[k := t[k] + [y]])
  {
    assert Total(dur, s, k) == Total(dur, t, k);
    assert (s[k] + [x])[..|s[k]|] == s[k] && (t[k] + [y])[..|t[k]|] == t[k];
    var u, v := s[k := s[k] + [x]], t[k := t[k] + [y]];
    forall i | 0 <= i < |s| ensures Total(dur, u, i) == Total(dur, v, i) {
      assert Total(dur, s, i) == Total(dur, t, i);
    }
  }

  lemma {:induction false} GreedyInjective<T(!new)>(dur: T -> nat, a: seq<T>, b: seq<T>, m: nat)
    requires m >= 1 && SameDurs(dur, a, b) && Greedy(dur, a, m) == Greedy(dur, b, m)
    ensures a == b
  {
    if a == [] {
    } else {
      var n := |a| - 1;
      var before, before' := Greedy(dur, a[..n], m), Greedy(dur, b[..n], m);
      TotalsByDurations(dur, a[..n], b[..n], m);
      SameLightest(dur, before, before');
      SamePut(before, before', Lightest(dur, before, m), a[n], b[n]);
      GreedyInjective(dur, a[..n], b[..n], m);
      assert a == a[..n] + [a[n]] && b == b[..n] + [b[n]];
    }
  }

  lemma SamePut<T>(s: seq<seq<T>>, t: seq<seq<T>>, k: nat, x: T, y: T)
    requires k < |s| == |t| && s[k := s[k] + [x]] == t[k := t[k] + [y]]
    ensures s == t && x == y
  {
    var u := s[k := s[k] + [x]];
    assert u == t[k := t[k] + [y]];
    assert u[k] == s[k] + [x] && u[k] == t[k] + [y];
    SameWithLast(s[k], x, t[k], y);
    forall i | 0 <= i < |s| ensures s[i] == t[i] {
      assert i != k ==> u[i] == s[i] && u[i] == t[i];
    }
  }

  // ---------------------------------------------------------------- the sorted list from its parts

  /** The lists hold the same files of each duration, in the same order. */
  ghost predicate SameOfEach<T(!new)>(dur: T -> nat, a: seq<T>, b: seq<T>) {
    forall d :: OfDuration(dur, a, d) == OfDuration(dur, b, d)
  }

  /** Then they are equal if they are descending. */
  lemma {:induction false} SameByDuration<T(!new)>(dur: T -> nat, a: seq<T>, b: seq<T>)
    requires Descending(dur, a) && Descending(dur, b) && SameOfEach(dur, a, b)
    ensures a == b
  {
    if a == [] {
      SomeOfDuration(dur, b);
      assert b != [] ==> OfDuration(dur, a, dur(b[|b| - 1])) != [];
    } else {
      SameLast(dur, a, b);
      SameByDuration(dur, a[..|a| - 1], b[..|b| - 1]);
      assert a == a[..|a| - 1] + [a[|a| - 1]] && b == b[..|b| - 1] + [b[|b| - 1]];
    }
  }

  lemma SameLast<T(!new)>(dur: T -> nat, a: seq<T>, b: seq<T>)
    requires Descending(dur, a) && Descending(dur, b) && SameOfEach(dur, a, b) && a != []
    ensures b != [] && a[|a| - 1] == b[|b| - 1] && SameOfEach(dur, a[..|a| - 1], b[..|b| - 1])
  {
    SomeOfDuration(dur, a);
    SomeOfDuration(dur, b);
    var x := a[|a| - 1];
    assert OfDuration(dur, b, dur(x)) != [];
    var y := b[|b| - 1];
    LastIsShortest(dur, a, b, dur(y));
    LastIsShortest(dur, b, a, dur(x));
    LastOfDuration(dur, a, b, dur(x));
    var a', b' := a[..|a| - 1], b[..|b| - 1];
    forall d ensures OfDuration(dur, a', d) == OfDuration(dur, b', d) {
      LastOfDuration(dur, a, b, d);
    }
  }

  lemma SomeOfDuration<T(!new)>(dur: T -> nat, s: seq<T>)
    ensures s != [] ==> OfDuration(dur, s, dur(s[|s| - 1])) != []
  {
  }

  lemma {:induction false} OfDurationMembers<T(!new)>(dur: T -> nat, s: seq<T>, d: nat)
    ensures forall x :: x in OfDuration(dur, s, d) <==> x in s && dur(x) == d
  {
    if s == [] {
    } else {
      OfDurationMembers(dur, s[..|s| - 1], d);
      assert s == s[..|s| - 1] + [s[|s| - 1]];
    }
  }

  /** The last file of `a` is no longer than any duration that `b` holds. */
  lemma LastIsShortest<T(!new)>(dur: T -> nat, a: seq<T>, b: seq<T>, d: nat)
    requires Descending(dur, a) && a != [] && OfDuration(dur, a, d) == OfDuration(dur, b, d) != []
    ensures dur(a[|a| - 1]) <= d
  {
    OfDurationMembers(dur, a, d);
    var x := OfDuration(dur, a, d)[0];
    assert x in OfDuration(dur, a, d);
    var i :| 0 <= i < |a| && a[i] == x;
  }

  lemma LastOfDuration<T(!new)>(dur: T -> nat, a: seq<T>, b: seq<T>, d: nat)
    requires a != [] && b != [] && dur(a[|a| - 1]) == dur(b[|b| - 1]) && OfDuration(dur, a, d) == OfDuration(dur, b, d)
    ensures OfDuration(dur, a[..|a| - 1], d) == OfDuration(dur, b[..|b| - 1], d)
    ensures d == dur(a[|a| - 1]) ==> a[|a| - 1] == b[|b| - 1]
  {
    var init, init' := OfDuration(dur, a[..|a| - 1], d), OfDuration(dur, b[..|b| - 1], d);
    if d == dur(a[|a| - 1]) {
      SameWithLast(init, a[|a| - 1], init', b[|b| - 1]);
    } else {
      assert init + [] == init && init' + [] == init';
    }
  }

  lemma SameWithLast<T>(s: seq<T>, x: T, t: seq<T>, y: T)
    requires s + [x] == t + [y]
    ensures s == t && x == y
  {
    assert (s + [x])[..|s|] == s && (t + [y])[..|t|] == t;
    assert (s + [x])[|s|] == x && (t + [y])[|t|] == y;
  }

  /** Jobs that see two files of equal duration in different orders may both leave one out. */
  lemma OrderMatters(a: string, b: string)
    requires a != b
    ensures ShardsOf([a, b], map[], 2)[0] == [a] && ShardsOf([b, a], map[], 2)[1] == [a]
  {
    TwoFiles(a, b);
    TwoFiles(b, a);
  }

  lemma TwoFiles(a: string, b: string)
    ensures ShardsOf([a, b], map[], 2) == [[a], [b]]
  {
    var dur := DurationOf(map[]);
    assert Descending(dur, [a, b]);
    SortedStays(dur, [a, b]);
    assert [a, b][..1] == [a] && [a][..0] == [];
    GreedyOnTwo(dur, [], a, [], []);
    GreedyOnTwo(dur, [a], b, [a], []);
    assert [] + [a] == [a] && [a] + [b] == [a, b] && [] + [b] == [b];
  }

  lemma GreedyOnTwo(dur: string -> nat, files: seq<string>, x: string, first: seq<string>, second: seq<string>)
    requires Greedy(dur, files, 2) == [first, second]
    ensures Greedy(dur, files + [x], 2) ==
      if SumBy(dur, second) < SumBy(dur, first) then [first, second + [x]] else [first + [x], second]
  {
    assert (files + [x])[..|files|] == files;
    assert Total(dur, [first, second], 0) == SumBy(dur, first);
    assert Total(dur, [first, second], 1) == SumBy(dur, second);
  }
}
