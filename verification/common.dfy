// Small vocabulary shared by the models: optional values, results, and a few
// facts about sequences that several of them need.

module Common {

  datatype Option<+T> = None | Some(value: T)

  datatype Result<+T, +E> = Ok(value: T) | Err(error: E)

  /** A version range that is replaced by the version of a sibling package when it is published. */
  predicate IsWorkspaceRange(range: string) {
    "workspace:" <= range
  }

  ghost predicate Distinct<T(!new)>(s: seq<T>) {
    forall i, j :: 0 <= i < j < |s| ==> s[i] != s[j]
  }

  function Flatten<T>(lists: seq<seq<T>>): seq<T> {
    if lists == [] then [] else Flatten(lists[..|lists|-1]) + lists[|lists|-1]
  }

  function SumBy<T(!new)>(f: T -> nat, s: seq<T>): nat {
    if s == [] then 0 else SumBy(f, s[..|s|-1]) + f(s[|s|-1])
  }

  lemma {:induction false} SumByAppend<T(!new)>(f: T -> nat, a: seq<T>, b: seq<T>)
    ensures SumBy(f, a + b) == SumBy(f, a) + SumBy(f, b)
  {
    if b == [] {
      assert a + b == a;
    } else {
      assert (a + b)[..|a + b| - 1] == a + b[..|b| - 1];
      SumByAppend(f, a, b[..|b| - 1]);
    }
  }

  lemma {:induction false} SumByMember<T(!new)>(f: T -> nat, s: seq<T>, x: T)
    requires x in s
    ensures f(x) <= SumBy(f, s)
  {
    var init := s[..|s| - 1];
    assert s == init + [s[|s| - 1]];
    if x in init {
      SumByMember(f, init, x);
    }
  }

  lemma SumByOneMore<T(!new)>(f: T -> nat, front: seq<T>, x: T, back: seq<T>)
    ensures SumBy(f, front + [x] + back) == SumBy(f, front + back) + f(x)
  {
    SumByAppend(f, front, back);
    SumByAppend(f, front + [x], back);
    assert (front + [x])[..|front|] == front;
  }

  lemma {:induction false} SumByPermutation<T(!new)>(f: T -> nat, a: seq<T>, b: seq<T>)
    requires multiset(a) == multiset(b)
    ensures SumBy(f, a) == SumBy(f, b)
    decreases |a|
  {
    if a == [] {
      assert |multiset(b)| == 0;
    } else {
      var init, x := a[..|a| - 1], a[|a| - 1];
      assert a == init + [x];
      assert x in multiset(b);
      var j :| 0 <= j < |b| && b[j] == x;
      var front, back := b[..j], b[j + 1..];
      assert b == front + [x] + back;
      SumByOneMore(f, front, x, back);
      SameRest(multiset(init), multiset(front + back), x);
      SumByPermutation(f, init, front + back);
    }
  }

  lemma SameRest<T>(a: multiset<T>, b: multiset<T>, x: T)
    requires a + multiset{x} == b + multiset{x}
    ensures a == b
  {
    assert a == a + multiset{x} - multiset{x} && b == b + multiset{x} - multiset{x};
  }

  lemma {:induction false} SumByUpdate<T(!new)>(f: T -> nat, s: seq<T>, i: nat, x: T)
    requires i < |s|
    ensures SumBy(f, s[i := x]) + f(s[i]) == SumBy(f, s) + f(x)
  {
    var init := s[..|s| - 1];
    if i == |s| - 1 {
      assert s[i := x][..|s| - 1] == init;
    } else {
      SumByUpdate(f, init, i, x);
      assert s[i := x][..|s| - 1] == init[i := x];
    }
  }

  lemma {:induction false} FlattenUpdate<T>(lists: seq<seq<T>>, k: nat, x: T)
    requires k < |lists|
    ensures multiset(Flatten(lists[k := lists[k] + [x]])) == multiset(Flatten(lists)) + multiset{x}
  {
    var init, last := lists[..|lists| - 1], lists[|lists| - 1];
    var updated := lists[k := lists[k] + [x]];
    if k == |lists| - 1 {
      assert updated[..|lists| - 1] == init;
    } else {
      FlattenUpdate(init, k, x);
      assert updated[..|lists| - 1] == init[k := init[k] + [x]];
    }
  }

  lemma {:induction false} FlattenMember<T>(lists: seq<seq<T>>, x: T)
    ensures x in Flatten(lists) <==> exists i :: 0 <= i < |lists| && x in lists[i]
  {
    if lists == [] {
    } else {
      var init := lists[..|lists| - 1];
      FlattenMember(init, x);
      if x in Flatten(init) {
        var i :| 0 <= i < |init| && x in init[i];
        assert x in lists[i];
      }
      if i :| 0 <= i < |lists| && x in lists[i] {
        assert i < |init| ==> x in init[i];
      }
    }
  }

  lemma {:induction false} FlattenFirst<T>(lists: seq<seq<T>>)
    requires lists != []
    ensures Flatten(lists) == lists[0] + Flatten(lists[1..])
  {
    var init, rest := lists[..|lists| - 1], lists[1..];
    if init == [] {
      assert Flatten(init) == [] && Flatten(rest) == [];
    } else {
      FlattenFirst(init);
      assert init[1..] == rest[..|rest| - 1];
    }
  }

  // ---------------------------------------------------------------- picking from a sequence

  /** `part` holds, in order, what `f` makes of exactly those elements of `whole` that `keep`
      holds of: the i-th comes from the place `at[i]`. */
  ghost predicate Picks<A(!new), B(!new)>(at: seq<nat>, part: seq<B>, whole: seq<A>, keep: A -> bool, f: A -> B) {
    && |at| == |part|
    && (forall i, j :: 0 <= i < j < |at| ==> at[i] < at[j])
    && (forall i :: 0 <= i < |at| ==> at[i] < |whole| && keep(whole[at[i]]) && part[i] == f(whole[at[i]]))
    && (forall a: nat :: a < |whole| && keep(whole[a]) ==> a in at)
  }

  ghost predicate PickedFrom<A(!new), B(!new)>(part: seq<B>, whole: seq<A>, keep: A -> bool, f: A -> B) {
    exists at: seq<nat> :: Picks(at, part, whole, keep, f)
  }

  lemma PickNone<A(!new), B(!new)>(keep: A -> bool, f: A -> B)
    ensures PickedFrom([], [], keep, f)
  {
    assert Picks([], [], [], keep, f);
  }

  lemma PickNext<A(!new), B(!new)>(part: seq<B>, whole: seq<A>, x: A, keep: A -> bool, f: A -> B)
    requires PickedFrom(part, whole, keep, f)
    ensures PickedFrom(part + (if keep(x) then [f(x)] else []), whole + [x], keep, f)
  {
    var at: seq<nat> :| Picks(at, part, whole, keep, f);
    if keep(x) {
      PickOne(at, part, whole, x, keep, f);
    } else {
      assert part + [] == part;
      forall a: nat | a < |whole + [x]| && keep((whole + [x])[a]) ensures a in at {
        assert a != |whole|;
      }
      assert Picks(at, part, whole + [x], keep, f);
    }
  }

  lemma PickOne<A(!new), B(!new)>(at: seq<nat>, part: seq<B>, whole: seq<A>, x: A, keep: A -> bool, f: A -> B)
    requires Picks(at, part, whole, keep, f) && keep(x)
    ensures PickedFrom(part + [f(x)], whole + [x], keep, f)
  {
    var more := at + [|whole|];
    forall a: nat | a < |whole + [x]| && keep((whole + [x])[a]) ensures a in more {
      if a < |whole| {
        assert a in at;
      } else {
        assert more[|at|] == a;
      }
    }
    assert Picks(more, part + [f(x)], whole + [x], keep, f);
  }

  lemma SliceOfSlice<T>(b: seq<T>, at: nat, m: nat, k: nat, n: nat)
    requires at + m <= |b| && k + n <= m
    ensures b[at..at + m][k..k + n] == b[at + k..at + k + n]
  {
    var l, r := b[at..at + m][k..k + n], b[at + k..at + k + n];
    forall i | 0 <= i < n ensures l[i] == r[i] {
      assert l[i] == b[at..at + m][k + i];
    }
  }

  lemma HeadAndTail<T>(s: seq<T>)
    requires s != []
    ensures [s[0]] + s[1..] == s
  {
  }
}
