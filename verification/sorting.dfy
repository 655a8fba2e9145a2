// Stable sorting, as Array.prototype.sort does it with a given comparison.

module Sorting {
  /** `leq(a, b)`: `a` may stand before `b`. */
  ghost predicate TotalPreorder<T(!new)>(leq: (T, T) -> bool) {
    && (forall a, b :: leq(a, b) || leq(b, a))
    && (forall a, b, c :: leq(a, b) && leq(b, c) ==> leq(a, c))
  }

  ghost predicate Ordered<T(!new)>(leq: (T, T) -> bool, s: seq<T>) {
    forall i, j :: 0 <= i < j < |s| ==> leq(s[i], s[j])
  }

  /** Puts `x` behind everything that may stand before it. */
  function Insert<T(!new)>(leq: (T, T) -> bool, sorted: seq<T>, x: T): seq<T> {
    if sorted == [] || leq(sorted[|sorted| - 1], x) then sorted + [x]
    else Insert(leq, sorted[..|sorted| - 1], x) + [sorted[|sorted| - 1]]
  }

  function SortBy<T(!new)>(leq: (T, T) -> bool, s: seq<T>): seq<T> {
    if s == [] then [] else Insert(leq, SortBy(leq, s[..|s| - 1]), s[|s| - 1])
  }

  lemma {:induction false} InsertKeeps<T(!new)>(leq: (T, T) -> bool, sorted: seq<T>, x: T)
    ensures multiset(Insert(leq, sorted, x)) == multiset(sorted) + multiset{x}
  {
    if sorted == [] || leq(sorted[|sorted| - 1], x) {
    } else {
      InsertKeeps(leq, sorted[..|sorted| - 1], x);
      assert sorted == sorted[..|sorted| - 1] + [sorted[|sorted| - 1]];
    }
  }

  lemma {:induction false} InsertSorts<T(!new)>(leq: (T, T) -> bool, sorted: seq<T>, x: T)
    requires TotalPreorder(leq) && Ordered(leq, sorted)
    ensures Ordered(leq, Insert(leq, sorted, x))
  {
    if sorted == [] {
    } else {
      var init, last := sorted[..|sorted| - 1], sorted[|sorted| - 1];
      if leq(last, x) {
        forall i | 0 <= i < |init| ensures leq(init[i], x) {
          assert leq(init[i], last);
        }
      } else {
        InsertSorts(leq, init, x);
        InsertKeeps(leq, init, x);
        var inserted := Insert(leq, init, x);
        forall i | 0 <= i < |inserted| ensures leq(inserted[i], last) {
          assert inserted[i] in multiset(inserted);
          assert inserted[i] == x || inserted[i] in multiset(init);
          assert inserted[i] == x || inserted[i] in init;
        }
      }
    }
  }

  lemma {:induction false} SortBySorts<T(!new)>(leq: (T, T) -> bool, s: seq<T>)
    requires TotalPreorder(leq)
    ensures Ordered(leq, SortBy(leq, s)) && multiset(SortBy(leq, s)) == multiset(s)
  {
    if s == [] {
    } else {
      var init := s[..|s| - 1];
      assert s == init + [s[|s| - 1]];
      SortBySorts(leq, init);
      InsertSorts(leq, SortBy(leq, init), s[|s| - 1]);
      InsertKeeps(leq, SortBy(leq, init), s[|s| - 1]);
    }
  }

  lemma SameMembers<T(!new)>(leq: (T, T) -> bool, s: seq<T>)
    requires TotalPreorder(leq)
    ensures forall x :: x in SortBy(leq, s) <==> x in s
  {
    SortBySorts(leq, s);
    forall x ensures x in SortBy(leq, s) <==> x in s {
      assert x in SortBy(leq, s) <==> x in multiset(SortBy(leq, s));
    }
  }

  lemma {:induction false} OrderedStays<T(!new)>(leq: (T, T) -> bool, s: seq<T>)
    requires Ordered(leq, s)
    ensures SortBy(leq, s) == s
  {
    if s == [] {
    } else {
      OrderedStays(leq, s[..|s| - 1]);
    }
  }

  // ---------------------------------------------------------------- strings

  /** The order of strings by their characters. */
  predicate AtMost(a: string, b: string) {
    a == "" || (b != "" && (a[0] < b[0] || (a[0] == b[0] && AtMost(a[1..], b[1..]))))
  }

  lemma StringsOrdered()
    ensures TotalPreorder(AtMost)
  {
    forall a, b ensures AtMost(a, b) || AtMost(b, a) {
      AtMostTotal(a, b);
    }
    forall a, b, c | AtMost(a, b) && AtMost(b, c) ensures AtMost(a, c) {
      AtMostTransitive(a, b, c);
    }
  }

  lemma {:induction false} AtMostTotal(a: string, b: string)
    ensures AtMost(a, b) || AtMost(b, a)
  {
    if a == "" || b == "" {
    } else {
      AtMostTotal(a[1..], b[1..]);
    }
  }

  lemma {:induction false} AtMostTransitive(a: string, b: string, c: string)
    requires AtMost(a, b) && AtMost(b, c)
    ensures AtMost(a, c)
  {
    if a == "" {
    } else if a[0] == b[0] == c[0] {
      AtMostTransitive(a[1..], b[1..], c[1..]);
    }
  }
}
