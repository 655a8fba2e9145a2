// Building a store by a sequence of writes: each item goes to a place that depends on the
// store so far. What is read at a place in the end is the last item put there.

module Writes {
  import opened Common

  datatype Store<!S, !X, !P, !V> = Store(
    start: S,
    step: (S, X) -> S,
    place: (S, X) -> Option<P>,
    read: (S, P) -> Option<V>,
    value: X -> V,
    shared: P -> bool)

  /** A write is read back at its place, and changes no other. */
  ghost predicate WritesOnePlace<S(!new), X(!new), P(!new), V>(st: Store<S, X, P, V>) {
    forall s, x, p :: st.read(st.step(s, x), p) == if st.place(s, x) == Some(p) then Some(st.value(x)) else st.read(s, p)
  }

  /** Only shared places are written twice. */
  ghost predicate SharesOnly<S(!new), X(!new), P(!new), V>(st: Store<S, X, P, V>) {
    forall s, x, p :: st.place(s, x) == Some(p) && st.read(s, p).Some? ==> st.shared(p)
  }

  ghost predicate StartsEmpty<S, X, P(!new), V>(st: Store<S, X, P, V>) {
    forall p :: st.read(st.start, p) == None
  }

  ghost predicate Lawful<S(!new), X(!new), P(!new), V>(st: Store<S, X, P, V>) {
    WritesOnePlace(st) && SharesOnly(st) && StartsEmpty(st)
  }

  function Run<S, X, P, V>(st: Store<S, X, P, V>, xs: seq<X>): S {
    if xs == [] then st.start else st.step(Run(st, xs[..|xs| - 1]), xs[|xs| - 1])
  }

  /** Where the i-th item is put. */
  function PlaceAt<S, X, P, V>(st: Store<S, X, P, V>, xs: seq<X>, i: nat): Option<P>
    requires i < |xs|
  {
    st.place(Run(st, xs[..i]), xs[i])
  }

  /** The i-th item is the last one put at the place. */
  ghost predicate LastAt<S, X, P, V>(st: Store<S, X, P, V>, xs: seq<X>, p: P, i: int) {
    0 <= i < |xs| && PlaceAt(st, xs, i) == Some(p) && forall j :: i < j < |xs| ==> PlaceAt(st, xs, j) != Some(p)
  }

  lemma PlaceInPrefix<S, X, P, V>(st: Store<S, X, P, V>, xs: seq<X>, n: nat, i: nat)
    requires i < n <= |xs|
    ensures PlaceAt(st, xs[..n], i) == PlaceAt(st, xs, i)
  {
    assert xs[..n][..i] == xs[..i];
  }

  lemma {:induction false} ReadsLast<S(!new), X(!new), P(!new), V>(st: Store<S, X, P, V>, xs: seq<X>, p: P) returns (i: int)
    requires Lawful(st)
    ensures i == -1 ==> st.read(Run(st, xs), p) == None && forall j :: 0 <= j < |xs| ==> PlaceAt(st, xs, j) != Some(p)
    ensures i != -1 ==> LastAt(st, xs, p, i) && st.read(Run(st, xs), p) == Some(st.value(xs[i]))
  {
    if xs == [] {
      i := -1;
    } else {
      var n := |xs| - 1;
      forall j | 0 <= j < n ensures PlaceAt(st, xs[..n], j) == PlaceAt(st, xs, j) {
        PlaceInPrefix(st, xs, n, j);
      }
      i := ReadsLast(st, xs[..n], p);
      if PlaceAt(st, xs, n) == Some(p) {
        i := n;
      }
    }
  }

  /** Items put at the same place share it. */
  lemma PutTwice<S(!new), X(!new), P(!new), V>(st: Store<S, X, P, V>, xs: seq<X>, i: nat, j: nat, p: P)
    requires Lawful(st) && i < j < |xs| && PlaceAt(st, xs, i) == PlaceAt(st, xs, j) == Some(p)
    ensures st.shared(p)
  {
    PlaceInPrefix(st, xs, j, i);
    var k := ReadsLast(st, xs[..j], p);
  }
}
