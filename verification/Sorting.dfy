/** Stable sorting by a total preorder, and why there is only one way to sort distinguishable items. */
module Sorting {
  import opened Prelude

  ghost predicate TotalPreorder<T(!new)>(leq: (T, T) -> bool) {
    && (forall x, y :: leq(x, y) || leq(y, x))
    && (forall x, y, z :: leq(x, y) && leq(y, z) ==> leq(x, z))
  }

  function Insert<T>(leq: (T, T) -> bool, x: T, xs: seq<T>): seq<T> {
    if xs == [] || leq(xs[|xs| - 1], x) then xs + [x]
    else Insert(leq, x, xs[..|xs| - 1]) + [xs[|xs| - 1]]
  }

  /** Equal items keep their order. */
  function Sort<T>(leq: (T, T) -> bool, xs: seq<T>): seq<T> {
    if xs == [] then [] else Insert(leq, xs[|xs| - 1], Sort(leq, xs[..|xs| - 1]))
  }

  predicate Sorted<T>(leq: (T, T) -> bool, xs: seq<T>) {
    forall i, j :: 0 <= i < j < |xs| ==> leq(xs[i], xs[j])
  }

  lemma DropLast<T>(xs: seq<T>)
    requires xs != []
    ensures xs == xs[..|xs| - 1] + [xs[|xs| - 1]]
    ensures multiset(xs) == multiset(xs[..|xs| - 1]) + multiset{xs[|xs| - 1]}
  {
  }

  lemma AppendSorted<T>(leq: (T, T) -> bool, xs: seq<T>, x: T)
    requires Sorted(leq, xs) && forall i :: 0 <= i < |xs| ==> leq(xs[i], x)
    ensures Sorted(leq, xs + [x])
  {
  }

  lemma {:induction false} InsertSorts<T(!new)>(leq: (T, T) -> bool, x: T, xs: seq<T>)
    requires TotalPreorder(leq) && Sorted(leq, xs)
    ensures Sorted(leq, Insert(leq, x, xs)) && multiset(Insert(leq, x, xs)) == multiset(xs) + multiset{x}
  {
    if xs != [] {
      var last := xs[|xs| - 1];
      DropLast(xs);
      if leq(last, x) {
        forall i | 0 <= i < |xs| ensures leq(xs[i], x) {
          assert i == |xs| - 1 || leq(xs[i], last);
        }
        AppendSorted(leq, xs, x);
      } else {
        var front := Insert(leq, x, xs[..|xs| - 1]);
        InsertSorts(leq, x, xs[..|xs| - 1]);
        forall i | 0 <= i < |front| ensures leq(front[i], last) {
          assert front[i] in multiset(front);
          assert front[i] == x || front[i] in multiset(xs[..|xs| - 1]);
        }
        AppendSorted(leq, front, last);
      }
    }
  }

  lemma {:induction false} SortSorts<T(!new)>(leq: (T, T) -> bool, xs: seq<T>)
    requires TotalPreorder(leq)
    ensures Sorted(leq, Sort(leq, xs)) && multiset(Sort(leq, xs)) == multiset(xs)
  {
    if xs != [] {
      var n := |xs| - 1;
      SortSorts(leq, xs[..n]);
      InsertSorts(leq, xs[n], Sort(leq, xs[..n]));
      DropLast(xs);
    }
  }

  /** The order tells these items apart. */
  ghost predicate Decides<T(!new)>(leq: (T, T) -> bool, m: multiset<T>) {
    forall x, y :: x in m && y in m && leq(x, y) && leq(y, x) ==> x == y
  }

  lemma LastAgrees<T(!new)>(leq: (T, T) -> bool, xs: seq<T>, ys: seq<T>)
    requires TotalPreorder(leq) && Sorted(leq, xs) && Sorted(leq, ys) && multiset(xs) == multiset(ys)
    requires Decides(leq, multiset(xs)) && xs != [] && ys != []
    ensures xs[|xs| - 1] == ys[|ys| - 1]
  {
    var x, y := xs[|xs| - 1], ys[|ys| - 1];
    assert x in multiset(ys) && y in multiset(xs);
    var i :| 0 <= i < |ys| && ys[i] == x;
    var j :| 0 <= j < |xs| && xs[j] == y;
    assert leq(x, x) && leq(x, y) && leq(y, x);
  }

  lemma {:induction false} SortedUnique<T(!new)>(leq: (T, T) -> bool, xs: seq<T>, ys: seq<T>)
    requires TotalPreorder(leq) && Sorted(leq, xs) && Sorted(leq, ys) && multiset(xs) == multiset(ys)
    requires Decides(leq, multiset(xs))
    ensures xs == ys
  {
    assert |xs| == |multiset(xs)| && |ys| == |multiset(ys)|;
    if xs != [] {
      LastAgrees(leq, xs, ys);
      DropLast(xs);
      DropLast(ys);
      assert multiset(xs[..|xs| - 1]) == multiset(xs) - multiset{xs[|xs| - 1]};
      SortedUnique(leq, xs[..|xs| - 1], ys[..|ys| - 1]);
    }
  }

  /** Sorting forgets the order the items came in. */
  lemma SortForgetsOrder<T(!new)>(leq: (T, T) -> bool, xs: seq<T>, ys: seq<T>)
    requires TotalPreorder(leq) && multiset(xs) == multiset(ys) && Decides(leq, multiset(xs))
    ensures Sort(leq, xs) == Sort(leq, ys)
  {
    SortSorts(leq, xs);
    SortSorts(leq, ys);
    SortedUnique(leq, Sort(leq, xs), Sort(leq, ys));
  }

  /* ---- byte strings ---- */

  /** Byte-wise comparison of identifiers: less, equal or greater. */
  function CompareBytes(a: Bytes, b: Bytes): int {
    if a == [] && b == [] then 0 else if a == [] then -1 else if b == [] then 1
    else if a[0] != b[0] then a[0] - b[0] else CompareBytes(a[1..], b[1..])
  }

  lemma {:induction false} CompareLaws(a: Bytes, b: Bytes)
    ensures CompareBytes(a, b) == 0 <==> a == b
    ensures CompareBytes(a, b) < 0 <==> CompareBytes(b, a) > 0
    ensures CompareBytes(a, b) > 0 <==> CompareBytes(b, a) < 0
  {
    if a != [] && b != [] {
      CompareLaws(a[1..], b[1..]);
      assert a == [a[0]] + a[1..] && b == [b[0]] + b[1..];
    }
  }

  lemma {:induction false} CompareTransitive(a: Bytes, b: Bytes, c: Bytes)
    requires CompareBytes(a, b) <= 0 && CompareBytes(b, c) <= 0
    ensures CompareBytes(a, c) <= 0
    ensures CompareBytes(a, b) < 0 || CompareBytes(b, c) < 0 ==> CompareBytes(a, c) < 0
  {
    if a != [] && b != [] && c != [] && a[0] == b[0] == c[0] { CompareTransitive(a[1..], b[1..], c[1..]); }
  }

  /** The first byte that differs decides. */
  lemma {:induction false} FirstDifferenceDecides(a: Bytes, b: Bytes, k: nat)
    requires k < |a| && k < |b| && a[..k] == b[..k] && a[k] != b[k]
    ensures CompareBytes(a, b) < 0 <==> a[k] < b[k]
    ensures CompareBytes(a, b) > 0 <==> a[k] > b[k]
  {
    if k > 0 {
      assert a[0] == a[..k][0] == b[..k][0] == b[0];
      assert a[1..][..k - 1] == a[..k][1..] && b[1..][..k - 1] == b[..k][1..];
      FirstDifferenceDecides(a[1..], b[1..], k - 1);
    }
  }

  /** A proper prefix comes first. */
  lemma {:induction false} PrefixComesFirst(a: Bytes, b: Bytes)
    requires a < b
    ensures CompareBytes(a, b) < 0 < CompareBytes(b, a)
  {
    if a != [] {
      assert a[0] == b[0] && a[1..] < b[1..];
      PrefixComesFirst(a[1..], b[1..]);
    }
  }
}
