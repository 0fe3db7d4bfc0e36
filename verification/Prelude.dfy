/** Bytes, results and the few sequence facts the rest of the project shares. */
module Prelude {

  type byte = x: int | 0 <= x < 256

  type Bytes = seq<byte>

  const U16_LIMIT := 0x1_0000
  const U32_LIMIT := 0x1_0000_0000
  const U64_LIMIT := 0x1_0000_0000_0000_0000

  type U64 = n: nat | n < U64_LIMIT

  type Bytes32 = b: Bytes | |b| == 32 witness seq(32, _ => 0)

  /** Longest text of an identity that any decoder accepts. */
  const MAX_DID_BYTES := 256

  /** How the durable part of a call went: a failure may come before or after the replacement took place. */
  datatype WriteOutcome = Done | FailedBefore | FailedAfter

  datatype Option<+T> = None | Some(value: T)

  /** A checked value or an error; usable with `:-`, which mirrors Rust's `?`. */
  datatype Result<+T, +E> = Ok(value: T) | Err(error: E) {
    predicate IsFailure() { Err? }

    function PropagateFailure<U>(): Result<U, E>
      requires Err?
    {
      Err(error)
    }

    function Extract(): T
      requires Ok?
    {
      value
    }
  }

  function Min(a: int, b: int): int { if a < b then a else b }

  /** No element occurs twice. */
  predicate NoDup<T(==)>(s: seq<T>) {
    forall i, j :: 0 <= i < j < |s| ==> s[i] != s[j]
  }

  /** `f` tells the members of `s` apart. */
  ghost predicate InjectiveOn<A(!new), B>(f: A -> B, s: set<A>) {
    forall a, b :: a in s && b in s && f(a) == f(b) ==> a == b
  }

  function Elements<T>(s: seq<T>): set<T> {
    set x | x in s
  }

  lemma {:induction false} NoDupCard<T>(s: seq<T>)
    requires NoDup(s)
    ensures |Elements(s)| == |s|
  {
    if s != [] {
      var init, last := s[..|s| - 1], s[|s| - 1];
      NoDupCard(init);
      assert last !in Elements(init);
      assert Elements(s) == Elements(init) + {last} by { assert s == init + [last]; }
    }
  }

  /** Permutations have the same members. */
  lemma SameMembers<T>(xs: seq<T>, ys: seq<T>)
    requires multiset(xs) == multiset(ys)
    ensures (forall x :: x in xs <==> x in ys) && Elements(xs) == Elements(ys)
  {
    forall x ensures x in xs <==> x in ys { assert x in multiset(xs) <==> x in multiset(ys); }
  }

  lemma SubsetCard<T>(a: set<T>, b: set<T>)
    requires a <= b
    ensures |a| <= |b|
  {
    assert b == a + (b - a);
  }

  /** Inclusion-exclusion: two subsets of an n-element set that are large enough must overlap. */
  lemma OverlapCard<T>(a: set<T>, b: set<T>, whole: set<T>)
    requires a <= whole && b <= whole
    ensures |a * b| >= |a| + |b| - |whole|
  {
    assert a + b == a + (b - a);
    assert b == (b - a) + a * b;
    SubsetCard(a + b, whole);
  }

  lemma AppendParts<T>(a: seq<T>, b: seq<T>)
    ensures (a + b)[..|a|] == a && (a + b)[|a|..] == b
  {
  }

  lemma TakeOneMore<T>(s: seq<T>, i: nat)
    requires i < |s|
    ensures s[..i + 1] == s[..i] + [s[i]] && s[..i + 1][..i] == s[..i]
  {
  }

  lemma SplitAround<T>(s: seq<T>, i: nat)
    requires i < |s|
    ensures s == s[..i] + ([s[i]] + s[i + 1..])
    ensures multiset(s[..i] + s[i + 1..]) == multiset(s) - multiset{s[i]}
  {
  }
}
