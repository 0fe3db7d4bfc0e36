/** The one canonical order of a signature list, and what putting a list into it can cost. */
module SignatureOrder {
  import opened Prelude
  import opened Events
  import opened Identity
  import opened Sorting

  /** Strictly ascending indices. */
  predicate IsCanonical(sigs: seq<IndexedSig>) {
    forall i :: 0 <= i < |sigs| - 1 ==> sigs[i].index < sigs[i + 1].index
  }

  predicate ByIndex(a: IndexedSig, b: IndexedSig) { a.index <= b.index }

  /** Of each run of equal indices, the first element. */
  function Dedup(sigs: seq<IndexedSig>): seq<IndexedSig> {
    if sigs == [] then [] else
      var kept := Dedup(sigs[..|sigs| - 1]);
      var last := sigs[|sigs| - 1];
      if kept != [] && kept[|kept| - 1].index == last.index then kept else kept + [last]
  }

  function Canonicalize(sigs: seq<IndexedSig>): seq<IndexedSig> { Dedup(Sort(ByIndex, sigs)) }

  /** The earliest signature at an index. */
  function First(sigs: seq<IndexedSig>, index: nat): Option<IndexedSig> {
    if sigs == [] then None else
      var earlier := First(sigs[..|sigs| - 1], index);
      if earlier.Some? then earlier
      else if sigs[|sigs| - 1].index == index then Some(sigs[|sigs| - 1]) else None
  }

  lemma FirstSnoc(sigs: seq<IndexedSig>, x: IndexedSig, index: nat)
    ensures First(sigs + [x], index) ==
      if First(sigs, index).Some? then First(sigs, index) else if x.index == index then Some(x) else None
  {
  }

  /** Inserting into a sorted list never displaces what was there first. */
  lemma {:induction false} InsertKeepsFirst(x: IndexedSig, xs: seq<IndexedSig>, index: nat)
    requires Sorted(ByIndex, xs)
    ensures First(Insert(ByIndex, x, xs), index) ==
      if First(xs, index).Some? then First(xs, index) else if x.index == index then Some(x) else None
  {
    if xs == [] || ByIndex(xs[|xs| - 1], x) {
      FirstSnoc(xs, x, index);
    } else {
      var front, last := xs[..|xs| - 1], xs[|xs| - 1];
      InsertKeepsFirst(x, front, index);
      FirstSnoc(Insert(ByIndex, x, front), last, index);
      DropLast(xs);
    }
  }

  lemma ByIndexTotal()
    ensures TotalPreorder(ByIndex)
  {
  }

  lemma {:induction false} SortKeepsFirst(sigs: seq<IndexedSig>, index: nat)
    ensures First(Sort(ByIndex, sigs), index) == First(sigs, index)
  {
    if sigs != [] {
      var front := sigs[..|sigs| - 1];
      SortKeepsFirst(sigs[..|sigs| - 1], index);
      ByIndexTotal();
      SortSorts(ByIndex, front);
      InsertKeepsFirst(sigs[|sigs| - 1], Sort(ByIndex, front), index);
    }
  }

  lemma CanonicalSnoc(sigs: seq<IndexedSig>, x: IndexedSig)
    requires IsCanonical(sigs) && (sigs != [] ==> sigs[|sigs| - 1].index < x.index)
    ensures IsCanonical(sigs + [x])
  {
  }

  /** On a sorted list, what remains ascends strictly up to the same last index. */
  lemma {:induction false} DedupAscends(sigs: seq<IndexedSig>)
    requires Sorted(ByIndex, sigs)
    ensures IsCanonical(Dedup(sigs)) && (Dedup(sigs) == [] <==> sigs == [])
    ensures sigs != [] ==> Dedup(sigs)[|Dedup(sigs)| - 1].index == sigs[|sigs| - 1].index
  {
    if sigs != [] {
      var front, last := sigs[..|sigs| - 1], sigs[|sigs| - 1];
      DedupAscends(front);
      var kept := Dedup(front);
      if kept == [] || kept[|kept| - 1].index != last.index {
        if kept != [] { assert ByIndex(sigs[|sigs| - 2], last); }
        CanonicalSnoc(kept, last);
      }
    }
  }

  /** And it holds the same first signatures. */
  lemma {:induction false} DedupKeepsFirst(sigs: seq<IndexedSig>, index: nat)
    ensures First(Dedup(sigs), index) == First(sigs, index)
  {
    if sigs != [] {
      var front, last := sigs[..|sigs| - 1], sigs[|sigs| - 1];
      DedupKeepsFirst(front, index);
      var kept := Dedup(front);
      if kept != [] && kept[|kept| - 1].index == last.index {
        FirstHere(kept, |kept| - 1);
      } else {
        FirstSnoc(kept, last, index);
      }
    }
  }

  lemma {:induction false} FirstHere(sigs: seq<IndexedSig>, i: nat)
    requires i < |sigs|
    ensures First(sigs, sigs[i].index).Some?
  {
    if i < |sigs| - 1 { FirstHere(sigs[..|sigs| - 1], i); }
  }

  lemma {:induction false} FirstIsMember(sigs: seq<IndexedSig>, index: nat)
    ensures First(sigs, index).Some? ==> First(sigs, index).value in sigs && First(sigs, index).value.index == index
  {
    if sigs != [] { FirstIsMember(sigs[..|sigs| - 1], index); }
  }

  /** Canonicalizing gives a canonical list with exactly the first signature of every index. */
  lemma CanonicalizeMeaning(sigs: seq<IndexedSig>, index: nat)
    ensures IsCanonical(Canonicalize(sigs)) && First(Canonicalize(sigs), index) == First(sigs, index)
  {
    ByIndexTotal();
    SortSorts(ByIndex, sigs);
    SortKeepsFirst(sigs, index);
    DedupAscends(Sort(ByIndex, sigs));
    DedupKeepsFirst(Sort(ByIndex, sigs), index);
  }

  lemma {:induction false} CanonicalOrder(sigs: seq<IndexedSig>, i: nat, j: nat)
    requires IsCanonical(sigs) && i < j < |sigs|
    ensures sigs[i].index < sigs[j].index
  {
    if i < j - 1 { CanonicalOrder(sigs, i, j - 1); }
  }

  /** In a canonical list every signature is the first of its index. */
  lemma FirstOfCanonical(sigs: seq<IndexedSig>, s: IndexedSig)
    requires IsCanonical(sigs)
    ensures s in sigs <==> First(sigs, s.index) == Some(s)
  {
    FirstIsMember(sigs, s.index);
    if s in sigs {
      MemberHasFirst(sigs, s);
      OnePerIndex(sigs, s, First(sigs, s.index).value);
    }
  }

  lemma OnePerIndex(sigs: seq<IndexedSig>, s: IndexedSig, t: IndexedSig)
    requires IsCanonical(sigs) && s in sigs && t in sigs && s.index == t.index
    ensures s == t
  {
    var i :| 0 <= i < |sigs| && sigs[i] == s;
    var j :| 0 <= j < |sigs| && sigs[j] == t;
    if i < j { CanonicalOrder(sigs, i, j); }
    if j < i { CanonicalOrder(sigs, j, i); }
  }

  lemma {:induction false} SortFixed(sigs: seq<IndexedSig>)
    requires IsCanonical(sigs)
    ensures Sort(ByIndex, sigs) == sigs && Dedup(sigs) == sigs
  {
    if sigs != [] {
      SortFixed(sigs[..|sigs| - 1]);
      DropLast(sigs);
    }
  }

  /** Exactly the canonical lists are left as they are. */
  lemma CanonicalizeFixesExactlyCanonical(sigs: seq<IndexedSig>)
    ensures Canonicalize(sigs) == sigs <==> IsCanonical(sigs)
  {
    if IsCanonical(sigs) { SortFixed(sigs); }
    CanonicalizeMeaning(sigs, 0);
  }

  /* ---- what it does to a signing threshold ---- */

  /** Wherever an index has a valid signature at all, its first signature is valid. */
  ghost predicate FirstDecides(p: Primitives, msg: Bytes, keys: seq<VerifyingKey>, sigs: seq<IndexedSig>) {
    forall s :: s in sigs && SignedBy(p, msg, keys, s) ==>
      First(sigs, s.index).Some? && SignedBy(p, msg, keys, First(sigs, s.index).value)
  }

  lemma MemberHasFirst(sigs: seq<IndexedSig>, s: IndexedSig)
    requires s in sigs
    ensures First(sigs, s.index).Some? && First(sigs, s.index).value in sigs
      && First(sigs, s.index).value.index == s.index
  {
    var i :| 0 <= i < |sigs| && sigs[i] == s;
    FirstHere(sigs, i);
    FirstIsMember(sigs, s.index);
  }

  lemma CanonicalMembers(sigs: seq<IndexedSig>, s: IndexedSig)
    ensures s in Canonicalize(sigs) <==> First(sigs, s.index) == Some(s)
  {
    CanonicalizeMeaning(sigs, s.index);
    FirstOfCanonical(Canonicalize(sigs), s);
  }

  /** A forged signature in front of a genuine one for the same key hides the signer. */
  lemma ForgedFirstHidesSigner(p: Primitives, msg: Bytes, keys: seq<VerifyingKey>, bad: IndexedSig, good: IndexedSig)
    requires bad.index == good.index && !SignedBy(p, msg, keys, bad) && SignedBy(p, msg, keys, good)
    ensures Signers(p, msg, keys, [bad, good]) == {keys[good.index]}
    ensures Signers(p, msg, keys, Canonicalize([bad, good])) == {}
  {
    var sigs := [bad, good];
    assert good in sigs;
    forall s | s in Canonicalize(sigs) ensures s == bad {
      CanonicalMembers(sigs, s);
      FirstSnoc([], bad, s.index);
      FirstSnoc([bad], good, s.index);
    }
  }

  /**
   Dropping repeats keeps the first signature of an index, valid or not. The set of keys that count
   as signers therefore survives canonicalization if and only if those first signatures decide.
   */
  lemma SignersSurviveIffFirstDecides(p: Primitives, msg: Bytes, keys: seq<VerifyingKey>, sigs: seq<IndexedSig>)
    requires NoDup(keys)
    ensures Signers(p, msg, keys, Canonicalize(sigs)) <= Signers(p, msg, keys, sigs)
    ensures Signers(p, msg, keys, Canonicalize(sigs)) == Signers(p, msg, keys, sigs)
      <==> FirstDecides(p, msg, keys, sigs)
  {
    var kept := Canonicalize(sigs);
    forall s | s in kept ensures s in sigs {
      CanonicalMembers(sigs, s);
      FirstIsMember(sigs, s.index);
    }
    if FirstDecides(p, msg, keys, sigs) {
      forall v | v in Signers(p, msg, keys, sigs) ensures v in Signers(p, msg, keys, kept) {
        var s :| s in sigs && SignedBy(p, msg, keys, s) && keys[s.index] == v;
        MemberHasFirst(sigs, s);
        var f := First(sigs, s.index).value;
        CanonicalMembers(sigs, f);
        assert f in kept && SignedBy(p, msg, keys, f) && keys[f.index] == v;
      }
    }
    if Signers(p, msg, keys, kept) == Signers(p, msg, keys, sigs) {
      forall s | s in sigs && SignedBy(p, msg, keys, s)
        ensures First(sigs, s.index).Some? && SignedBy(p, msg, keys, First(sigs, s.index).value)
      {
        MemberHasFirst(sigs, s);
        assert keys[s.index] in Signers(p, msg, keys, sigs);
        var t :| t in kept && SignedBy(p, msg, keys, t) && keys[t.index] == keys[s.index];
        CanonicalMembers(sigs, t);
      }
    }
  }
}
