/** Assembling certificates, and exactly when their verification is independent of receipt order. */
module WitnessAssembly {
  import opened Prelude
  import opened Codec
  import opened Identity
  import opened KeyEventLog
  import opened Sorting
  import opened Witnesses

  predicate BySigner(a: Receipt, b: Receipt) { CompareBytes(a.statement.signer, b.statement.signer) <= 0 }

  lemma BySignerTotal()
    ensures TotalPreorder(BySigner)
  {
    forall x: Receipt, y: Receipt ensures BySigner(x, y) || BySigner(y, x) {
      CompareLaws(x.statement.signer, y.statement.signer);
    }
    forall x: Receipt, y: Receipt, z: Receipt | BySigner(x, y) && BySigner(y, z) ensures BySigner(x, z) {
      CompareTransitive(x.statement.signer, y.statement.signer, z.statement.signer);
    }
  }

  function Assemble(identity: Bytes, sequence: nat, eventDigest: Bytes, generation: nat, receipts: seq<Receipt>)
    : Verdict<Certificate>
  {
    var c := Certificate(identity, sequence, eventDigest, generation, Sort(BySigner, receipts));
    if receipts == [] then Err(EmptyWitnessSet)
    else if |receipts| > MAX_WITNESSES then Err(TooManyItems)
    else if exists i :: 0 <= i < |receipts| && !ReceiptMatches(receipts[i], c) then Err(WitnessReceiptMismatch)
    else Ok(c)
  }

  method RunAssemble(identity: Bytes, sequence: nat, eventDigest: Bytes, generation: nat, receipts: seq<Receipt>)
    returns (r: Verdict<Certificate>)
    ensures r == Assemble(identity, sequence, eventDigest, generation, receipts)
  {
    if receipts == [] { return Err(EmptyWitnessSet); }
    if |receipts| > MAX_WITNESSES { return Err(TooManyItems); }
    var c := Certificate(identity, sequence, eventDigest, generation, Sort(BySigner, receipts));
    for i := 0 to |receipts|
      invariant forall j :: 0 <= j < i ==> ReceiptMatches(receipts[j], c)
    {
      if !ReceiptMatches(receipts[i], c) { return Err(WitnessReceiptMismatch); }
    }
    return Ok(c);
  }

  /** Assembled exactly from one to 64 receipts that all say the same; none is lost, and signers ascend. */
  lemma AssembledExactly(identity: Bytes, sequence: nat, eventDigest: Bytes, generation: nat, receipts: seq<Receipt>)
    ensures var r := Assemble(identity, sequence, eventDigest, generation, receipts);
      && (r.Ok? <==>
            && 1 <= |receipts| <= 64
            && forall i :: 0 <= i < |receipts| ==>
                 var st := receipts[i].statement;
                 && st.identity == identity && st.sequence == sequence
                 && st.eventDigest == eventDigest && st.generation == generation)
      && (r.Ok? ==>
            && r.value.identity == identity && r.value.sequence == sequence
            && r.value.eventDigest == eventDigest && r.value.generation == generation
            && multiset(r.value.receipts) == multiset(receipts)
            && forall i, j :: 0 <= i < j < |r.value.receipts| ==>
                 CompareBytes(r.value.receipts[i].statement.signer, r.value.receipts[j].statement.signer) <= 0)
  {
    BySignerTotal();
    SortSorts(BySigner, receipts);
    var s := Sort(BySigner, receipts);
    forall i, j | 0 <= i < j < |s| ensures CompareBytes(s[i].statement.signer, s[j].statement.signer) <= 0 {
      assert BySigner(s[i], s[j]);
    }
  }

  /** Receipts of distinct witnesses assemble to one certificate, however they were collected. */
  lemma AssemblyForgetsOrder(identity: Bytes, sequence: nat, eventDigest: Bytes, generation: nat,
                             receipts: seq<Receipt>, shuffled: seq<Receipt>)
    requires multiset(receipts) == multiset(shuffled)
    requires forall x, y :: x in receipts && y in receipts && x.statement.signer == y.statement.signer ==> x == y
    ensures Assemble(identity, sequence, eventDigest, generation, receipts)
            == Assemble(identity, sequence, eventDigest, generation, shuffled)
  {
    assert |receipts| == |multiset(receipts)| && |shuffled| == |multiset(shuffled)|;
    SameSort(receipts, shuffled);
    SameMembers(receipts, shuffled);
    var c := Certificate(identity, sequence, eventDigest, generation, Sort(BySigner, receipts));
    if forall i :: 0 <= i < |shuffled| ==> ReceiptMatches(shuffled[i], c) { SameMatches(c, receipts, shuffled); }
    if forall i :: 0 <= i < |receipts| ==> ReceiptMatches(receipts[i], c) { SameMatches(c, shuffled, receipts); }
  }

  lemma SameSort(receipts: seq<Receipt>, shuffled: seq<Receipt>)
    requires multiset(receipts) == multiset(shuffled)
    requires forall x, y :: x in receipts && y in receipts && x.statement.signer == y.statement.signer ==> x == y
    ensures Sort(BySigner, receipts) == Sort(BySigner, shuffled)
  {
    BySignerTotal();
    forall x, y | x in multiset(receipts) && y in multiset(receipts) && BySigner(x, y) && BySigner(y, x)
      ensures x == y
    {
      CompareLaws(x.statement.signer, y.statement.signer);
    }
    SortForgetsOrder(BySigner, receipts, shuffled);
  }

  lemma SameMatches(c: Certificate, xs: seq<Receipt>, ys: seq<Receipt>)
    requires forall x :: x in xs ==> x in ys
    requires forall i :: 0 <= i < |ys| ==> ReceiptMatches(ys[i], c)
    ensures forall i :: 0 <= i < |xs| ==> ReceiptMatches(xs[i], c)
  {
    forall i | 0 <= i < |xs| ensures ReceiptMatches(xs[i], c) { assert xs[i] in ys; }
  }

  /* ---- what verification needs ---- */

  /** The receipt fits the certificate, its witness is a member with a known key, and the key signed it. */
  predicate Genuine(p: Primitives, c: Certificate, policy: WitnessPolicy, resolve: Resolver, r: Receipt) {
    && ReceiptMatches(r, c) && r.statement.signer in policy.witnesses
    && resolve(r.statement.signer).Some? && ReceiptVerifies(p, r, resolve(r.statement.signer).value)
  }

  function SignersOf(receipts: seq<Receipt>): set<Bytes> { set r | r in receipts :: r.statement.signer }

  lemma {:induction false} GenuineCount(p: Primitives, c: Certificate, policy: WitnessPolicy, resolve: Resolver, n: nat)
    requires n <= |c.receipts| && forall r :: r in c.receipts ==> Genuine(p, c, policy, resolve, r)
    ensures Counted(p, c, policy, resolve, n) == Ok(SignersOf(c.receipts[..n]))
  {
    if n > 0 {
      assert c.receipts[n - 1] in c.receipts;
      GenuineCount(p, c, policy, resolve, n - 1);
      GenuineStep(p, c, policy, resolve, n, SignersOf(c.receipts[..n - 1]));
      SignersOneMore(c.receipts, n - 1);
    } else {
      assert SignersOf(c.receipts[..0]) == {};
    }
  }

  lemma GenuineStep(p: Primitives, c: Certificate, policy: WitnessPolicy, resolve: Resolver, n: nat, seen: set<Bytes>)
    requires 0 < n <= |c.receipts| && Genuine(p, c, policy, resolve, c.receipts[n - 1])
    requires Counted(p, c, policy, resolve, n - 1) == Ok(seen)
    ensures Counted(p, c, policy, resolve, n) == Ok(seen + {c.receipts[n - 1].statement.signer})
  {
    var w := c.receipts[n - 1].statement.signer;
    if w in seen { assert seen + {w} == seen; }
  }

  lemma SignersOneMore(rs: seq<Receipt>, i: nat)
    requires i < |rs|
    ensures SignersOf(rs[..i + 1]) == SignersOf(rs[..i]) + {rs[i].statement.signer}
  {
  }

  lemma {:induction false} FewSigners(rs: seq<Receipt>, n: nat)
    requires n <= |rs|
    ensures |SignersOf(rs[..n])| <= n
  {
    if n > 0 {
      FewSigners(rs, n - 1);
      SignersOneMore(rs, n - 1);
    } else {
      assert SignersOf(rs[..0]) == {};
    }
  }

  /** Completeness: enough genuine receipts of distinct members always verify. */
  lemma GenuineVerifies(p: Primitives, c: Certificate, policy: WitnessPolicy, resolve: Resolver)
    requires policy.generation == c.generation && |c.receipts| <= MAX_WITNESSES
    requires forall r :: r in c.receipts ==> Genuine(p, c, policy, resolve, r)
    ensures VerifyCertificate(p, c, policy, resolve).Ok? <==> |SignersOf(c.receipts)| >= policy.threshold
  {
    GenuineCount(p, c, policy, resolve, |c.receipts|);
    assert c.receipts[..|c.receipts|] == c.receipts;
    FewSigners(c.receipts, |c.receipts|);
    SmallMod(|SignersOf(c.receipts)|, U16_LIMIT);
  }

  /* ---- order ---- */

  ghost predicate EveryOrderVerifies(p: Primitives, c: Certificate, policy: WitnessPolicy, resolve: Resolver) {
    forall rs: seq<Receipt> :: multiset(rs) == multiset(c.receipts) ==>
      VerifyCertificate(p, c.(receipts := rs), policy, resolve).Ok?
  }

  /** A receipt that is not genuine, put first, fails the whole certificate. */
  lemma BadFirstFails(p: Primitives, c: Certificate, policy: WitnessPolicy, resolve: Resolver, i: nat)
    requires i < |c.receipts| && !Genuine(p, c, policy, resolve, c.receipts[i])
    ensures var rs := [c.receipts[i]] + (c.receipts[..i] + c.receipts[i + 1..]);
      multiset(rs) == multiset(c.receipts) && VerifyCertificate(p, c.(receipts := rs), policy, resolve).Err?
  {
    var r := c.receipts[i];
    var rs := [r] + (c.receipts[..i] + c.receipts[i + 1..]);
    SplitAround(c.receipts, i);
    var d := c.(receipts := rs);
    assert d.receipts[0] == r;
    assert Counted(p, d, policy, resolve, 1).Err? by { assert Counted(p, d, policy, resolve, 0) == Ok({}); }
    CountedFailsOnward(p, d, policy, resolve, 1, |rs|);
  }

  /**
   Verification skips a witness it has already counted before looking at the signature, so a
   verified certificate keeps verifying in every receipt order if and only if every receipt in it
   is genuine, repeated ones included.
   */
  lemma OrderIrrelevantIffGenuine(p: Primitives, c: Certificate, policy: WitnessPolicy, resolve: Resolver)
    requires VerifyCertificate(p, c, policy, resolve).Ok? && |c.receipts| <= MAX_WITNESSES
    ensures EveryOrderVerifies(p, c, policy, resolve) <==>
      forall r :: r in c.receipts ==> Genuine(p, c, policy, resolve, r)
  {
    if forall r :: r in c.receipts ==> Genuine(p, c, policy, resolve, r) {
      GenuineVerifies(p, c, policy, resolve);
      forall rs: seq<Receipt> | multiset(rs) == multiset(c.receipts)
        ensures VerifyCertificate(p, c.(receipts := rs), policy, resolve).Ok?
      {
        ReorderedVerifies(p, c, policy, resolve, rs);
      }
    } else {
      var r :| r in c.receipts && !Genuine(p, c, policy, resolve, r);
      var i :| 0 <= i < |c.receipts| && c.receipts[i] == r;
      BadFirstFails(p, c, policy, resolve, i);
    }
  }

  lemma ReorderedVerifies(p: Primitives, c: Certificate, policy: WitnessPolicy, resolve: Resolver, rs: seq<Receipt>)
    requires VerifyCertificate(p, c, policy, resolve).Ok? && |c.receipts| <= MAX_WITNESSES
    requires forall r :: r in c.receipts ==> Genuine(p, c, policy, resolve, r)
    requires multiset(rs) == multiset(c.receipts)
    ensures VerifyCertificate(p, c.(receipts := rs), policy, resolve).Ok?
  {
    var d := c.(receipts := rs);
    SameMembers(rs, c.receipts);
    assert |rs| == |multiset(rs)| && |c.receipts| == |multiset(c.receipts)|;
    assert SignersOf(rs) == SignersOf(c.receipts);
    GenuineVerifies(p, c, policy, resolve);
    forall r | r in d.receipts ensures Genuine(p, d, policy, resolve, r) {
      assert Genuine(p, c, policy, resolve, r);
    }
    GenuineVerifies(p, d, policy, resolve);
  }

  /** Order can matter: a genuine receipt followed by a forged repeat verifies, the reverse does not. */
  lemma RepeatedReceiptOrderMatters(p: Primitives, c: Certificate, policy: WitnessPolicy, resolve: Resolver,
                                    good: Receipt, forged: Receipt)
    requires policy.generation == c.generation && policy.threshold == 1
    requires Genuine(p, c, policy, resolve, good) && ReceiptMatches(forged, c)
    requires forged.statement.signer == good.statement.signer
    requires !ReceiptVerifies(p, forged, resolve(good.statement.signer).value)
    ensures VerifyCertificate(p, c.(receipts := [good, forged]), policy, resolve).Ok?
    ensures VerifyCertificate(p, c.(receipts := [forged, good]), policy, resolve).Err?
  {
    var d, e := c.(receipts := [good, forged]), c.(receipts := [forged, good]);
    var w := good.statement.signer;
    assert Counted(p, d, policy, resolve, 0) == Ok({});
    assert Counted(p, d, policy, resolve, 1) == Ok({w}) by { assert {} + {w} == {w}; }
    assert Counted(p, d, policy, resolve, 2) == Ok({w});
    assert Counted(p, e, policy, resolve, 0) == Ok({});
    assert Counted(p, e, policy, resolve, 1) == Err(Crypto);
    assert Counted(p, e, policy, resolve, 2) == Err(Crypto);
  }
}
