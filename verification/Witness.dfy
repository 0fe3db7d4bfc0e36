/** Witness policies, the statements witnesses sign, and threshold certificates. */
module Witnesses {
  import opened Prelude
  import opened Codec
  import opened Events
  import opened Identity
  import opened KeyEventLog

  const MAX_WITNESSES := 64

  /** Witness identifiers are DIDs. */
  datatype WitnessPolicy = WitnessPolicy(generation: nat, witnesses: seq<Bytes>, threshold: nat)

  function PolicyFailure(witnesses: seq<Bytes>, threshold: nat): Option<IdentityError> {
    if witnesses == [] then Some(EmptyWitnessSet)
    else if |witnesses| > MAX_WITNESSES then Some(TooManyItems)
    else if !(1 <= threshold <= |witnesses|) then Some(InvalidWitnessThreshold)
    else if !NoDup(witnesses) then Some(DuplicateWitness)
    else None
  }

  predicate ValidPolicy(policy: WitnessPolicy) {
    PolicyFailure(policy.witnesses, policy.threshold).None?
  }

  method NewPolicy(generation: nat, witnesses: seq<Bytes>, threshold: nat) returns (r: Verdict<WitnessPolicy>)
    ensures r == match PolicyFailure(witnesses, threshold)
                 case None => Ok(WitnessPolicy(generation, witnesses, threshold))
                 case Some(e) => Err(e)
  {
    if witnesses == [] { return Err(EmptyWitnessSet); }
    if |witnesses| > MAX_WITNESSES { return Err(TooManyItems); }
    if threshold == 0 || threshold > |witnesses| { return Err(InvalidWitnessThreshold); }
    var repeated := HasRepeat(witnesses);
    if repeated { return Err(DuplicateWitness); }
    return Ok(WitnessPolicy(generation, witnesses, threshold));
  }

  /** The policy one establishment event declares; `None` retires any earlier one. */
  function PolicyOf(p: Primitives, est: Establishment, sn: nat): Option<WitnessPolicy> {
    if est.witnesses != []
       && (forall w :: w in est.witnesses ==> p.utf8(w) && IsDid(p, w))
       && est.witnessThreshold < U16_LIMIT
       && PolicyFailure(est.witnesses, est.witnessThreshold).None?
    then Some(WitnessPolicy(sn, est.witnesses, est.witnessThreshold)) else None
  }

  /** The policy of the most recent establishment event, read from the log itself. */
  function DeclaredPolicy(p: Primitives, events: seq<Event>): Option<WitnessPolicy> {
    if events == [] then None else
      var last := events[|events| - 1];
      if Establishes(last) then PolicyOf(p, last.kind.est, last.sn)
      else DeclaredPolicy(p, events[..|events| - 1])
  }

  /** Newest event first, stopping at the first establishment. */
  method FindDeclaredPolicy(p: Primitives, events: seq<Event>) returns (r: Option<WitnessPolicy>)
    ensures r == DeclaredPolicy(p, events)
  {
    var n: nat := |events|;
    assert events[..n] == events;
    while n > 0
      invariant n <= |events| && DeclaredPolicy(p, events[..n]) == DeclaredPolicy(p, events)
    {
      n := n - 1;
      assert events[..n + 1][..n] == events[..n];
      if Establishes(events[n]) { return PolicyOf(p, events[n].kind.est, events[n].sn); }
    }
    return None;
  }

  /** Distinct, well-named witnesses, at most 64 of them, with a threshold they can meet. */
  predicate DeclaresWitnesses(p: Primitives, est: Establishment) {
    && 1 <= est.witnessThreshold <= |est.witnesses| <= 64 && NoDup(est.witnesses)
    && forall i :: 0 <= i < |est.witnesses| ==> p.utf8(est.witnesses[i]) && IsDid(p, est.witnesses[i])
  }

  /** The last establishment alone decides, also when it declares nothing: an earlier policy never lingers. */
  lemma {:induction false} LastEstablishmentDecides(p: Primitives, events: seq<Event>, i: nat)
    requires i < |events| && Establishes(events[i]) && forall j :: i < j < |events| ==> !Establishes(events[j])
    ensures var est := events[i].kind.est;
      DeclaredPolicy(p, events) == if DeclaresWitnesses(p, est)
                                   then Some(WitnessPolicy(events[i].sn, est.witnesses, est.witnessThreshold))
                                   else None
  {
    var n := |events| - 1;
    if i < n {
      LastEstablishmentDecides(p, events[..n], i);
    } else {
      var ws := events[i].kind.est.witnesses;
      assert (forall w :: w in ws ==> p.utf8(w) && IsDid(p, w))
             <==> forall k :: 0 <= k < |ws| ==> p.utf8(ws[k]) && IsDid(p, ws[k]);
    }
  }

  lemma {:induction false} NothingDeclared(p: Primitives, events: seq<Event>)
    requires forall j :: 0 <= j < |events| ==> !Establishes(events[j])
    ensures DeclaredPolicy(p, events).None?
  {
    if events != [] { NothingDeclared(p, events[..|events| - 1]); }
  }

  lemma {:induction false} DeclaredPolicyIsValid(p: Primitives, events: seq<Event>)
    ensures DeclaredPolicy(p, events).Some? ==> ValidPolicy(DeclaredPolicy(p, events).value)
  {
    if events != [] { DeclaredPolicyIsValid(p, events[..|events| - 1]); }
  }

  /* ---- statements ---- */

  datatype KeyEventKind = KInception | KDelegatedInception | KRotation | KInteraction | KSeal

  function KindOf(kind: EventKind): KeyEventKind {
    match kind
    case Inception(_) => KInception
    case DelegatedInception(_, _) => KDelegatedInception
    case Rotation(_) => KRotation
    case Interaction(_) => KInteraction
    case SealEvent(_) => KSeal
  }

  function KindTag(k: KeyEventKind): byte {
    match k
    case KInception => 1
    case KDelegatedInception => 2
    case KRotation => 3
    case KInteraction => 4
    case KSeal => 5
  }

  datatype Statement = Statement(
    identity: Bytes, sequence: nat, eventDigest: Bytes, priorDigest: Option<Bytes>,
    kind: KeyEventKind, generation: nat, signer: Bytes, epoch: nat)

  const RECEIPT_V1: byte := 1

  function PutPrior(d: Option<Bytes>, rest: Bytes): Bytes {
    if d.None? then PutU8(0, rest) else PutU8(1, PutBytes(d.value, rest))
  }

  function PutStatement(s: Statement, rest: Bytes): Bytes {
    PutU8(RECEIPT_V1, PutBytes(s.identity, PutU64(s.sequence, PutBytes(s.eventDigest, PutPrior(s.priorDigest,
      PutU8(KindTag(s.kind), PutU64(s.generation, PutBytes(s.signer, PutU64(s.epoch, rest)))))))))
  }

  predicate ShortBytes(b: Bytes) { |b| < U32_LIMIT }

  /** What the fixed-width and length-prefixed fields can represent. */
  predicate StatementFits(s: Statement) {
    && ShortBytes(s.identity) && s.sequence < U64_LIMIT && ShortBytes(s.eventDigest)
    && (s.priorDigest.Some? ==> ShortBytes(s.priorDigest.value))
    && s.generation < U64_LIMIT && ShortBytes(s.signer) && s.epoch < U64_LIMIT
  }

  lemma BytesPeel(a: Bytes, x: Bytes, b: Bytes, y: Bytes)
    requires ShortBytes(a) && ShortBytes(b) && PutBytes(a, x) == PutBytes(b, y)
    ensures a == b && x == y
  {
    BytesLaws(U32_LIMIT, a, x);
    BytesLaws(U32_LIMIT, b, y);
  }

  lemma U64Peel(a: nat, x: Bytes, b: nat, y: Bytes)
    requires a < U64_LIMIT && b < U64_LIMIT && PutU64(a, x) == PutU64(b, y)
    ensures a == b && x == y
  {
    U64Laws(a, x);
    U64Laws(b, y);
  }

  lemma U8Peel(a: byte, x: Bytes, b: byte, y: Bytes)
    requires PutU8(a, x) == PutU8(b, y)
    ensures a == b && x == y
  {
    U8Laws(a, x);
    U8Laws(b, y);
  }

  lemma PriorPeel(a: Option<Bytes>, x: Bytes, b: Option<Bytes>, y: Bytes)
    requires (a.Some? ==> ShortBytes(a.value)) && (b.Some? ==> ShortBytes(b.value))
    requires PutPrior(a, x) == PutPrior(b, y)
    ensures a == b && x == y
  {
    var ax := if a.None? then x else PutBytes(a.value, x);
    var bx := if b.None? then y else PutBytes(b.value, y);
    U8Peel(if a.None? then 0 else 1, ax, if b.None? then 0 else 1, bx);
    if a.Some? && b.Some? { BytesPeel(a.value, x, b.value, y); }
  }

  /** A witness signature covers exactly one statement. */
  lemma StatementInjective(s: Statement, t: Statement, rest: Bytes)
    requires StatementFits(s) && StatementFits(t) && PutStatement(s, rest) == PutStatement(t, rest)
    ensures s == t
  {
    var s8, t8 := PutU64(s.epoch, rest), PutU64(t.epoch, rest);
    var s7, t7 := PutBytes(s.signer, s8), PutBytes(t.signer, t8);
    var s6, t6 := PutU64(s.generation, s7), PutU64(t.generation, t7);
    var s5, t5 := PutU8(KindTag(s.kind), s6), PutU8(KindTag(t.kind), t6);
    var s4, t4 := PutPrior(s.priorDigest, s5), PutPrior(t.priorDigest, t5);
    var s3, t3 := PutBytes(s.eventDigest, s4), PutBytes(t.eventDigest, t4);
    var s2, t2 := PutU64(s.sequence, s3), PutU64(t.sequence, t3);
    U8Peel(RECEIPT_V1, PutBytes(s.identity, s2), RECEIPT_V1, PutBytes(t.identity, t2));
    BytesPeel(s.identity, s2, t.identity, t2);
    U64Peel(s.sequence, s3, t.sequence, t3);
    BytesPeel(s.eventDigest, s4, t.eventDigest, t4);
    PriorPeel(s.priorDigest, s5, t.priorDigest, t5);
    U8Peel(KindTag(s.kind), s6, KindTag(t.kind), t6);
    U64Peel(s.generation, s7, t.generation, t7);
    BytesPeel(s.signer, s8, t.signer, t8);
    U64Peel(s.epoch, rest, t.epoch, rest);
  }

  datatype Receipt = Receipt(statement: Statement, signature: Signature)

  function SignStatement(p: Primitives, s: Statement, key: SigningKey): Receipt {
    Receipt(s, p.sign(key, PutStatement(s, [])))
  }

  predicate ReceiptVerifies(p: Primitives, r: Receipt, key: VerifyingKey) {
    p.checkSig(key, PutStatement(r.statement, []), r.signature)
  }

  /* ---- certificates ---- */

  datatype Certificate = Certificate(
    identity: Bytes, sequence: nat, eventDigest: Bytes, generation: nat, receipts: seq<Receipt>)

  predicate ReceiptMatches(r: Receipt, c: Certificate) {
    && r.statement.identity == c.identity && r.statement.sequence == c.sequence
    && r.statement.eventDigest == c.eventDigest && r.statement.generation == c.generation
  }

  type Resolver = Bytes -> Option<VerifyingKey>

  /** The witnesses counted by the first `n` receipts, or the first failure among them. */
  function Counted(p: Primitives, c: Certificate, policy: WitnessPolicy, resolve: Resolver, n: nat)
    : Verdict<set<Bytes>>
    requires n <= |c.receipts|
  {
    if n == 0 then Ok({}) else
      var seen :- Counted(p, c, policy, resolve, n - 1);
      var r := c.receipts[n - 1];
      var w := r.statement.signer;
      var _ :- Check(ReceiptMatches(r, c), WitnessReceiptMismatch);
      var _ :- Check(w in policy.witnesses, WitnessNotInPolicy);
      if w in seen then Ok(seen) else
        var _ :- Check(resolve(w).Some?, UnresolvedWitnessKey);
        var _ :- Check(ReceiptVerifies(p, r, resolve(w).value), Crypto);
        Ok(seen + {w})
  }

  /** The count is compared as a `u16`. */
  function VerifyCertificate(p: Primitives, c: Certificate, policy: WitnessPolicy, resolve: Resolver): Verdict<()> {
    var _ :- Check(policy.generation == c.generation, WitnessPolicyGenerationMismatch);
    var seen :- Counted(p, c, policy, resolve, |c.receipts|);
    Check(|seen| % U16_LIMIT >= policy.threshold, WitnessThresholdNotMet)
  }

  /** One receipt: match, membership, skip if already counted, resolve, verify. */
  method CheckReceipt(p: Primitives, c: Certificate, policy: WitnessPolicy, resolve: Resolver, i: nat,
                      counted: seq<Bytes>)
    returns (r: Verdict<seq<Bytes>>)
    requires i < |c.receipts| && NoDup(counted) && Counted(p, c, policy, resolve, i) == Ok(Elements(counted))
    ensures match r
      case Ok(after) => NoDup(after) && Counted(p, c, policy, resolve, i + 1) == Ok(Elements(after))
      case Err(e) => Counted(p, c, policy, resolve, i + 1) == Err(e)
  {
    var receipt := c.receipts[i];
    var w := receipt.statement.signer;
    if !ReceiptMatches(receipt, c) { return Err(WitnessReceiptMismatch); }
    if w !in policy.witnesses { return Err(WitnessNotInPolicy); }
    assert w in counted <==> w in Elements(counted);
    if w in counted { return Ok(counted); }
    var key := resolve(w);
    if key.None? { return Err(UnresolvedWitnessKey); }
    if !ReceiptVerifies(p, receipt, key.value) { return Err(Crypto); }
    assert Elements(counted + [w]) == Elements(counted) + {w};
    return Ok(counted + [w]);
  }

  method CountReceipts(p: Primitives, c: Certificate, policy: WitnessPolicy, resolve: Resolver)
    returns (r: Verdict<seq<Bytes>>)
    ensures match r
      case Ok(counted) => NoDup(counted) && Counted(p, c, policy, resolve, |c.receipts|) == Ok(Elements(counted))
      case Err(e) => Counted(p, c, policy, resolve, |c.receipts|) == Err(e)
  {
    var counted: seq<Bytes> := [];
    assert Elements(counted) == {};
    for i := 0 to |c.receipts|
      invariant NoDup(counted) && Counted(p, c, policy, resolve, i) == Ok(Elements(counted))
    {
      var checked := CheckReceipt(p, c, policy, resolve, i, counted);
      if checked.Err? {
        CountedFailsOnward(p, c, policy, resolve, i + 1, |c.receipts|);
        return checked;
      }
      counted := checked.value;
    }
    return Ok(counted);
  }

  method RunVerifyCertificate(p: Primitives, c: Certificate, policy: WitnessPolicy, resolve: Resolver)
    returns (r: Verdict<()>)
    ensures r == VerifyCertificate(p, c, policy, resolve)
  {
    if policy.generation != c.generation { return Err(WitnessPolicyGenerationMismatch); }
    var counted :- CountReceipts(p, c, policy, resolve);
    NoDupCard(counted);
    return Check(|counted| % U16_LIMIT >= policy.threshold, WitnessThresholdNotMet);
  }

  lemma {:induction false} CountedFailsOnward(p: Primitives, c: Certificate, policy: WitnessPolicy, resolve: Resolver,
                                              i: nat, n: nat)
    requires i <= n <= |c.receipts|
    ensures Counted(p, c, policy, resolve, i).Err? ==>
      Counted(p, c, policy, resolve, n) == Counted(p, c, policy, resolve, i)
  {
    if i < n { CountedFailsOnward(p, c, policy, resolve, i, n - 1); }
  }

  /** `w` put its key to a receipt saying exactly what the certificate claims. */
  ghost predicate Attested(p: Primitives, c: Certificate, resolve: Resolver, w: Bytes) {
    resolve(w).Some? && exists r :: r in c.receipts && r.statement.signer == w && ReceiptMatches(r, c)
                                    && ReceiptVerifies(p, r, resolve(w).value)
  }

  lemma {:induction false} CountedMeaning(p: Primitives, c: Certificate, policy: WitnessPolicy, resolve: Resolver,
                                          n: nat)
    requires n <= |c.receipts| && Counted(p, c, policy, resolve, n).Ok?
    ensures var seen := Counted(p, c, policy, resolve, n).value;
      seen <= Elements(policy.witnesses) && forall w :: w in seen ==> Attested(p, c, resolve, w)
  {
    if n > 0 {
      CountedMeaning(p, c, policy, resolve, n - 1);
      var r := c.receipts[n - 1];
      assert r in c.receipts;
    }
  }

  /** A verified certificate names at least `threshold` distinct members who all attested it. */
  lemma CertificateQuorum(p: Primitives, c: Certificate, policy: WitnessPolicy, resolve: Resolver)
    returns (quorum: set<Bytes>)
    requires VerifyCertificate(p, c, policy, resolve).Ok?
    ensures quorum <= Elements(policy.witnesses) && |quorum| >= policy.threshold
    ensures forall w :: w in quorum ==> Attested(p, c, resolve, w)
  {
    var n := |c.receipts|;
    quorum := Counted(p, c, policy, resolve, n).value;
    assert |quorum| >= |quorum| % U16_LIMIT;
    CountedMeaning(p, c, policy, resolve, n);
  }

  /** Two certificates under one member set share at least 2*threshold - n attesting members. */
  lemma CertificatesOverlap(p: Primitives, c: Certificate, d: Certificate,
                            pc: WitnessPolicy, pd: WitnessPolicy, resolve: Resolver) returns (both: set<Bytes>)
    requires VerifyCertificate(p, c, pc, resolve).Ok? && VerifyCertificate(p, d, pd, resolve).Ok?
    requires Elements(pc.witnesses) == Elements(pd.witnesses) && pc.threshold == pd.threshold
    ensures both <= Elements(pc.witnesses)
    ensures |both| >= 2 * pc.threshold - |Elements(pc.witnesses)|
    ensures forall w :: w in both ==> Attested(p, c, resolve, w) && Attested(p, d, resolve, w)
  {
    var qc := CertificateQuorum(p, c, pc, resolve);
    var qd := CertificateQuorum(p, d, pd, resolve);
    both := qc * qd;
    OverlapCard(qc, qd, Elements(pc.witnesses));
  }
}
