/** Replacing witnesses that cannot be reached: controller-signed evidence instead of their receipts. */
module WitnessRecovery {
  import opened Prelude
  import opened Codec
  import opened Events
  import opened Identity
  import opened KeyEventLog
  import opened Witnesses
  import opened WitnessJournals
  import opened WitnessRotations

  datatype RecoveryPolicy = RecoveryPolicy(minUnreachable: nat, minWaiting: nat)

  datatype Attestation = Attestation(identity: Bytes, absent: Bytes, generation: nat, first: nat, last: nat)

  /** The bytes of `did-mini/witness-unavailability/v1`. */
  const UNAVAILABILITY_DOMAIN: Bytes :=
    [100, 105, 100, 45, 109, 105, 110, 105, 47, 119, 105, 116, 110, 101, 115, 115, 45, 117, 110, 97, 118, 97, 105,
     108, 97, 98, 105, 108, 105, 116, 121, 47, 118, 49]

  function PutAttestation(a: Attestation): Bytes {
    PutBytes(UNAVAILABILITY_DOMAIN,
      PutBytes(a.identity, PutBytes(a.absent, PutU64(a.generation, PutU64(a.first, PutU64(a.last, []))))))
  }

  /** A controller's signature covers exactly one attestation. */
  lemma AttestationInjective(a: Attestation, b: Attestation)
    requires ShortBytes(a.identity) && ShortBytes(a.absent) && ShortBytes(b.identity) && ShortBytes(b.absent)
    requires a.generation < U64_LIMIT && a.first < U64_LIMIT && a.last < U64_LIMIT
    requires b.generation < U64_LIMIT && b.first < U64_LIMIT && b.last < U64_LIMIT
    requires PutAttestation(a) == PutAttestation(b)
    ensures a == b
  {
    var a4, b4 := PutU64(a.last, []), PutU64(b.last, []);
    var a3, b3 := PutU64(a.first, a4), PutU64(b.first, b4);
    var a2, b2 := PutU64(a.generation, a3), PutU64(b.generation, b3);
    var a1, b1 := PutBytes(a.absent, a2), PutBytes(b.absent, b2);
    BytesPeel(UNAVAILABILITY_DOMAIN, PutBytes(a.identity, a1), UNAVAILABILITY_DOMAIN, PutBytes(b.identity, b1));
    BytesPeel(a.identity, a1, b.identity, b1);
    BytesPeel(a.absent, a2, b.absent, b2);
    U64Peel(a.generation, a3, b.generation, b3);
    U64Peel(a.first, a4, b.first, b4);
    U64Peel(a.last, [], b.last, []);
  }

  type SignedAttestation = (Attestation, seq<IndexedSig>)

  function AttestingSequence(k: Kel): nat
    requires k.events != []
  {
    var sn := k.events[|k.events| - 1].sn;
    if sn == 0 then 0 else sn - 1
  }

  function AttestationFailure(p: Primitives, policy: RecoveryPolicy, before: WitnessPolicy, k: Kel,
                              s: SignedAttestation)
    : Option<IdentityError>
    requires k.events != []
  {
    var a := s.0;
    if a.identity != DidOf(k.scid) || a.generation != before.generation then Some(WitnessReceiptMismatch)
    else if a.absent !in before.witnesses then Some(WitnessNotInPolicy)
    else if a.last < a.first || a.last - a.first < policy.minWaiting then Some(RecoveryWaitingPeriodNotMet)
    else
      var v := VerifyMessageAt(p, k, AttestingSequence(k), PutAttestation(a), s.1);
      if v.Err? then Some(v.error) else None
  }

  function Absentees(evidence: seq<SignedAttestation>): set<Bytes> {
    set s | s in evidence :: s.0.absent
  }

  /** The failure of the first attestation that has one. */
  function FirstFailure(p: Primitives, policy: RecoveryPolicy, before: WitnessPolicy, k: Kel,
                        evidence: seq<SignedAttestation>)
    : (r: Option<IdentityError>)
    requires k.events != []
    ensures r.None? <==> forall s :: s in evidence ==> AttestationFailure(p, policy, before, k, s).None?
  {
    if evidence == [] then None else
      var f := AttestationFailure(p, policy, before, k, evidence[0]);
      if f.Some? then
        assert evidence[0] in evidence; f
      else FirstFailure(p, policy, before, k, evidence[1..])
  }

  function VerifyRecovery(p: Primitives, policy: RecoveryPolicy, before: WitnessPolicy, k: Kel,
                          evidence: seq<SignedAttestation>, readiness: Option<Certificate>,
                          resolve: Resolver): Verdict<()>
  {
    var _ :- Verify(p, k);
    var _ :- Check(IsPolicyChange(before, DeclaredPolicy(p, k.events)), NotAWitnessPolicyChange);
    var failure := FirstFailure(p, policy, before, k, evidence);
    if failure.Some? then Err(failure.value) else
      var _ :- Check(|Absentees(evidence)| >= policy.minUnreachable, InsufficientUnavailabilityEvidence);
      VerifyReadiness(p, k, readiness, resolve)
  }

  lemma {:induction false} FirstFailureSplit(p: Primitives, policy: RecoveryPolicy, before: WitnessPolicy, k: Kel,
                                             evidence: seq<SignedAttestation>, i: nat)
    requires k.events != [] && i < |evidence|
    requires FirstFailure(p, policy, before, k, evidence[..i]).None?
    requires AttestationFailure(p, policy, before, k, evidence[i]).Some?
    ensures FirstFailure(p, policy, before, k, evidence) == AttestationFailure(p, policy, before, k, evidence[i])
  {
    if i > 0 {
      assert evidence[..i][0] in evidence[..i];
      forall s | s in evidence[1..][..i - 1] ensures AttestationFailure(p, policy, before, k, s).None? {
        assert s in evidence[..i];
      }
      FirstFailureSplit(p, policy, before, k, evidence[1..], i - 1);
    }
  }

  lemma EvidenceOneMore(p: Primitives, policy: RecoveryPolicy, before: WitnessPolicy, k: Kel,
                        evidence: seq<SignedAttestation>, i: nat)
    requires k.events != [] && i < |evidence| && FirstFailure(p, policy, before, k, evidence[..i]).None?
    requires AttestationFailure(p, policy, before, k, evidence[i]).None?
    ensures FirstFailure(p, policy, before, k, evidence[..i + 1]).None?
    ensures Absentees(evidence[..i + 1]) == Absentees(evidence[..i]) + {evidence[i].0.absent}
  {
    TakeOneMore(evidence, i);
    forall s | s in evidence[..i + 1] ensures AttestationFailure(p, policy, before, k, s).None? {
      assert s in evidence[..i] || s == evidence[i];
    }
  }

  /** The verifier's own loop: one pass over the attestations, growing the set of distinct witnesses. */
  method RunVerifyRecovery(p: Primitives, policy: RecoveryPolicy, before: WitnessPolicy, k: Kel,
                           evidence: seq<SignedAttestation>, readiness: Option<Certificate>, resolve: Resolver)
    returns (r: Verdict<()>)
    ensures r == VerifyRecovery(p, policy, before, k, evidence, readiness, resolve)
  {
    var v := Verify(p, k);
    if v.Err? { return Err(v.error); }
    if !IsPolicyChange(before, DeclaredPolicy(p, k.events)) { return Err(NotAWitnessPolicyChange); }
    var distinct: set<Bytes> := {};
    for i := 0 to |evidence|
      invariant FirstFailure(p, policy, before, k, evidence[..i]).None?
      invariant distinct == Absentees(evidence[..i])
    {
      var failure := AttestationFailure(p, policy, before, k, evidence[i]);
      if failure.Some? {
        FirstFailureSplit(p, policy, before, k, evidence, i);
        return Err(failure.value);
      }
      EvidenceOneMore(p, policy, before, k, evidence, i);
      distinct := distinct + {evidence[i].0.absent};
    }
    assert evidence[..|evidence|] == evidence;
    if |distinct| < policy.minUnreachable { return Err(InsufficientUnavailabilityEvidence); }
    return VerifyReadiness(p, k, readiness, resolve);
  }

  /** `w` was declared unreachable for long enough, under the keys that stood before the recovery event. */
  ghost predicate ShownUnreachable(p: Primitives, policy: RecoveryPolicy, before: WitnessPolicy, k: Kel,
                                   evidence: seq<SignedAttestation>, w: Bytes)
    requires k.events != []
  {
    && w in before.witnesses
    && exists s :: s in evidence && s.0.absent == w && s.0.identity == DidOf(k.scid)
                   && s.0.generation == before.generation && s.0.first + policy.minWaiting <= s.0.last
                   && VerifyMessageAt(p, k, AttestingSequence(k), PutAttestation(s.0), s.1).Ok?
  }

  /**
   A recovery that passes changes the policy, shows enough distinct old witnesses unreachable, and,
   when a successor policy exists, carries a readiness quorum of its members.
   */
  lemma RecoveryMeaning(p: Primitives, policy: RecoveryPolicy, before: WitnessPolicy, k: Kel,
                        evidence: seq<SignedAttestation>, readiness: Option<Certificate>, resolve: Resolver)
    returns (absent: set<Bytes>, ready: set<Bytes>)
    requires VerifyRecovery(p, policy, before, k, evidence, readiness, resolve).Ok?
    ensures Verified(p, k) && IsPolicyChange(before, DeclaredPolicy(p, k.events))
    ensures |absent| >= policy.minUnreachable && absent <= Elements(before.witnesses)
    ensures forall w :: w in absent ==> ShownUnreachable(p, policy, before, k, evidence, w)
    ensures DeclaredPolicy(p, k.events).Some? ==>
      && readiness.Some? && Describes(p, readiness.value, k)
      && |ready| >= DeclaredPolicy(p, k.events).value.threshold
      && ready <= Elements(DeclaredPolicy(p, k.events).value.witnesses)
      && forall w :: w in ready ==> Attested(p, readiness.value, resolve, w)
  {
    absent := Absentees(evidence);
    forall w | w in absent ensures ShownUnreachable(p, policy, before, k, evidence, w) {
      var s :| s in evidence && s.0.absent == w;
      assert AttestationFailure(p, policy, before, k, s).None?;
    }
    ready := {};
    if DeclaredPolicy(p, k.events).Some? {
      ready := CertificateQuorum(p, readiness.value, DeclaredPolicy(p, k.events).value, resolve);
    }
  }

  lemma {:induction false} SameEvidence(p: Primitives, policy: RecoveryPolicy, before: WitnessPolicy,
                                        other: WitnessPolicy,
                                        k: Kel, evidence: seq<SignedAttestation>)
    requires k.events != [] && other.generation == before.generation
    requires Elements(before.witnesses) <= Elements(other.witnesses)
    requires FirstFailure(p, policy, before, k, evidence).None?
    ensures FirstFailure(p, policy, other, k, evidence).None?
  {
    forall s | s in evidence ensures AttestationFailure(p, policy, other, k, s).None? {
      assert AttestationFailure(p, policy, before, k, s).None?;
      assert s.0.absent in Elements(before.witnesses);
    }
  }

  /**
   The earlier policy is the caller's word. A policy transition must name the one the log's prefix
   declares; a recovery that passes also passes with a member added to it, and no prefix declares both.
   */
  lemma RecoveryTrustsItsCaller(p: Primitives, policy: RecoveryPolicy, before: WitnessPolicy, k: Kel,
                                evidence: seq<SignedAttestation>, readiness: Option<Certificate>, resolve: Resolver,
                                extra: Bytes, prefix: WitnessPolicy)
    requires VerifyRecovery(p, policy, before, k, evidence, readiness, resolve).Ok? && extra !in before.witnesses
    requires DeclaredPolicy(p, k.events).Some? ==> extra !in DeclaredPolicy(p, k.events).value.witnesses
    ensures var other := before.(witnesses := before.witnesses + [extra]);
      && VerifyRecovery(p, policy, other, k, evidence, readiness, resolve).Ok?
      && !(SamePolicy(prefix, before) && SamePolicy(prefix, other))
  {
    var other := before.(witnesses := before.witnesses + [extra]);
    SameEvidence(p, policy, before, other, k, evidence);
    assert extra in multiset(other.witnesses) && extra !in multiset(before.witnesses);
    if DeclaredPolicy(p, k.events).Some? { assert extra !in multiset(DeclaredPolicy(p, k.events).value.witnesses); }
  }

  /** A rotation that passes has both quorums: the retiring members' and the incoming members'. */
  lemma RotationHasBothQuorums(p: Primitives, before: WitnessPolicy, k: Kel, c: Certificate,
                               readiness: Option<Certificate>, resolve: Resolver)
    returns (retiring: set<Bytes>, incoming: set<Bytes>)
    requires VerifyWitnessRotation(p, before, k, c, readiness, resolve).Ok?
    ensures retiring <= Elements(before.witnesses) && |retiring| >= before.threshold
    ensures Verified(p, k) && Describes(p, c, k) && forall w :: w in retiring ==> Attested(p, c, resolve, w)
    ensures DeclaredPolicy(p, k.events).Some? ==>
      && readiness.Some? && Describes(p, readiness.value, k)
      && |incoming| >= DeclaredPolicy(p, k.events).value.threshold
      && incoming <= Elements(DeclaredPolicy(p, k.events).value.witnesses)
      && forall w :: w in incoming ==> Attested(p, readiness.value, resolve, w)
  {
    TransitionMeaning(p, before, k, c, resolve);
    retiring := CertificateQuorum(p, c, before, resolve);
    incoming := {};
    if DeclaredPolicy(p, k.events).Some? {
      incoming := CertificateQuorum(p, readiness.value, DeclaredPolicy(p, k.events).value, resolve);
    }
  }
}
