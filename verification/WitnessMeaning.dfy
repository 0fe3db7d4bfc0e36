/** When a witness signs, what it signs, and when what it signed is accepted, without naming the steps. */
module WitnessMeaning {
  import opened Prelude
  import opened Codec
  import opened Events
  import opened Identity
  import opened KeyEventLog
  import opened KelMeaning
  import opened Witnesses
  import opened WitnessJournals
  import opened WitnessRotations
  import opened WitnessRecovery
  import opened Fork

  /* ---- what a receipt says ---- */

  predicate SameKind(said: KeyEventKind, kind: EventKind) {
    && (said.KInception? <==> kind.Inception?) && (said.KDelegatedInception? <==> kind.DelegatedInception?)
    && (said.KRotation? <==> kind.Rotation?) && (said.KInteraction? <==> kind.Interaction?)
    && (said.KSeal? <==> kind.SealEvent?)
  }

  /** Every field of the statement, and a signature that verifies under the signer's key. */
  predicate Says(p: Primitives, r: Receipt, e: Event, generation: nat, signer: Bytes, key: SigningKey, epoch: nat) {
    && r.statement.identity == DidOf(e.scid) && r.statement.sequence == e.sn
    && r.statement.eventDigest == p.digest(e) && SameKind(r.statement.kind, e.kind)
    && (r.statement.priorDigest.None? <==> e.prior == [])
    && (r.statement.priorDigest.Some? ==> r.statement.priorDigest.value == e.prior)
    && r.statement.generation == generation && r.statement.signer == signer && r.statement.epoch == epoch
    && p.checkSig(p.publicKey(key), PutStatement(r.statement, []), r.signature)
  }

  lemma SignedSays(p: Primitives, e: Event, generation: nat, signer: Bytes, key: SigningKey, epoch: nat)
    requires Sound(p)
    ensures var r := SignStatement(p, StatementFor(p, e, generation, signer, epoch), key);
      Says(p, r, e, generation, signer, key, epoch)
  {
  }

  /* ---- observing ---- */

  /** Known to the journal at this sequence number with this digest. */
  predicate Repeats(p: Primitives, s: IdentityState, e: Event) { e.sn == s.sequence && p.digest(e) == s.digest }

  predicate Follows(s: IdentityState, e: Event) { e.sn == (s.sequence + 1) % U64_LIMIT && e.prior == s.digest }

  /** The journal certified another event as the successor of `e`'s predecessor. */
  predicate ReservedAway(p: Primitives, j: Journal, s: IdentityState, e: Event) {
    var slot := TransitionKey(DidOf(e.scid), e.prior, s.policy.generation);
    slot in j.certified && j.certified[slot] != p.digest(e)
  }

  predicate Considered(p: Primitives, e: Event, policy: WitnessPolicy, signer: Bytes) {
    signer in policy.witnesses && p.scidOk(e.scid)
  }

  predicate NewToJournal(p: Primitives, j: Journal, e: Event) {
    var id := DidOf(e.scid);
    id in j.states ==>
      var s := j.states[id]; !Repeats(p, s, e) && Follows(s, e) && !ReservedAway(p, j, s, e)
  }

  /** Accepted exactly when new; then the head is this event under this policy and nothing else moved. */
  lemma AcceptedExactly(p: Primitives, j: Journal, e: Event, policy: WitnessPolicy, signer: Bytes, key: SigningKey,
                        epoch: nat)
    requires Sound(p)
    ensures var (j', r) := Observe(p, j, e, policy, signer, key, epoch); var id := DidOf(e.scid);
      && (r.Ok? && r.value.Accepted? <==> Considered(p, e, policy, signer) && NewToJournal(p, j, e))
      && (r.Ok? && r.value.Accepted? ==>
            && Says(p, r.value.receipt, e, policy.generation, signer, key, epoch)
            && j'.certified == j.certified
            && j'.states == j.states[id := IdentityState(e.sn, p.digest(e), e, r.value.receipt, policy)])
      && (!(r.Ok? && r.value.Accepted?) ==> j' == j)
  {
    SignedSays(p, e, policy.generation, signer, key, epoch);
  }

  /** What an unaccepted event is told, each answer with its exact condition. */
  lemma OtherReplies(p: Primitives, j: Journal, e: Event, policy: WitnessPolicy, signer: Bytes, key: SigningKey,
                     epoch: nat)
    ensures var r := Observe(p, j, e, policy, signer, key, epoch).1; var id := DidOf(e.scid);
      && (r == Err(WitnessNotInPolicy) <==> signer !in policy.witnesses)
      && (r == Err(Crypto) <==> signer in policy.witnesses && !p.scidOk(e.scid))
      && (Considered(p, e, policy, signer) && id in j.states ==>
            var s := j.states[id];
            && (r == Ok(AlreadyAccepted(s.receipt)) <==> Repeats(p, s, e))
            && (r == Err(ConflictingPolicyTransitionCertification) <==>
                  !Repeats(p, s, e) && Follows(s, e) && ReservedAway(p, j, s, e))
            && (r == Ok(Stale(s.sequence)) <==> !Follows(s, e) && e.sn < s.sequence)
            && (r == Err(WitnessConflictingDescendant) <==> !Follows(s, e) && e.sn > s.sequence))
  {
  }

  /** An honest answer to a log: only a verified one is observed, at its head, under the policy it declares. */
  lemma DeclaredExactly(p: Primitives, j: Journal, k: Kel, signer: Bytes, key: SigningKey, epoch: nat)
    requires Sound(p)
    ensures var r := ObserveDeclared(p, j, k, signer, key, epoch).1;
      r.Ok? && r.value.Accepted? <==>
        && Verified(p, k) && DeclaredPolicy(p, k.events).Some?
        && var head := k.events[|k.events| - 1];
           Considered(p, head, DeclaredPolicy(p, k.events).value, signer) && NewToJournal(p, j, head)
  {
    if Verified(p, k) && DeclaredPolicy(p, k.events).Some? {
      AcceptedExactly(p, j, k.events[|k.events| - 1], DeclaredPolicy(p, k.events).value, signer, key, epoch);
    }
  }

  lemma VerifiedLogExactly(p: Primitives, j: Journal, k: Kel, policy: WitnessPolicy, signer: Bytes, key: SigningKey,
                           epoch: nat)
    requires Sound(p)
    ensures var r := ObserveVerified(p, j, k, policy, signer, key, epoch).1;
      r.Ok? && r.value.Accepted? <==>
        && Verified(p, k)
        && var head := k.events[|k.events| - 1]; Considered(p, head, policy, signer) && NewToJournal(p, j, head)
  {
    if Verified(p, k) { AcceptedExactly(p, j, k.events[|k.events| - 1], policy, signer, key, epoch); }
  }

  /* ---- certifying ---- */

  /** The log's head retires the policy or declares other members or another threshold. */
  predicate ChangesPolicy(p: Primitives, before: WitnessPolicy, k: Kel) {
    match DeclaredPolicy(p, k.events)
    case None => true
    case Some(after) => before.threshold != after.threshold || multiset(before.witnesses) != multiset(after.witnesses)
  }

  predicate MayCertify(p: Primitives, j: Journal, k: Kel, signer: Bytes)
    requires k.events != []
  {
    && DidOf(k.scid) in j.states
    && var s, head := j.states[DidOf(k.scid)], k.events[|k.events| - 1];
       Follows(s, head) && signer in s.policy.witnesses && ChangesPolicy(p, s.policy, k) && !ReservedAway(p, j, s, head)
  }

  /** Certified exactly for a verified log whose head follows the retained state and changes its policy. */
  lemma CertifiedExactly(p: Primitives, j: Journal, k: Kel, signer: Bytes, key: SigningKey, epoch: nat)
    ensures Certify(p, j, k, signer, key, epoch).1.Ok? <==> Verified(p, k) && MayCertify(p, j, k, signer)
    ensures Certify(p, j, k, signer, key, epoch).1.Err? ==> Certify(p, j, k, signer, key, epoch).0 == j
  {
    if Verified(p, k) {
      VerifiedShape(p, k, |k.events| - 1);
      CertifyVerified(p, j, k, signer, key, epoch);
    }
  }

  lemma CertifyVerified(p: Primitives, j: Journal, k: Kel, signer: Bytes, key: SigningKey, epoch: nat)
    requires Verify(p, k).Ok? && k.events[|k.events| - 1].scid == k.scid
    ensures Certify(p, j, k, signer, key, epoch).1.Ok? <==> MayCertify(p, j, k, signer)
    ensures Certify(p, j, k, signer, key, epoch).1.Err? ==> Certify(p, j, k, signer, key, epoch).0 == j
  {
  }

  /** A certification signs for the head under the retiring policy, reserves it, and leaves the head in place. */
  lemma CertificationEffect(p: Primitives, j: Journal, k: Kel, signer: Bytes, key: SigningKey, epoch: nat)
    requires Sound(p) && Certify(p, j, k, signer, key, epoch).1.Ok?
    ensures k.events != [] && DidOf(k.scid) in j.states
    ensures var (j', r) := Certify(p, j, k, signer, key, epoch);
      var id, head := DidOf(k.scid), k.events[|k.events| - 1];
      var s := j.states[id];
      && Says(p, r.value, head, s.policy.generation, signer, key, epoch)
      && j'.states == j.states
      && j'.certified == j.certified[TransitionKey(id, s.digest, s.policy.generation) := p.digest(head)]
  {
    VerifiedShape(p, k, |k.events| - 1);
    SignedSays(p, k.events[|k.events| - 1], j.states[DidOf(k.scid)].policy.generation, signer, key, epoch);
  }

  /* ---- accepting certificates ---- */

  /** The receipt repeats the certificate's claim and comes from a member of the policy. */
  predicate Fits(c: Certificate, policy: WitnessPolicy, r: Receipt) {
    && r.statement.identity == c.identity && r.statement.sequence == c.sequence
    && r.statement.eventDigest == c.eventDigest && r.statement.generation == c.generation
    && r.statement.signer in policy.witnesses
  }

  predicate FirstOfSigner(c: Certificate, i: nat)
    requires i < |c.receipts|
  {
    forall j :: 0 <= j < i ==> c.receipts[j].statement.signer != c.receipts[i].statement.signer
  }

  predicate SignedByWitness(p: Primitives, r: Receipt, resolve: Resolver) {
    var key := resolve(r.statement.signer);
    key.Some? && p.checkSig(key.value, PutStatement(r.statement, []), r.signature)
  }

  predicate ReceiptOk(p: Primitives, c: Certificate, policy: WitnessPolicy, resolve: Resolver, i: nat)
    requires i < |c.receipts|
  {
    Fits(c, policy, c.receipts[i]) && (FirstOfSigner(c, i) ==> SignedByWitness(p, c.receipts[i], resolve))
  }

  /** Every receipt fits, and the first of each signer is signed by that witness's key. */
  predicate ReceiptsOk(p: Primitives, c: Certificate, policy: WitnessPolicy, resolve: Resolver, n: nat)
    requires n <= |c.receipts|
  {
    forall i :: 0 <= i < n ==> ReceiptOk(p, c, policy, resolve, i)
  }

  function Witnessed(c: Certificate, n: nat): set<Bytes>
    requires n <= |c.receipts|
  {
    set i | 0 <= i < n :: c.receipts[i].statement.signer
  }

  lemma WitnessedOneMore(c: Certificate, n: nat)
    requires n < |c.receipts|
    ensures Witnessed(c, n + 1) == Witnessed(c, n) + {c.receipts[n].statement.signer}
    ensures c.receipts[n].statement.signer in Witnessed(c, n) <==> !FirstOfSigner(c, n)
  {
  }

  /** One more receipt is counted exactly when it is in order, and then adds its signer. */
  lemma CountedStep(p: Primitives, c: Certificate, policy: WitnessPolicy, resolve: Resolver, n: nat)
    requires n < |c.receipts|
    ensures var before, after := Counted(p, c, policy, resolve, n), Counted(p, c, policy, resolve, n + 1);
      && (before.Err? ==> after.Err?)
      && (before == Ok(Witnessed(c, n)) ==>
            && (after.Ok? <==> ReceiptOk(p, c, policy, resolve, n))
            && (after.Ok? ==> after.value == Witnessed(c, n) + {c.receipts[n].statement.signer}))
  {
    WitnessedOneMore(c, n);
    var w := c.receipts[n].statement.signer;
    if w in Witnessed(c, n) { assert Witnessed(c, n) + {w} == Witnessed(c, n); }
  }

  /** One more item: a failed scan stays failed, and a good one goes on exactly past a good item. */
  predicate Continues<T(==), E>(scan: nat -> Result<T, E>, ok: nat -> bool, value: nat -> T, i: nat) {
    && (scan(i).Err? ==> scan(i + 1).Err?)
    && (scan(i).Ok? && scan(i).value == value(i) ==>
          (scan(i + 1).Ok? <==> ok(i)) && (scan(i + 1).Ok? ==> scan(i + 1).value == value(i + 1)))
  }

  /** A scan that stops at the first bad item succeeds exactly when no item is bad. */
  lemma {:induction false} ScanIff<T, E>(scan: nat -> Result<T, E>, ok: nat -> bool, value: nat -> T, n: nat)
    requires scan(0).Ok? && scan(0).value == value(0)
    requires forall i: nat :: i < n ==> Continues(scan, ok, value, i)
    ensures scan(n).Ok? <==> forall i: nat :: i < n ==> ok(i)
    ensures scan(n).Ok? ==> scan(n).value == value(n)
  {
    if n > 0 {
      ScanIff(scan, ok, value, n - 1);
      assert Continues(scan, ok, value, n - 1);
    }
  }

  lemma CountContinues(p: Primitives, c: Certificate, policy: WitnessPolicy, resolve: Resolver,
                       scan: nat -> Verdict<set<Bytes>>, ok: nat -> bool, value: nat -> set<Bytes>, i: nat)
    requires i < |c.receipts|
    requires scan(i) == Counted(p, c, policy, resolve, i) && scan(i + 1) == Counted(p, c, policy, resolve, i + 1)
    requires ok(i) == ReceiptOk(p, c, policy, resolve, i)
    requires value(i) == Witnessed(c, i) && value(i + 1) == Witnessed(c, i + 1)
    ensures Continues(scan, ok, value, i)
  {
    CountedStep(p, c, policy, resolve, i);
    WitnessedOneMore(c, i);
  }

  lemma CountedIff(p: Primitives, c: Certificate, policy: WitnessPolicy, resolve: Resolver)
    ensures var n := |c.receipts|; var r := Counted(p, c, policy, resolve, n);
      (r.Ok? <==> ReceiptsOk(p, c, policy, resolve, n)) && (r.Ok? ==> r.value == Witnessed(c, n))
  {
    var n := |c.receipts|;
    var scan := (i: nat) => if i <= n then Counted(p, c, policy, resolve, i) else Ok({});
    var ok := (i: nat) => i < n && ReceiptOk(p, c, policy, resolve, i);
    var value := (i: nat) => if i <= n then Witnessed(c, i) else {};
    assert scan(0).value == value(0) by { assert Witnessed(c, 0) == {}; }
    assert forall i: nat :: i < n ==> Continues(scan, ok, value, i) by {
      forall i: nat | i < n ensures Continues(scan, ok, value, i) {
        CountContinues(p, c, policy, resolve, scan, ok, value, i);
      }
    }
    assert ReceiptsOk(p, c, policy, resolve, n) <==> forall i: nat :: i < n ==> ok(i) by {
      AllReceipts(p, c, policy, resolve, ok);
    }
    ScanIff(scan, ok, value, n);
  }

  lemma AllReceipts(p: Primitives, c: Certificate, policy: WitnessPolicy, resolve: Resolver, ok: nat -> bool)
    requires forall i: nat :: i < |c.receipts| ==> ok(i) == ReceiptOk(p, c, policy, resolve, i)
    ensures ReceiptsOk(p, c, policy, resolve, |c.receipts|) <==> forall i: nat :: i < |c.receipts| ==> ok(i)
  {
  }

  /** A certificate verifies if and only if its receipts are in order and enough distinct witnesses gave one. */
  lemma CertificateIff(p: Primitives, c: Certificate, policy: WitnessPolicy, resolve: Resolver)
    ensures VerifyCertificate(p, c, policy, resolve).Ok? <==>
      && policy.generation == c.generation && ReceiptsOk(p, c, policy, resolve, |c.receipts|)
      && |Witnessed(c, |c.receipts|)| % U16_LIMIT >= policy.threshold
  {
    CountedIff(p, c, policy, resolve);
  }

  /** The certificate speaks of the log's head. */
  predicate About(p: Primitives, c: Certificate, k: Kel)
    requires k.events != []
  {
    var head := k.events[|k.events| - 1];
    c.identity == DidOf(k.scid) && c.sequence == head.sn && c.eventDigest == p.digest(head)
  }

  predicate Incoming(p: Primitives, k: Kel, readiness: Option<Certificate>, resolve: Resolver)
    requires k.events != []
  {
    match DeclaredPolicy(p, k.events)
    case None => true
    case Some(after) =>
      readiness.Some? && About(p, readiness.value, k) && VerifyCertificate(p, readiness.value, after, resolve).Ok?
  }

  /** A transition passes exactly when the policy the log's own prefix declares certified a change of it. */
  lemma TransitionIff(p: Primitives, before: WitnessPolicy, k: Kel, c: Certificate, resolve: Resolver)
    ensures VerifyPolicyTransition(p, before, k, c, resolve).Ok? <==>
      && Verified(p, k) && ChangesPolicy(p, before, k) && About(p, c, k) && VerifyCertificate(p, c, before, resolve).Ok?
      && var declared := DeclaredPolicy(p, k.events[..|k.events| - 1]);
         declared.Some? && declared.value.generation == before.generation
         && declared.value.threshold == before.threshold
         && multiset(declared.value.witnesses) == multiset(before.witnesses)
  {
  }

  lemma RotationIff(p: Primitives, before: WitnessPolicy, k: Kel, c: Certificate, readiness: Option<Certificate>,
                    resolve: Resolver)
    ensures VerifyWitnessRotation(p, before, k, c, readiness, resolve).Ok? <==>
      VerifyPolicyTransition(p, before, k, c, resolve).Ok? && Incoming(p, k, readiness, resolve)
  {
  }

  /* ---- accepting a recovery ---- */

  /** The keys in control before the recovery event signed that this member was away long enough. */
  predicate ShownAbsent(p: Primitives, policy: RecoveryPolicy, before: WitnessPolicy, k: Kel, s: SignedAttestation)
    requires k.events != []
  {
    var head := k.events[|k.events| - 1];
    var at := if head.sn == 0 then 0 else head.sn - 1;
    && s.0.identity == DidOf(k.scid) && s.0.generation == before.generation && s.0.absent in before.witnesses
    && s.0.first <= s.0.last && s.0.first + policy.minWaiting <= s.0.last
    && at < |k.events|
    && var e := k.events[Governor(k.events, at)];
       Establishes(e) && |Signers(p, PutAttestation(s.0), e.kind.est.keys, s.1)| >= e.kind.est.threshold
  }

  lemma AttestationIff(p: Primitives, policy: RecoveryPolicy, before: WitnessPolicy, k: Kel, s: SignedAttestation)
    requires Verified(p, k)
    ensures AttestationFailure(p, policy, before, k, s).None? <==> ShownAbsent(p, policy, before, k, s)
  {
    MessageIff(p, k, AttestingSequence(k), PutAttestation(s.0), s.1);
  }

  /** A recovery passes exactly when enough distinct members were shown absent and any new policy is ready. */
  lemma RecoveryIff(p: Primitives, policy: RecoveryPolicy, before: WitnessPolicy, k: Kel,
                    evidence: seq<SignedAttestation>, readiness: Option<Certificate>, resolve: Resolver)
    ensures VerifyRecovery(p, policy, before, k, evidence, readiness, resolve).Ok? <==>
      && Verified(p, k) && ChangesPolicy(p, before, k) && Incoming(p, k, readiness, resolve)
      && (forall s :: s in evidence ==> ShownAbsent(p, policy, before, k, s))
      && |set s | s in evidence :: s.0.absent| >= policy.minUnreachable
  {
    if Verified(p, k) {
      forall s ensures AttestationFailure(p, policy, before, k, s).None? <==> ShownAbsent(p, policy, before, k, s) {
        AttestationIff(p, policy, before, k, s);
      }
    }
  }

  /* ---- evidence of misconduct ---- */

  /** Two receipts convict their signer exactly when they give one place in one identity's log two events. */
  lemma EquivocationIff(a: Receipt, b: Receipt)
    ensures AssembleEquivocation(a, b).Ok? <==>
      && a.statement.signer == b.statement.signer && a.statement.generation == b.statement.generation
      && a.statement.identity == b.statement.identity && a.statement.sequence == b.statement.sequence
      && a.statement.eventDigest != b.statement.eventDigest
    ensures AssembleEquivocation(a, b).Ok? ==> AssembleEquivocation(a, b).value == (a.statement.signer, a, b)
  {
  }

  /** Two events convict their controller exactly when they are different and claim one place in its log. */
  lemma DuplicityIff(p: Primitives, scid: Bytes, a: Event, b: Event)
    ensures METHOD <= DidOf(scid)
    ensures AssembleDuplicity(p, DidOf(scid), a, b).Ok? <==>
      a.scid == scid && b.scid == scid && a.sn == b.sn && p.digest(a) != p.digest(b)
    ensures AssembleDuplicity(p, DidOf(scid), a, b).Ok? ==>
      AssembleDuplicity(p, DidOf(scid), a, b).value == DuplicityProof(DidOf(scid), a.sn, a, b)
  {
    DidOfInverse(scid);
  }
}
