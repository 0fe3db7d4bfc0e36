/** Changing a witness set: who must have signed, and why two rival changes cannot both pass. */
module WitnessRotations {
  import opened Prelude
  import opened Codec
  import opened Events
  import opened Identity
  import opened KeyEventLog
  import opened Fork
  import opened Witnesses
  import opened WitnessJournals

  predicate SamePolicy(a: WitnessPolicy, b: WitnessPolicy) {
    a.generation == b.generation && a.threshold == b.threshold && SameWitnessSet(a.witnesses, b.witnesses)
  }

  predicate Describes(p: Primitives, c: Certificate, k: Kel)
    requires k.events != []
  {
    var head := k.events[|k.events| - 1];
    c.identity == DidOf(k.scid) && c.sequence == head.sn && c.eventDigest == p.digest(head)
  }

  /** The retiring policy, cross-checked against the log's own prefix, certified the head. */
  function VerifyPolicyTransition(p: Primitives, before: WitnessPolicy, k: Kel, c: Certificate, resolve: Resolver)
    : Verdict<()>
  {
    var _ :- Verify(p, k);
    var declared := DeclaredPolicy(p, k.events[..|k.events| - 1]);
    var _ :- Check(declared.Some?, NoWitnessPolicyDeclared);
    var _ :- Check(SamePolicy(declared.value, before), WitnessReceiptMismatch);
    var _ :- Check(IsPolicyChange(before, DeclaredPolicy(p, k.events)), NotAWitnessPolicyChange);
    var _ :- Check(Describes(p, c, k), WitnessReceiptMismatch);
    VerifyCertificate(p, c, before, resolve)
  }

  /** The incoming policy, if the head declares one, certified the head too. */
  function VerifyReadiness(p: Primitives, k: Kel, c: Option<Certificate>, resolve: Resolver): Verdict<()>
    requires k.events != []
  {
    var after := DeclaredPolicy(p, k.events);
    if after.None? then Ok(()) else
      var _ :- Check(c.Some?, WitnessThresholdNotMet);
      var _ :- Check(Describes(p, c.value, k), WitnessReceiptMismatch);
      VerifyCertificate(p, c.value, after.value, resolve)
  }

  function VerifyWitnessRotation(p: Primitives, before: WitnessPolicy, k: Kel, c: Certificate,
                                 readiness: Option<Certificate>, resolve: Resolver): Verdict<()>
  {
    var _ :- VerifyPolicyTransition(p, before, k, c, resolve);
    VerifyReadiness(p, k, readiness, resolve)
  }

  /* ---- quorum agreement ---- */

  /**
   Witness `w` runs the journal on `calls`, and its signatures in `c` are its own: every receipt
   of `c` that verifies under its key covers the bytes of a statement the journal signed.
   */
  ghost predicate RunsJournal(p: Primitives, resolve: Resolver, w: Bytes, calls: seq<Call>, c: Certificate) {
    && (forall i :: 0 <= i < |calls| ==> BelowLastSequence(calls[i]))
    && (forall q :: q in Issued(p, calls) ==> StatementFits(q.statement))
    && (resolve(w).Some? ==>
          forall r :: r in c.receipts && r.statement.signer == w && ReceiptVerifies(p, r, resolve(w).value) ==>
            && StatementFits(r.statement)
            && exists q :: q in Issued(p, calls) && PutStatement(q.statement, []) == PutStatement(r.statement, []))
  }

  /** At most `f` members of the policy do anything other than run the journal. */
  ghost predicate AllButRunJournals(p: Primitives, resolve: Resolver, members: set<Bytes>, runs: map<Bytes, seq<Call>>,
                                    f: nat, c: Certificate) {
    && |members - runs.Keys| <= f
    && forall w :: w in members && w in runs ==> RunsJournal(p, resolve, w, runs[w], c)
  }

  lemma AttestedWasIssued(p: Primitives, resolve: Resolver, w: Bytes, calls: seq<Call>, c: Certificate)
    returns (q: Receipt)
    requires Attested(p, c, resolve, w) && RunsJournal(p, resolve, w, calls, c)
    ensures q in Issued(p, calls) && ReceiptMatches(q, c)
  {
    var r :| r in c.receipts && r.statement.signer == w && ReceiptMatches(r, c)
             && ReceiptVerifies(p, r, resolve(w).value);
    q :| q in Issued(p, calls) && PutStatement(q.statement, []) == PutStatement(r.statement, []);
    StatementInjective(q.statement, r.statement, []);
  }

  lemma SharedMemberAgrees(p: Primitives, resolve: Resolver, w: Bytes, calls: seq<Call>, c: Certificate, d: Certificate)
    requires Attested(p, c, resolve, w) && Attested(p, d, resolve, w)
    requires RunsJournal(p, resolve, w, calls, c) && RunsJournal(p, resolve, w, calls, d)
    requires c.identity == d.identity && c.sequence == d.sequence
    ensures c.eventDigest == d.eventDigest
  {
    var a := AttestedWasIssued(p, resolve, w, calls, c);
    var b := AttestedWasIssued(p, resolve, w, calls, d);
    JournalNeverEquivocates(p, calls, a, b);
  }

  lemma SomeMemberOutside<T>(both: set<T>, faulty: set<T>, f: nat) returns (w: T)
    requires |both| > f && |faulty| <= f
    ensures w in both && w !in faulty
  {
    if both <= faulty { SubsetCard(both, faulty); }
    w :| w in both && w !in faulty;
  }

  /**
   Quorum agreement. Two certificates for one identity and sequence, each verified under the same
   members and threshold, name one event when 2 * threshold exceeds members + faults.
   */
  lemma QuorumAgreement(p: Primitives, c: Certificate, d: Certificate, pc: WitnessPolicy, pd: WitnessPolicy,
                        resolve: Resolver, runs: map<Bytes, seq<Call>>, f: nat)
    requires VerifyCertificate(p, c, pc, resolve).Ok? && VerifyCertificate(p, d, pd, resolve).Ok?
    requires Elements(pc.witnesses) == Elements(pd.witnesses) && pc.threshold == pd.threshold
    requires c.identity == d.identity && c.sequence == d.sequence
    requires AllButRunJournals(p, resolve, Elements(pc.witnesses), runs, f, c)
    requires AllButRunJournals(p, resolve, Elements(pc.witnesses), runs, f, d)
    requires 2 * pc.threshold > |Elements(pc.witnesses)| + f
    ensures c.eventDigest == d.eventDigest
  {
    var members := Elements(pc.witnesses);
    var both := CertificatesOverlap(p, c, d, pc, pd, resolve);
    var w := SomeMemberOutside(both, members - runs.Keys, f);
    SharedMemberAgrees(p, resolve, w, runs[w], c, d);
  }

  /** What a passing transition establishes; an inception has no prefix policy, so it never passes. */
  lemma TransitionMeaning(p: Primitives, before: WitnessPolicy, k: Kel, c: Certificate, resolve: Resolver)
    requires VerifyPolicyTransition(p, before, k, c, resolve).Ok?
    ensures Verified(p, k) && |k.events| > 1 && Describes(p, c, k)
    ensures VerifyCertificate(p, c, before, resolve).Ok?
    ensures var declared := DeclaredPolicy(p, k.events[..|k.events| - 1]);
      declared.Some? && SamePolicy(declared.value, before)
    ensures IsPolicyChange(before, DeclaredPolicy(p, k.events))
  {
  }

  /** Heads that name one predecessor sit on one shared history. */
  lemma SharedPredecessor(p: Primitives, k: Kel, l: Kel)
    requires Verified(p, k) && Verified(p, l) && NoCollision(p, k, l) && |k.events| > 1 && |l.events| > 1
    requires k.events[|k.events| - 1].prior == l.events[|l.events| - 1].prior
    ensures |k.events| == |l.events| && k.scid == l.scid
    ensures k.events[..|k.events| - 1] == l.events[..|l.events| - 1]
    ensures k.events[|k.events| - 1].sn == l.events[|l.events| - 1].sn
  {
    var n, m := |k.events| - 1, |l.events| - 1;
    VerifiedShape(p, k, n);
    VerifiedShape(p, l, m);
    DigestPinsHistory(p, k, l, n - 1, m - 1);
  }

  lemma SameHead(p: Primitives, k: Kel, l: Kel)
    requires Verified(p, k) && Verified(p, l) && NoCollision(p, k, l)
    requires k.events != [] && l.events != []
    requires p.digest(k.events[|k.events| - 1]) == p.digest(l.events[|l.events| - 1])
    ensures k == l
  {
    var n, m := |k.events| - 1, |l.events| - 1;
    DigestPinsHistory(p, k, l, n, m);
    assert k.events[..n + 1] == k.events && l.events[..m + 1] == l.events;
  }

  ghost predicate Rivals(p: Primitives, k: Kel, l: Kel) {
    && Verified(p, k) && Verified(p, l) && NoCollision(p, k, l) && |k.events| > 1 && |l.events| > 1
    && k.events[|k.events| - 1].prior == l.events[|l.events| - 1].prior
  }

  /**
   Two successors of one predecessor cannot both pass `verify_policy_transition`: under the same
   fault bound the two logs are the same log.
   */
  lemma RivalTransitionsCoincide(p: Primitives, k: Kel, l: Kel, ck: Certificate, cl: Certificate,
                                 pk: WitnessPolicy, pl: WitnessPolicy, resolve: Resolver,
                                 runs: map<Bytes, seq<Call>>, f: nat)
    requires Rivals(p, k, l)
    requires VerifyPolicyTransition(p, pk, k, ck, resolve).Ok? && VerifyPolicyTransition(p, pl, l, cl, resolve).Ok?
    requires AllButRunJournals(p, resolve, Elements(pk.witnesses), runs, f, ck)
    requires AllButRunJournals(p, resolve, Elements(pk.witnesses), runs, f, cl)
    requires 2 * pk.threshold > |Elements(pk.witnesses)| + f
    ensures k == l
  {
    SharedPredecessor(p, k, l);
    TransitionMeaning(p, pk, k, ck, resolve);
    TransitionMeaning(p, pl, l, cl, resolve);
    SameMembers(pk.witnesses, pl.witnesses);
    QuorumAgreement(p, ck, cl, pk, pl, resolve, runs, f);
    SameHead(p, k, l);
  }
}
