/** One witness's journal: what it signs, and why it never signs two rival events. */
module WitnessJournals {
  import opened Prelude
  import opened Codec
  import opened Events
  import opened Identity
  import opened KeyEventLog
  import opened Witnesses
  import opened Fork

  datatype IdentityState = IdentityState(
    sequence: nat, digest: Bytes, event: Event, receipt: Receipt, policy: WitnessPolicy)

  datatype TransitionKey = TransitionKey(identity: Bytes, predecessor: Bytes, generation: nat)

  datatype Journal = Journal(states: map<Bytes, IdentityState>, certified: map<TransitionKey, Bytes>)

  const EMPTY := Journal(map[], map[])

  datatype Observation =
    | Accepted(receipt: Receipt)
    | AlreadyAccepted(receipt: Receipt)
    | Stale(acceptedSequence: nat)
    | ControllerDuplicity(proof: DuplicityProof)

  /** `accepted_sequence + 1` on a `u64`; release builds wrap. */
  function Succ(n: nat): nat { (n + 1) % U64_LIMIT }

  function StatementFor(p: Primitives, e: Event, generation: nat, signer: Bytes, epoch: nat): Statement {
    Statement(DidOf(e.scid), e.sn, p.digest(e), if e.prior == [] then None else Some(e.prior),
              KindOf(e.kind), generation, signer, epoch)
  }

  /** The successor this journal already certified away from the accepted head, if any. */
  function Reserved(j: Journal, identity: Bytes, predecessor: Bytes, generation: nat): Option<Bytes> {
    var key := TransitionKey(identity, predecessor, generation);
    if key in j.certified then Some(j.certified[key]) else None
  }

  function Accept(p: Primitives, j: Journal, e: Event, policy: WitnessPolicy, signer: Bytes, key: SigningKey,
                  epoch: nat)
    : (Journal, Verdict<Observation>)
  {
    var id := DidOf(e.scid);
    var reserved := if id in j.states then Reserved(j, id, e.prior, j.states[id].policy.generation) else None;
    if reserved.Some? && reserved.value != p.digest(e) then (j, Err(ConflictingPolicyTransitionCertification))
    else
      var receipt := SignStatement(p, StatementFor(p, e, policy.generation, signer, epoch), key);
      (j.(states := j.states[id := IdentityState(e.sn, p.digest(e), e, receipt, policy)]), Ok(Accepted(receipt)))
  }

  /** First-seen acceptance, duplicate, direct successor, stale, conflict or conflicting descendant. */
  function Observe(p: Primitives, j: Journal, e: Event, policy: WitnessPolicy, signer: Bytes, key: SigningKey,
                   epoch: nat)
    : (Journal, Verdict<Observation>)
  {
    if signer !in policy.witnesses then (j, Err(WitnessNotInPolicy))
    else if !p.scidOk(e.scid) then (j, Err(Crypto))
    else
      var id := DidOf(e.scid);
      if id !in j.states then Accept(p, j, e, policy, signer, key, epoch)
      else
        var s := j.states[id];
        if e.sn == s.sequence && p.digest(e) == s.digest then (j, Ok(AlreadyAccepted(s.receipt)))
        else if e.sn == Succ(s.sequence) && e.prior == s.digest then Accept(p, j, e, policy, signer, key, epoch)
        else if e.sn < s.sequence then (j, Ok(Stale(s.sequence)))
        else if e.sn == s.sequence then
          var proof := AssembleDuplicity(p, id, s.event, e);
          (j, if proof.Ok? then Ok(ControllerDuplicity(proof.value)) else Err(proof.error))
        else (j, Err(WitnessConflictingDescendant))
  }

  function ObserveVerified(p: Primitives, j: Journal, k: Kel, policy: WitnessPolicy, signer: Bytes, key: SigningKey,
                           epoch: nat)
    : (Journal, Verdict<Observation>)
  {
    var v := Verify(p, k);
    if v.Err? then (j, Err(v.error)) else Observe(p, j, k.events[|k.events| - 1], policy, signer, key, epoch)
  }

  function ObserveDeclared(p: Primitives, j: Journal, k: Kel, signer: Bytes, key: SigningKey, epoch: nat)
    : (Journal, Verdict<Observation>)
  {
    var v := Verify(p, k);
    var policy := DeclaredPolicy(p, k.events);
    if v.Err? then (j, Err(v.error))
    else if policy.None? then (j, Err(NoWitnessPolicyDeclared))
    else Observe(p, j, k.events[|k.events| - 1], policy.value, signer, key, epoch)
  }

  /** Same members, in any order. */
  predicate SameWitnessSet(a: seq<Bytes>, b: seq<Bytes>) { multiset(a) == multiset(b) }

  predicate IsPolicyChange(before: WitnessPolicy, after: Option<WitnessPolicy>) {
    after.Some? ==>
      before.threshold != after.value.threshold || !SameWitnessSet(before.witnesses, after.value.witnesses)
  }

  /** An old witness certifies, under its retiring policy, one successor of the state it accepted. */
  function Certify(p: Primitives, j: Journal, k: Kel, signer: Bytes, key: SigningKey, epoch: nat)
    : (Journal, Verdict<Receipt>)
  {
    var v := Verify(p, k);
    if v.Err? then (j, Err(v.error)) else
    var id := DidOf(k.scid);
    if id !in j.states then (j, Err(NoRetainedWitnessState)) else
    var s := j.states[id];
    var e := k.events[|k.events| - 1];
    var reserved := Reserved(j, id, e.prior, s.policy.generation);
    if e.sn != Succ(s.sequence) || e.prior != s.digest then (j, Err(WitnessConflictingDescendant))
    else if signer !in s.policy.witnesses then (j, Err(WitnessNotInPolicy))
    else if !IsPolicyChange(s.policy, DeclaredPolicy(p, k.events)) then (j, Err(NotAWitnessPolicyChange))
    else if reserved.Some? && reserved.value != p.digest(e) then (j, Err(ConflictingPolicyTransitionCertification))
    else
      (j.(certified := j.certified[TransitionKey(id, e.prior, s.policy.generation) := p.digest(e)]),
       Ok(SignStatement(p, StatementFor(p, e, s.policy.generation, signer, epoch).(identity := id), key)))
  }

  /* ---- runs ---- */

  datatype Call =
    | CallObserve(event: Event, policy: WitnessPolicy, signer: Bytes, key: SigningKey, epoch: nat)
    | CallVerified(kel: Kel, policy: WitnessPolicy, signer: Bytes, key: SigningKey, epoch: nat)
    | CallDeclared(kel: Kel, signer: Bytes, key: SigningKey, epoch: nat)
    | CallCertify(kel: Kel, signer: Bytes, key: SigningKey, epoch: nat)

  function ReceiptsOf(r: Verdict<Observation>): set<Receipt> {
    if r.Ok? && (r.value.Accepted? || r.value.AlreadyAccepted?) then {r.value.receipt} else {}
  }

  /** The journal after a call and the receipts that call handed out. */
  function Step(p: Primitives, j: Journal, c: Call): (Journal, set<Receipt>) {
    match c
    case CallObserve(e, policy, signer, key, epoch) =>
      var (j', r) := Observe(p, j, e, policy, signer, key, epoch); (j', ReceiptsOf(r))
    case CallVerified(k, policy, signer, key, epoch) =>
      var (j', r) := ObserveVerified(p, j, k, policy, signer, key, epoch); (j', ReceiptsOf(r))
    case CallDeclared(k, signer, key, epoch) =>
      var (j', r) := ObserveDeclared(p, j, k, signer, key, epoch); (j', ReceiptsOf(r))
    case CallCertify(k, signer, key, epoch) =>
      var (j', r) := Certify(p, j, k, signer, key, epoch); (j', if r.Ok? then {r.value} else {})
  }

  function RunJournal(p: Primitives, calls: seq<Call>): Journal {
    if calls == [] then EMPTY else Step(p, RunJournal(p, calls[..|calls| - 1]), calls[|calls| - 1]).0
  }

  /** Every receipt handed out over a whole run. */
  function Issued(p: Primitives, calls: seq<Call>): set<Receipt> {
    if calls == [] then {} else
      Issued(p, calls[..|calls| - 1]) + Step(p, RunJournal(p, calls[..|calls| - 1]), calls[|calls| - 1]).1
  }

  /** The event a call presents carries a sequence number that has a successor. */
  predicate BelowLastSequence(c: Call) {
    match c
    case CallObserve(e, _, _, _, _) => e.sn < U64_LIMIT - 1
    case CallVerified(k, _, _, _, _) => |k.events| < U64_LIMIT
    case CallDeclared(k, _, _, _) => |k.events| < U64_LIMIT
    case CallCertify(k, _, _, _) => |k.events| < U64_LIMIT
  }

  /* ---- the invariant ---- */

  /** What is signed for an identity: nothing beyond its head except the one certified successor. */
  predicate Accounted(j: Journal, st: Statement) {
    && st.identity in j.states
    && var s := j.states[st.identity];
       && s.sequence < U64_LIMIT - 1
       && (st.sequence == s.sequence ==> st.eventDigest == s.digest)
       && (st.sequence > s.sequence ==>
             st.sequence == s.sequence + 1
             && Reserved(j, st.identity, s.digest, s.policy.generation) == Some(st.eventDigest))
  }

  predicate Consistent(s: Statement, t: Statement) {
    s.identity == t.identity && s.sequence == t.sequence ==> s.eventDigest == t.eventDigest
  }

  ghost predicate Inv(j: Journal, issued: set<Receipt>) {
    && (forall r :: r in issued ==> Accounted(j, r.statement))
    && (forall r, q :: r in issued && q in issued ==> Consistent(r.statement, q.statement))
    && (forall id :: id in j.states ==> j.states[id].receipt.statement.identity == id && j.states[id].receipt in issued)
  }

  /** Moving an identity's head forward keeps the account, provided any reservation is honoured. */
  lemma AdvanceHead(j: Journal, issued: set<Receipt>, id: Bytes, s: IdentityState)
    requires Inv(j, issued) && s.sequence < U64_LIMIT - 1
    requires s.receipt.statement.identity == id && s.receipt.statement.sequence == s.sequence
    requires s.receipt.statement.eventDigest == s.digest
    requires id in j.states ==>
      && s.sequence == j.states[id].sequence + 1
      && var held := Reserved(j, id, j.states[id].digest, j.states[id].policy.generation);
         held.None? || held.value == s.digest
    ensures Inv(j.(states := j.states[id := s]), issued + {s.receipt})
  {
  }

  /** Reserving one successor of the head, and signing for it, keeps the account. */
  lemma ReserveSuccessor(j: Journal, issued: set<Receipt>, id: Bytes, r: Receipt)
    requires Inv(j, issued) && id in j.states
    requires r.statement.identity == id && r.statement.sequence == j.states[id].sequence + 1
    requires var held := Reserved(j, id, j.states[id].digest, j.states[id].policy.generation);
      held.None? || held.value == r.statement.eventDigest
    ensures var h := j.states[id];
      Inv(j.(certified := j.certified[TransitionKey(id, h.digest, h.policy.generation) := r.statement.eventDigest]),
          issued + {r})
  {
  }

  lemma AcceptInv(p: Primitives, j: Journal, issued: set<Receipt>, e: Event, policy: WitnessPolicy,
                  signer: Bytes, key: SigningKey, epoch: nat)
    requires Inv(j, issued) && e.sn < U64_LIMIT - 1
    requires DidOf(e.scid) in j.states ==>
      e.sn == j.states[DidOf(e.scid)].sequence + 1 && e.prior == j.states[DidOf(e.scid)].digest
    ensures var (j', r) := Accept(p, j, e, policy, signer, key, epoch); Inv(j', issued + ReceiptsOf(r))
  {
    var id := DidOf(e.scid);
    var (j', r) := Accept(p, j, e, policy, signer, key, epoch);
    if r.Ok? {
      AdvanceHead(j, issued, id, j'.states[id]);
    } else {
      assert issued + ReceiptsOf(r) == issued;
    }
  }

  lemma ObserveAccepts(p: Primitives, j: Journal, issued: set<Receipt>, e: Event, policy: WitnessPolicy,
                       signer: Bytes, key: SigningKey, epoch: nat)
    requires Inv(j, issued) && e.sn < U64_LIMIT - 1 && signer in policy.witnesses && p.scidOk(e.scid)
    requires DidOf(e.scid) in j.states ==>
      e.sn == j.states[DidOf(e.scid)].sequence + 1 && e.prior == j.states[DidOf(e.scid)].digest
    ensures Observe(p, j, e, policy, signer, key, epoch) == Accept(p, j, e, policy, signer, key, epoch)
  {
  }

  /** Anything but a first sight or a direct successor leaves the journal alone and hands out no new receipt. */
  lemma UnacceptedReply(p: Primitives, j: Journal, e: Event, policy: WitnessPolicy, signer: Bytes, key: SigningKey,
                        epoch: nat)
    requires signer !in policy.witnesses || !p.scidOk(e.scid)
             || (DidOf(e.scid) in j.states && !(e.sn == Succ(j.states[DidOf(e.scid)].sequence)
                                                && e.prior == j.states[DidOf(e.scid)].digest))
    ensures var (j', r) := Observe(p, j, e, policy, signer, key, epoch);
      j' == j && (ReceiptsOf(r) == {}
                  || (DidOf(e.scid) in j.states && ReceiptsOf(r) == {j.states[DidOf(e.scid)].receipt}))
  {
  }

  lemma UnacceptedChangesNothing(p: Primitives, j: Journal, issued: set<Receipt>, e: Event, policy: WitnessPolicy,
                                 signer: Bytes, key: SigningKey, epoch: nat)
    requires Inv(j, issued) && e.sn < U64_LIMIT - 1
    requires signer !in policy.witnesses || !p.scidOk(e.scid)
             || (DidOf(e.scid) in j.states && !(e.sn == j.states[DidOf(e.scid)].sequence + 1
                                                && e.prior == j.states[DidOf(e.scid)].digest))
    ensures var (j', r) := Observe(p, j, e, policy, signer, key, epoch); j' == j && issued + ReceiptsOf(r) == issued
  {
    var id := DidOf(e.scid);
    if id in j.states {
      assert Accounted(j, j.states[id].receipt.statement);
      SmallMod(j.states[id].sequence + 1, U64_LIMIT);
    }
    UnacceptedReply(p, j, e, policy, signer, key, epoch);
  }

  lemma ObserveInv(p: Primitives, j: Journal, issued: set<Receipt>, e: Event, policy: WitnessPolicy,
                   signer: Bytes, key: SigningKey, epoch: nat)
    requires Inv(j, issued) && e.sn < U64_LIMIT - 1
    ensures var (j', r) := Observe(p, j, e, policy, signer, key, epoch); Inv(j', issued + ReceiptsOf(r))
  {
    var id := DidOf(e.scid);
    if signer in policy.witnesses && p.scidOk(e.scid)
       && (id !in j.states || (e.sn == j.states[id].sequence + 1 && e.prior == j.states[id].digest)) {
      ObserveAccepts(p, j, issued, e, policy, signer, key, epoch);
      AcceptInv(p, j, issued, e, policy, signer, key, epoch);
    } else {
      UnacceptedChangesNothing(p, j, issued, e, policy, signer, key, epoch);
    }
  }

  lemma CertifiedNext(p: Primitives, j: Journal, issued: set<Receipt>, k: Kel, signer: Bytes, key: SigningKey,
                      epoch: nat)
    requires Inv(j, issued) && |k.events| < U64_LIMIT && Certify(p, j, k, signer, key, epoch).1.Ok?
    ensures var st := Certify(p, j, k, signer, key, epoch).1.value.statement;
      && st.identity == DidOf(k.scid) && st.identity in j.states
      && st.sequence == j.states[st.identity].sequence + 1
  {
    var s := j.states[DidOf(k.scid)];
    assert Accounted(j, s.receipt.statement);
    SmallMod(s.sequence + 1, U64_LIMIT);
  }

  lemma CertifyInv(p: Primitives, j: Journal, issued: set<Receipt>, k: Kel, signer: Bytes, key: SigningKey, epoch: nat)
    requires Inv(j, issued) && |k.events| < U64_LIMIT
    ensures var (j', r) := Certify(p, j, k, signer, key, epoch);
      Inv(j', issued + if r.Ok? then {r.value} else {})
  {
    var (j', r) := Certify(p, j, k, signer, key, epoch);
    if r.Ok? {
      CertifiedNext(p, j, issued, k, signer, key, epoch);
      ReserveSuccessor(j, issued, DidOf(k.scid), r.value);
    } else {
      assert issued + {} == issued;
    }
  }

  lemma HeadInv(p: Primitives, j: Journal, issued: set<Receipt>, k: Kel, policy: WitnessPolicy,
                signer: Bytes, key: SigningKey, epoch: nat)
    requires Inv(j, issued) && Verified(p, k) && |k.events| < U64_LIMIT
    ensures var (j', r) := Observe(p, j, k.events[|k.events| - 1], policy, signer, key, epoch);
      Inv(j', issued + ReceiptsOf(r))
  {
    VerifiedShape(p, k, |k.events| - 1);
    ObserveInv(p, j, issued, k.events[|k.events| - 1], policy, signer, key, epoch);
  }

  lemma VerifiedInv(p: Primitives, j: Journal, issued: set<Receipt>, k: Kel, policy: WitnessPolicy,
                    signer: Bytes, key: SigningKey, epoch: nat)
    requires Inv(j, issued) && |k.events| < U64_LIMIT
    ensures var (j', r) := ObserveVerified(p, j, k, policy, signer, key, epoch); Inv(j', issued + ReceiptsOf(r))
  {
    if Verify(p, k).Ok? {
      HeadInv(p, j, issued, k, policy, signer, key, epoch);
    } else {
      assert issued + {} == issued;
    }
  }

  lemma DeclaredIsObserved(p: Primitives, j: Journal, k: Kel, signer: Bytes, key: SigningKey, epoch: nat)
    requires Verified(p, k) && DeclaredPolicy(p, k.events).Some?
    ensures ObserveDeclared(p, j, k, signer, key, epoch)
            == Observe(p, j, k.events[|k.events| - 1], DeclaredPolicy(p, k.events).value, signer, key, epoch)
  {
  }

  lemma DeclaredInv(p: Primitives, j: Journal, issued: set<Receipt>, k: Kel, signer: Bytes, key: SigningKey, epoch: nat)
    requires Inv(j, issued) && |k.events| < U64_LIMIT
    ensures var (j', r) := ObserveDeclared(p, j, k, signer, key, epoch); Inv(j', issued + ReceiptsOf(r))
  {
    var policy := DeclaredPolicy(p, k.events);
    if Verify(p, k).Ok? && policy.Some? {
      DeclaredIsObserved(p, j, k, signer, key, epoch);
      HeadInv(p, j, issued, k, policy.value, signer, key, epoch);
    } else {
      assert issued + {} == issued;
    }
  }

  lemma StepInv(p: Primitives, j: Journal, issued: set<Receipt>, c: Call)
    requires Inv(j, issued) && BelowLastSequence(c)
    ensures Inv(Step(p, j, c).0, issued + Step(p, j, c).1)
  {
    match c {
      case CallObserve(e, policy, signer, key, epoch) => ObserveInv(p, j, issued, e, policy, signer, key, epoch);
      case CallVerified(k, policy, signer, key, epoch) => VerifiedInv(p, j, issued, k, policy, signer, key, epoch);
      case CallDeclared(k, signer, key, epoch) => DeclaredInv(p, j, issued, k, signer, key, epoch);
      case CallCertify(k, signer, key, epoch) => CertifyInv(p, j, issued, k, signer, key, epoch);
    }
  }

  lemma {:induction false} RunInv(p: Primitives, calls: seq<Call>)
    requires forall i :: 0 <= i < |calls| ==> BelowLastSequence(calls[i])
    ensures Inv(RunJournal(p, calls), Issued(p, calls))
  {
    if calls != [] {
      var n := |calls| - 1;
      RunInv(p, calls[..n]);
      StepInv(p, RunJournal(p, calls[..n]), Issued(p, calls[..n]), calls[n]);
    }
  }

  /* ---- the equivocation proof ---- */

  function AssembleEquivocation(a: Receipt, b: Receipt): Verdict<(Bytes, Receipt, Receipt)> {
    if a.statement.signer != b.statement.signer || a.statement.identity != b.statement.identity
       || a.statement.sequence != b.statement.sequence || a.statement.generation != b.statement.generation
       || a.statement.eventDigest == b.statement.eventDigest
    then Err(WitnessEquivocationMismatch)
    else Ok((a.statement.signer, a, b))
  }

  /**
   Over every interleaving of observations and certifications, all receipts for one identity
   and sequence carry one digest, so no two of them make an equivocation proof.
   */
  lemma JournalNeverEquivocates(p: Primitives, calls: seq<Call>, a: Receipt, b: Receipt)
    requires forall i :: 0 <= i < |calls| ==> BelowLastSequence(calls[i])
    requires a in Issued(p, calls) && b in Issued(p, calls)
    ensures Consistent(a.statement, b.statement)
    ensures AssembleEquivocation(a, b).Err?
  {
    RunInv(p, calls);
  }

  /** In every reachable journal the conflict branch produces its proof: assembling it cannot fail. */
  ghost predicate StatesWellFormed(p: Primitives, j: Journal) {
    forall id :: id in j.states ==>
      var s := j.states[id];
      id == DidOf(s.event.scid) && s.event.sn == s.sequence && p.digest(s.event) == s.digest
  }

  lemma {:induction false} RunWellFormed(p: Primitives, calls: seq<Call>)
    ensures StatesWellFormed(p, RunJournal(p, calls))
  {
    if calls != [] {
      var before := RunJournal(p, calls[..|calls| - 1]);
      RunWellFormed(p, calls[..|calls| - 1]);
      match calls[|calls| - 1] {
        case CallObserve(e, policy, signer, key, epoch) => ObserveWellFormed(p, before, e, policy, signer, key, epoch);
        case CallVerified(k, policy, signer, key, epoch) =>
          if Verify(p, k).Ok? { ObserveWellFormed(p, before, k.events[|k.events| - 1], policy, signer, key, epoch); }
        case CallDeclared(k, signer, key, epoch) =>
          var policy := DeclaredPolicy(p, k.events);
          if Verify(p, k).Ok? && policy.Some? {
            ObserveWellFormed(p, before, k.events[|k.events| - 1], policy.value, signer, key, epoch);
          }
        case CallCertify(_, _, _, _) =>
      }
    }
  }

  lemma ObserveWellFormed(p: Primitives, j: Journal, e: Event, policy: WitnessPolicy, signer: Bytes, key: SigningKey,
                          epoch: nat)
    requires StatesWellFormed(p, j)
    ensures StatesWellFormed(p, Observe(p, j, e, policy, signer, key, epoch).0)
  {
  }

  /** The conflict branch, in a journal whose states match their events. */
  lemma ConflictReply(p: Primitives, j: Journal, e: Event, policy: WitnessPolicy, signer: Bytes, key: SigningKey,
                      epoch: nat)
    requires StatesWellFormed(p, j) && signer in policy.witnesses && p.scidOk(e.scid) && DidOf(e.scid) in j.states
    requires e.sn == j.states[DidOf(e.scid)].sequence && p.digest(e) != j.states[DidOf(e.scid)].digest
    ensures Observe(p, j, e, policy, signer, key, epoch) ==
      (j, Ok(ControllerDuplicity(DuplicityProof(DidOf(e.scid), e.sn, j.states[DidOf(e.scid)].event, e))))
  {
    DidOfInjective(j.states[DidOf(e.scid)].event.scid, e.scid);
    DidOfInverse(e.scid);
  }

  lemma ConflictYieldsProof(p: Primitives, calls: seq<Call>, e: Event, policy: WitnessPolicy, signer: Bytes,
                            key: SigningKey, epoch: nat)
    requires signer in policy.witnesses && p.scidOk(e.scid)
    requires DidOf(e.scid) in RunJournal(p, calls).states
    requires e.sn == RunJournal(p, calls).states[DidOf(e.scid)].sequence
    requires p.digest(e) != RunJournal(p, calls).states[DidOf(e.scid)].digest
    ensures var j := RunJournal(p, calls);
      Observe(p, j, e, policy, signer, key, epoch) ==
        (j, Ok(ControllerDuplicity(DuplicityProof(DidOf(e.scid), e.sn, j.states[DidOf(e.scid)].event, e))))
  {
    RunWellFormed(p, calls);
    ConflictReply(p, RunJournal(p, calls), e, policy, signer, key, epoch);
  }
}
