/** The mutable witness journal, each method tied to its step of the journal state machine. */
module WitnessJournalObjects {
  import opened Prelude
  import opened Codec
  import opened Events
  import opened Identity
  import opened KeyEventLog
  import opened Witnesses
  import opened Fork
  import opened WitnessJournals

  class WitnessJournal {
    var states: map<Bytes, IdentityState>
    var certified: map<TransitionKey, Bytes>

    function View(): Journal
      reads this
    {
      Journal(states, certified)
    }

    constructor ()
      ensures View() == EMPTY
    {
      states, certified := map[], map[];
    }

    method AcceptEvent(p: Primitives, e: Event, policy: WitnessPolicy, signer: Bytes, key: SigningKey, epoch: nat)
      returns (r: Verdict<Observation>)
      modifies this`states
      ensures (View(), r) == Accept(p, old(View()), e, policy, signer, key, epoch)
    {
      var id := DidOf(e.scid);
      if id in states {
        var reserved := TransitionKey(id, e.prior, states[id].policy.generation);
        if reserved in certified && certified[reserved] != p.digest(e) {
          return Err(ConflictingPolicyTransitionCertification);
        }
      }
      var receipt := SignStatement(p, StatementFor(p, e, policy.generation, signer, epoch), key);
      states := states[id := IdentityState(e.sn, p.digest(e), e, receipt, policy)];
      return Ok(Accepted(receipt));
    }

    method ObserveEvent(p: Primitives, e: Event, policy: WitnessPolicy, signer: Bytes, key: SigningKey, epoch: nat)
      returns (r: Verdict<Observation>)
      modifies this`states
      ensures (View(), r) == Observe(p, old(View()), e, policy, signer, key, epoch)
    {
      if signer !in policy.witnesses { return Err(WitnessNotInPolicy); }
      if !p.scidOk(e.scid) { return Err(Crypto); }
      var id := DidOf(e.scid);
      if id !in states { r := AcceptEvent(p, e, policy, signer, key, epoch); return; }
      var s := states[id];
      if e.sn == s.sequence && p.digest(e) == s.digest { return Ok(AlreadyAccepted(s.receipt)); }
      if e.sn == Succ(s.sequence) && e.prior == s.digest {
        r := AcceptEvent(p, e, policy, signer, key, epoch);
        return;
      }
      if e.sn < s.sequence { return Ok(Stale(s.sequence)); }
      if e.sn == s.sequence {
        var proof := AssembleDuplicity(p, id, s.event, e);
        return if proof.Ok? then Ok(ControllerDuplicity(proof.value)) else Err(proof.error);
      }
      return Err(WitnessConflictingDescendant);
    }

    /** The whole presented log is verified before its head touches the journal. */
    method ObserveVerifiedLog(p: Primitives, k: Kel, policy: WitnessPolicy, signer: Bytes, key: SigningKey, epoch: nat)
      returns (r: Verdict<Observation>)
      modifies this`states
      ensures (View(), r) == ObserveVerified(p, old(View()), k, policy, signer, key, epoch)
    {
      var v := RunVerifyThrough(p, k, if k.events == [] then 0 else |k.events| - 1);
      if v.Err? { return Err(v.error); }
      r := ObserveEvent(p, k.events[|k.events| - 1], policy, signer, key, epoch);
    }

    /** The policy is read from the verified log, never from the caller. */
    method ObserveDeclaredLog(p: Primitives, k: Kel, signer: Bytes, key: SigningKey, epoch: nat)
      returns (r: Verdict<Observation>)
      modifies this`states
      ensures (View(), r) == ObserveDeclared(p, old(View()), k, signer, key, epoch)
    {
      var v := RunVerifyThrough(p, k, if k.events == [] then 0 else |k.events| - 1);
      if v.Err? { return Err(v.error); }
      var policy := FindDeclaredPolicy(p, k.events);
      if policy.None? { return Err(NoWitnessPolicyDeclared); }
      r := ObserveEvent(p, k.events[|k.events| - 1], policy.value, signer, key, epoch);
    }

    /** Certifying records the successor; the accepted head stays where it was. */
    method CertifyPolicyTransition(p: Primitives, k: Kel, signer: Bytes, key: SigningKey, epoch: nat)
      returns (r: Verdict<Receipt>)
      modifies this`certified
      ensures (View(), r) == Certify(p, old(View()), k, signer, key, epoch)
    {
      var v := RunVerifyThrough(p, k, if k.events == [] then 0 else |k.events| - 1);
      if v.Err? { return Err(v.error); }
      var id := DidOf(k.scid);
      if id !in states { return Err(NoRetainedWitnessState); }
      var s := states[id];
      var e := k.events[|k.events| - 1];
      if e.sn != Succ(s.sequence) || e.prior != s.digest { return Err(WitnessConflictingDescendant); }
      if signer !in s.policy.witnesses { return Err(WitnessNotInPolicy); }
      var declared := FindDeclaredPolicy(p, k.events);
      if !IsPolicyChange(s.policy, declared) { return Err(NotAWitnessPolicyChange); }
      var slot := TransitionKey(id, e.prior, s.policy.generation);
      if slot in certified && certified[slot] != p.digest(e) {
        return Err(ConflictingPolicyTransitionCertification);
      }
      certified := certified[slot := p.digest(e)];
      return Ok(SignStatement(p, StatementFor(p, e, s.policy.generation, signer, epoch).(identity := id), key));
    }
  }
}
