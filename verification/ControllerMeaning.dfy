/** What each controller operation puts into the log, and exactly when it succeeds. */
module ControllerMeaning {
  import opened Prelude
  import opened Events
  import opened Identity
  import opened KeyEventLog
  import opened KelMeaning
  import opened Delegation
  import opened Controllers
  import opened Witnesses

  /** One event was appended: chained to the head, of this kind; everything public before it is untouched. */
  predicate Appended(p: Primitives, s: Ctl, t: Ctl, kind: EventKind)
    requires s.events != []
  {
    && |t.events| == |s.events| + 1 && s.events <= t.events
    && t.scid == s.scid && t.suite == s.suite && t.delegator == s.delegator
    && var last := t.events[|s.events|];
       && last.kind == kind && last.suite == s.suite && last.scid == s.scid && last.sn == |s.events|
       && last.prior == p.digest(s.events[|s.events| - 1])
  }

  predicate SameKeys(s: Ctl, t: Ctl) {
    t.current == s.current && t.threshold == s.threshold && t.next == s.next && t.nextThreshold == s.nextThreshold
  }

  /** The committed keys are now in control, and these are committed to. */
  predicate Promoted(s: Ctl, t: Ctl, newNext: seq<SigningKey>, newThreshold: nat) {
    && t.current == s.next && t.threshold == s.nextThreshold
    && t.next == newNext && t.nextThreshold == newThreshold
  }

  /** The establishment a rotation publishes. */
  predicate Publishes(p: Primitives, s: Ctl, est: Establishment, newNext: seq<SigningKey>, newThreshold: nat,
                      witnesses: seq<Bytes>, witnessThreshold: nat) {
    && |est.keys| == |s.next| && (forall i :: 0 <= i < |s.next| ==> est.keys[i] == p.publicKey(s.next[i]))
    && est.threshold == s.nextThreshold
    && |est.next| == |newNext|
    && (forall i :: 0 <= i < |newNext| ==> est.next[i] == p.commitment(p.publicKey(newNext[i])))
    && est.nextThreshold == newThreshold && est.witnesses == witnesses && est.witnessThreshold == witnessThreshold
  }

  /** A rotation succeeds exactly when what it would publish is admissible, and publishes exactly that. */
  ghost predicate RotatesTo(p: Primitives, s: Ctl, r: Verdict<Ctl>, newNext: seq<SigningKey>, newThreshold: nat,
                            witnesses: seq<Bytes>, witnessThreshold: nat)
    requires s.events != []
  {
    exists est: Establishment ::
      && Publishes(p, s, est, newNext, newThreshold, witnesses, witnessThreshold)
      && (r.Ok? <==> EstablishmentOk(p, est))
      && (r.Ok? ==> Appended(p, s, r.value, Rotation(est)) && Promoted(s, r.value, newNext, newThreshold))
  }

  lemma RotatedExactly(p: Primitives, s: Ctl, newNext: seq<SigningKey>, t: nat, witnesses: seq<Bytes>, wt: nat)
    requires s.events != []
    ensures RotatesTo(p, s, Rotated(p, s, newNext, t, witnesses, wt), newNext, t, witnesses, wt)
  {
    var est := RotationFor(p, s, newNext, t, witnesses, wt);
    EstablishmentIff(p, est);
    assert Publishes(p, s, est, newNext, t, witnesses, wt);
  }

  /** Every public operation, with what the caller asked for in the event it appends. */
  lemma PerformedExactly(p: Primitives, s: Ctl, op: Operation)
    requires s.events != []
    ensures var r := Perform(p, s, op);
      match op
      case Rotate(newNext, t) => RotatesTo(p, s, r, newNext, t, [], 0)
      case RotateKeeping(generated) => RotatesTo(p, s, r, generated, s.nextThreshold, [], 0)
      case Appoint(generated, witnesses, wt) => RotatesTo(p, s, r, generated, s.nextThreshold, witnesses, wt)
      case Interact(anchors) =>
        && (r.Ok? <==> |anchors| <= 128)
        && (r.Ok? ==> Appended(p, s, r.value, Interaction(anchors)) && SameKeys(s, r.value))
      case Seals(seals) =>
        && (r.Ok? <==> |seals| <= 128 && forall i :: 0 <= i < |seals| ==> IsDid(p, seals[i].device))
        && (r.Ok? ==> Appended(p, s, r.value, SealEvent(seals)) && SameKeys(s, r.value))
  {
    match op {
      case Rotate(newNext, t) => RotatedExactly(p, s, newNext, t, [], 0);
      case RotateKeeping(generated) => RotatedExactly(p, s, generated, s.nextThreshold, [], 0);
      case Appoint(generated, witnesses, wt) => RotatedExactly(p, s, generated, s.nextThreshold, witnesses, wt);
      case Interact(_) =>
      case Seals(seals) => SealFailureIff(p, seals);
    }
  }

  lemma {:induction false} SealFailureIff(p: Primitives, seals: seq<Seal>)
    ensures SealFailure(p, seals).None? <==> forall i :: 0 <= i < |seals| ==> IsDid(p, seals[i].device)
  {
    if seals != [] {
      SealFailureIff(p, seals[1..]);
      assert forall i :: 0 < i < |seals| ==> seals[i] == seals[1..][i - 1];
      if SealFailure(p, seals).None? {
        forall i | 0 <= i < |seals| ensures IsDid(p, seals[i].device) {
          if i > 0 { assert IsDid(p, seals[1..][i - 1].device); }
        }
      }
    }
  }

  /* ---- what a verifier then reads from the log ---- */

  lemma PolicyAfterRotation(p: Primitives, s: Ctl, t: Ctl, est: Establishment)
    requires s.events != [] && Appended(p, s, t, Rotation(est))
    ensures DeclaredPolicy(p, t.events) ==
      if DeclaresWitnesses(p, est) then Some(WitnessPolicy(|s.events|, est.witnesses, est.witnessThreshold)) else None
  {
    LastEstablishmentDecides(p, t.events, |s.events|);
  }

  /** Appointing well-named witnesses makes exactly them, at that threshold, the log's declared policy. */
  lemma AppointedPolicy(p: Primitives, s: Ctl, generated: seq<SigningKey>, witnesses: seq<Bytes>, wt: nat)
    requires s.events != [] && Perform(p, s, Appoint(generated, witnesses, wt)).Ok?
    ensures var t := Perform(p, s, Appoint(generated, witnesses, wt)).value;
      DeclaredPolicy(p, t.events) ==
        if witnesses != [] && |witnesses| <= 64
           && forall i :: 0 <= i < |witnesses| ==> p.utf8(witnesses[i]) && IsDid(p, witnesses[i])
        then Some(WitnessPolicy(|s.events|, witnesses, wt)) else None
  {
    PerformedExactly(p, s, Appoint(generated, witnesses, wt));
    var t := Perform(p, s, Appoint(generated, witnesses, wt)).value;
    var est: Establishment :| Publishes(p, s, est, generated, s.nextThreshold, witnesses, wt)
                              && EstablishmentOk(p, est) && Appended(p, s, t, Rotation(est));
    PolicyAfterRotation(p, s, t, est);
  }

  /** An ordinary rotation retires whatever policy stood before it. */
  lemma RotationRetires(p: Primitives, s: Ctl, op: Operation)
    requires s.events != [] && (op.Rotate? || op.RotateKeeping?) && Perform(p, s, op).Ok?
    ensures DeclaredPolicy(p, Perform(p, s, op).value.events).None?
  {
    PerformedExactly(p, s, op);
    var t := Perform(p, s, op).value;
    var newNext := if op.Rotate? then op.newNext else op.generated;
    var nt := if op.Rotate? then op.newThreshold else s.nextThreshold;
    var est: Establishment :| Publishes(p, s, est, newNext, nt, [], 0) && Appended(p, s, t, Rotation(est));
    PolicyAfterRotation(p, s, t, est);
  }

  /** Interactions and seals leave the declared policy and the seals before them as they were. */
  lemma AnchoringKeeps(p: Primitives, s: Ctl, op: Operation)
    requires s.events != [] && (op.Interact? || op.Seals?) && Perform(p, s, op).Ok?
    ensures var t := Perform(p, s, op).value;
      && DeclaredPolicy(p, t.events) == DeclaredPolicy(p, s.events)
      && SealsOf(t.events) == SealsOf(s.events) + if op.Seals? then op.seals else []
  {
    PerformedExactly(p, s, op);
    var t := Perform(p, s, op).value;
    assert t.events[..|t.events| - 1] == s.events;
  }

  /* ---- beginnings ---- */

  /** Inception succeeds exactly when its establishment is admissible, and publishes what it was given. */
  lemma InceptedExactly(p: Primitives, current: seq<SigningKey>, t: nat, next: seq<SigningKey>, nt: nat,
                        delegator: Option<Bytes>)
    ensures var r := Incept(p, current, t, next, nt, delegator);
      var est := Establishment(PublicKeys(p, current), t, Commitments(p, next), nt, [], 0);
      && (r.Ok? <==> EstablishmentOk(p, est))
      && (r.Ok? ==>
            var s := r.value;
            && s.current == current && s.threshold == t && s.next == next && s.nextThreshold == nt
            && s.delegator == delegator && |s.events| == 1
            && s.events[0].kind == (match delegator case None => Inception(est)
                                                    case Some(d) => DelegatedInception(est, d))
            && s.events[0].sn == 0 && s.events[0].prior == [] && s.events[0].scid == s.scid)
  {
    EstablishmentIff(p, Establishment(PublicKeys(p, current), t, Commitments(p, next), nt, [], 0));
  }

  /** Restoring succeeds exactly for keys that match the log's own state, which the controller then resumes. */
  lemma RestoredExactly(p: Primitives, k: Kel, current: seq<SigningKey>, next: seq<SigningKey>)
    ensures var r := Restore(p, k, current, next);
      && (r.Ok? <==>
            && current != [] && next != [] && Verified(p, k)
            && PublicKeys(p, current) == Verify(p, k).value.keys
            && Commitments(p, next) == Verify(p, k).value.nextCommitments)
      && (r.Ok? ==>
            var s := r.value;
            Good(p, s) && LogOf(s) == k && s.current == current && s.next == next && s.delegator == Delegator(p, k))
  {
  }

  /** Recovering appends one rotation to the recovered keys, which declares no witnesses. */
  lemma RecoveredExactly(p: Primitives, k: Kel, recovered: seq<SigningKey>, newNext: seq<SigningKey>, t: nat)
    requires Recover(p, k, recovered, newNext, t).Ok?
    ensures var s := Recover(p, k, recovered, newNext, t).value;
      && s.current == recovered && s.next == newNext && s.nextThreshold == t
      && |s.events| == |k.events| + 1 && k.events <= s.events
      && s.events[|k.events|].kind == Rotation(
           Establishment(PublicKeys(p, recovered), s.threshold, Commitments(p, newNext), t, [], 0))
      && s.threshold == Verify(p, k).value.nextThreshold && DeclaredPolicy(p, s.events).None?
  {
    LastEstablishmentDecides(p, Recover(p, k, recovered, newNext, t).value.events, |k.events|);
  }
}
