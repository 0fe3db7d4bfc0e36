/** What a verified log is, event by event, and whose keys stand behind each of its events. */
module KelMeaning {
  import opened Prelude
  import opened Events
  import opened Identity
  import opened KeyEventLog

  /** The last event up to `i` that establishes keys, or 0 if there is none. */
  function Governor(events: seq<Event>, i: nat): (g: nat)
    requires i < |events|
    ensures g <= i && (Establishes(events[g]) || g == 0)
    ensures forall j :: g < j <= i ==> !Establishes(events[j])
  {
    if i == 0 || Establishes(events[i]) then i else Governor(events, i - 1)
  }

  /** Enough of the establishment's own distinct keys signed the event. */
  predicate SignedUnder(p: Primitives, est: Establishment, e: Event) {
    |Signers(p, p.signingBytes(e), est.keys, e.signatures)| >= est.threshold
  }

  predicate EstablishmentOk(p: Primitives, est: Establishment) {
    && NoDup(est.keys) && 1 <= est.threshold <= |est.keys|
    && NoDup(est.next) && 1 <= est.nextThreshold <= |est.next|
    && (forall i :: 0 <= i < |est.next| ==> p.multihashOk(est.next[i]))
    && NoDup(est.witnesses)
    && if est.witnesses == [] then est.witnessThreshold == 0 else 1 <= est.witnessThreshold <= |est.witnesses|
  }

  /** The inception: unchained, self-certifying, delegated by somebody else or by nobody, self-signed. */
  predicate FirstOk(p: Primitives, scid: Bytes, e: Event) {
    && (e.kind.Inception? || e.kind.DelegatedInception?) && EstablishmentOk(p, e.kind.est)
    && e.sn == 0 && e.prior == [] && e.scid == scid == p.scidOf(e) && IsDid(p, DidOf(scid))
    && (e.kind.DelegatedInception? ==> IsDid(p, e.kind.delegator) && e.kind.delegator != DidOf(scid))
    && SignedUnder(p, e.kind.est, e)
  }

  /** The rotation's keys and threshold are those the standing establishment committed to. */
  predicate Opens(p: Primitives, before: Establishment, est: Establishment) {
    && est.threshold == before.nextThreshold && |est.keys| == |before.next|
    && forall i :: 0 <= i < |est.keys| ==> p.commitment(est.keys[i]) == before.next[i]
  }

  /** A later event: in place, chained, not an inception, and signed by whoever is in control after it. */
  predicate LaterOk(p: Primitives, scid: Bytes, events: seq<Event>, i: nat)
    requires 0 < i < |events|
  {
    var e, standing := events[i], events[Governor(events, i - 1)];
    && e.scid == scid && e.sn == i && e.prior == p.digest(events[i - 1])
    && Establishes(standing) && !e.kind.Inception? && !e.kind.DelegatedInception?
    && if e.kind.Rotation?
       then EstablishmentOk(p, e.kind.est) && Opens(p, standing.kind.est, e.kind.est) && SignedUnder(p, e.kind.est, e)
       else SignedUnder(p, standing.kind.est, e)
  }

  predicate EventOk(p: Primitives, scid: Bytes, events: seq<Event>, i: nat)
    requires i < |events|
  {
    if i == 0 then FirstOk(p, scid, events[0]) else LaterOk(p, scid, events, i)
  }

  predicate AllOk(p: Primitives, scid: Bytes, events: seq<Event>, n: nat)
    requires n <= |events|
  {
    forall i :: 0 <= i < n ==> EventOk(p, scid, events, i)
  }

  lemma AllOkStep(p: Primitives, scid: Bytes, events: seq<Event>, n: nat)
    requires n < |events|
    ensures AllOk(p, scid, events, n + 1) <==> AllOk(p, scid, events, n) && EventOk(p, scid, events, n)
  {
  }

  /** The working state an establishment leaves behind, with the chain at `tip`. */
  function CursorOf(est: Establishment, tip: Bytes): Cursor {
    Cursor(est.keys, est.threshold, est.next, est.nextThreshold, tip)
  }

  lemma EstablishmentIff(p: Primitives, est: Establishment)
    ensures EstablishmentFailure(p, est).None? <==> EstablishmentOk(p, est)
  {
    ValidEstablishmentMeaning(p, est);
  }

  lemma DelegatorIff(p: Primitives, scid: Bytes, delegator: Bytes)
    requires IsDid(p, delegator)
    ensures ScidPart(delegator) == scid <==> delegator == DidOf(scid)
  {
    DidOfInverse(scid);
    assert delegator == METHOD + ScidPart(delegator);
  }

  lemma BeginIff(p: Primitives, scid: Bytes, e: Event)
    ensures Begin(p, scid, e).Ok? <==> FirstOk(p, scid, e)
    ensures Begin(p, scid, e).Ok? ==> Begin(p, scid, e).value == CursorOf(e.kind.est, p.digest(e))
  {
    if e.kind.Inception? || e.kind.DelegatedInception? { EstablishmentIff(p, e.kind.est); }
    if e.kind.DelegatedInception? && IsDid(p, e.kind.delegator) { DelegatorIff(p, scid, e.kind.delegator); }
  }

  lemma AdvanceIff(p: Primitives, scid: Bytes, events: seq<Event>, i: nat)
    requires 0 < i < |events|
    requires var standing := events[Governor(events, i - 1)]; Establishes(standing) && standing.kind.est.threshold > 0
    ensures var c := CursorOf(events[Governor(events, i - 1)].kind.est, p.digest(events[i - 1]));
      var r := Advance(p, scid, c, i, events[i]);
      && (r.Ok? <==> LaterOk(p, scid, events, i))
      && (r.Ok? ==> Establishes(events[Governor(events, i)])
                    && r.value == CursorOf(events[Governor(events, i)].kind.est, p.digest(events[i])))
  {
    if events[i].kind.Rotation? { EstablishmentIff(p, events[i].kind.est); }
  }

  /** Replay succeeds exactly when every event so far is in order; control is then its governor's. */
  lemma {:induction false} ReplayIff(p: Primitives, scid: Bytes, events: seq<Event>, n: nat)
    requires n < |events|
    ensures Replay(p, scid, events, n).Ok? <==> AllOk(p, scid, events, n + 1)
    ensures Replay(p, scid, events, n).Ok? ==>
      var g := Governor(events, n);
      && Establishes(events[g]) && EstablishmentOk(p, events[g].kind.est)
      && Replay(p, scid, events, n).value == CursorOf(events[g].kind.est, p.digest(events[n]))
  {
    AllOkStep(p, scid, events, n);
    if n == 0 {
      BeginIff(p, scid, events[0]);
    } else {
      ReplayIff(p, scid, events, n - 1);
      if Replay(p, scid, events, n - 1).Ok? { AdvanceIff(p, scid, events, n); }
    }
  }

  /** A log verifies if and only if it is not empty and every one of its events is in order. */
  lemma VerifiedIff(p: Primitives, k: Kel)
    ensures Verified(p, k) <==> k.events != [] && AllOk(p, k.scid, k.events, |k.events|)
  {
    if k.events != [] { ReplayIff(p, k.scid, k.events, |k.events| - 1); }
  }

  /** The key state reported at any event is that of the establishment which governs it. */
  lemma StateIsGovernors(p: Primitives, k: Kel, i: nat)
    requires Verified(p, k) && i < |k.events|
    ensures var g := Governor(k.events, i);
      && Establishes(k.events[g])
      && var est := k.events[g].kind.est;
         KeyStateAt(p, k, i) == Ok(KeyState(est.keys, est.threshold, i, est.next, est.nextThreshold))
  {
    ReplayOk(p, k.scid, k.events, i, |k.events| - 1);
    ReplayIff(p, k.scid, k.events, i);
  }

  /** Nothing in a verified log is unsigned: the governing keys signed every event, to their threshold. */
  lemma EveryEventSigned(p: Primitives, k: Kel, i: nat)
    requires Verified(p, k) && i < |k.events|
    ensures var g := Governor(k.events, i);
      && Establishes(k.events[g])
      && |Signers(p, p.signingBytes(k.events[i]), k.events[g].kind.est.keys, k.events[i].signatures)|
         >= k.events[g].kind.est.threshold >= 1
  {
    ReplayOk(p, k.scid, k.events, i, |k.events| - 1);
    ReplayIff(p, k.scid, k.events, i);
    assert EventOk(p, k.scid, k.events, i);
  }

  /** Detached signatures pass at `sn` exactly when the log verifies and the keys governing `sn` signed to threshold. */
  lemma MessageIff(p: Primitives, k: Kel, sn: nat, msg: Bytes, sigs: seq<IndexedSig>)
    ensures VerifyMessageAt(p, k, sn, msg, sigs).Ok? <==>
      && Verified(p, k) && sn < |k.events|
      && var e := k.events[Governor(k.events, sn)];
         Establishes(e) && |Signers(p, msg, e.kind.est.keys, sigs)| >= e.kind.est.threshold
  {
    if Verified(p, k) && sn < |k.events| { StateIsGovernors(p, k, sn); }
  }
}
