/** The secret-holding controller: every operation it performs keeps its public log verifiable. */
module Controllers {
  import opened Prelude
  import opened Codec
  import opened Events
  import opened Identity
  import opened KeyEventLog
  import opened Delegation

  const MAX_ANCHORS := 128
  const MAX_SEALS := 128

  datatype Ctl = Ctl(
    scid: Bytes, suite: byte,
    current: seq<SigningKey>, threshold: nat,
    next: seq<SigningKey>, nextThreshold: nat,
    delegator: Option<Bytes>, events: seq<Event>)

  function LogOf(s: Ctl): Kel { Kel(s.scid, s.events) }

  function KeyStateOf(p: Primitives, s: Ctl): KeyState
    requires s.events != []
  {
    KeyState(PublicKeys(p, s.current), s.threshold, |s.events| - 1, Commitments(p, s.next), s.nextThreshold)
  }

  function Signed(p: Primitives, e: Event, signers: seq<SigningKey>): Event {
    e.(signatures := SignAll(p, signers, p.signingBytes(e)))
  }

  function NextEvent(p: Primitives, s: Ctl, kind: EventKind): Event
    requires s.events != []
  {
    Event(s.suite, s.scid, |s.events|, p.digest(s.events[|s.events| - 1]), kind, [])
  }

  function Append(p: Primitives, s: Ctl, kind: EventKind, signers: seq<SigningKey>): Ctl
    requires s.events != []
  {
    s.(events := s.events + [Signed(p, NextEvent(p, s, kind), signers)])
  }

  /* ---- operations ---- */

  function RotationFor(p: Primitives, s: Ctl, newNext: seq<SigningKey>, t: nat,
                       witnesses: seq<Bytes>, wt: nat): Establishment {
    Establishment(PublicKeys(p, s.next), s.nextThreshold, Commitments(p, newNext), t, witnesses, wt)
  }

  function Rotated(p: Primitives, s: Ctl, newNext: seq<SigningKey>, t: nat,
                   witnesses: seq<Bytes>, wt: nat): Verdict<Ctl>
    requires s.events != []
  {
    var _ :- Check(newNext != [], EmptyKeySet);
    var est := RotationFor(p, s, newNext, t, witnesses, wt);
    var _ :- Checked(EstablishmentFailure(p, est));
    Ok(Append(p, s, Rotation(est), s.next).(current := s.next, threshold := s.nextThreshold,
                                            next := newNext, nextThreshold := t))
  }

  function Interacted(p: Primitives, s: Ctl, anchors: seq<Anchor>): Verdict<Ctl>
    requires s.events != []
  {
    var _ :- Check(|anchors| <= MAX_ANCHORS, TooManyItems);
    Ok(Append(p, s, Interaction(anchors), s.current))
  }

  /** Why the first ill-named seal, if any, is refused. */
  function SealFailure(p: Primitives, seals: seq<Seal>): Option<IdentityError> {
    if seals == [] then None
    else if DidFailure(p, seals[0].device).Some? then DidFailure(p, seals[0].device)
    else SealFailure(p, seals[1..])
  }

  function Sealed(p: Primitives, s: Ctl, seals: seq<Seal>): Verdict<Ctl>
    requires s.events != []
  {
    var _ :- Check(|seals| <= MAX_SEALS, TooManyItems);
    var _ :- Checked(SealFailure(p, seals));
    Ok(Append(p, s, SealEvent(seals), s.current))
  }

  /** The public calls that change a controller.  Key generation supplies `generated` and `newNext`. */
  datatype Operation =
    | Rotate(newNext: seq<SigningKey>, newThreshold: nat)
    | RotateKeeping(generated: seq<SigningKey>)
    | Appoint(generated: seq<SigningKey>, witnesses: seq<Bytes>, witnessThreshold: nat)
    | Interact(anchors: seq<Anchor>)
    | Seals(seals: seq<Seal>)

  function Perform(p: Primitives, s: Ctl, op: Operation): Verdict<Ctl>
    requires s.events != []
  {
    match op
    case Rotate(newNext, t) => Rotated(p, s, newNext, t, [], 0)
    case RotateKeeping(generated) => Rotated(p, s, generated, s.nextThreshold, [], 0)
    case Appoint(generated, witnesses, wt) => Rotated(p, s, generated, s.nextThreshold, witnesses, wt)
    case Interact(anchors) => Interacted(p, s, anchors)
    case Seals(seals) => Sealed(p, s, seals)
  }

  /** A refused call leaves the controller as it was. */
  function After(p: Primitives, s: Ctl, op: Operation): (t: Ctl)
    requires s.events != []
    ensures s.events <= t.events && t.scid == s.scid && t.delegator == s.delegator
  {
    var r := Perform(p, s, op);
    if r.Ok? then r.value else s
  }

  function Run(p: Primitives, s: Ctl, ops: seq<Operation>): (t: Ctl)
    requires s.events != []
    ensures s.events <= t.events && t.scid == s.scid
    decreases |ops|
  {
    if ops == [] then s else Run(p, After(p, s, ops[0]), ops[1..])
  }

  /* ---- the invariant ---- */

  /** The public log verifies, to exactly the key state the controller believes it has. */
  ghost predicate Good(p: Primitives, s: Ctl) {
    s.events != [] && Verify(p, LogOf(s)) == Ok(KeyStateOf(p, s))
  }

  lemma ReplayAppend(p: Primitives, scid: Bytes, events: seq<Event>, e: Event, c: Cursor)
    requires events != [] && Replay(p, scid, events, |events| - 1) == Ok(c)
    ensures Replay(p, scid, events + [e], |events|) == Advance(p, scid, c, |events|, e)
  {
    assert (events + [e])[..|events|] == events;
    ReplayLocal(p, scid, events, events + [e], |events| - 1);
  }

  /** The verifier's working state at a good controller's head. */
  lemma HeadCursor(p: Primitives, s: Ctl) returns (c: Cursor)
    requires Good(p, s)
    ensures Replay(p, s.scid, s.events, |s.events| - 1) == Ok(c) && CursorSound(p, c)
    ensures c == Cursor(PublicKeys(p, s.current), s.threshold, Commitments(p, s.next), s.nextThreshold,
                        p.digest(s.events[|s.events| - 1]))
  {
    c := Replay(p, s.scid, s.events, |s.events| - 1).value;
    ReplaySound(p, s.scid, s.events, |s.events| - 1);
  }

  lemma SignedMeets(p: Primitives, e: Event, signers: seq<SigningKey>, t: nat)
    requires Sound(p) && NoDup(PublicKeys(p, signers)) && 1 <= t <= |signers|
    ensures MeetsThreshold(p, Signed(p, e, signers), PublicKeys(p, signers), t)
  {
    SignAllMeets(p, signers, p.signingBytes(e));
    assert p.signingBytes(Signed(p, e, signers)) == p.signingBytes(e);
  }

  lemma AdvanceRotation(p: Primitives, scid: Bytes, c: Cursor, sn: nat, e: Event)
    requires e.scid == scid && e.sn == sn && e.prior == c.tip && e.kind.Rotation?
    requires ValidEstablishment(p, e.kind.est) && e.kind.est.threshold == c.nextThreshold
    requires Reveals(p, e.kind.est.keys, c.next)
    requires MeetsThreshold(p, e, e.kind.est.keys, e.kind.est.threshold)
    ensures Advance(p, scid, c, sn, e) == Ok(Adopt(p, e.kind.est, e))
  {
  }

  lemma AdvanceAnchored(p: Primitives, scid: Bytes, c: Cursor, sn: nat, e: Event)
    requires e.scid == scid && e.sn == sn && e.prior == c.tip && (e.kind.Interaction? || e.kind.SealEvent?)
    requires MeetsThreshold(p, e, c.keys, c.threshold)
    ensures Advance(p, scid, c, sn, e) == Ok(c.(tip := p.digest(e)))
  {
  }

  /** A controller whose keys match the verifier's working state at its head is good. */
  lemma GoodFromCursor(p: Primitives, s: Ctl, events: seq<Event>, e: Event, c: Cursor)
    requires s.events == events + [e] && Replay(p, s.scid, events + [e], |events|) == Ok(c)
    requires c.keys == PublicKeys(p, s.current) && c.threshold == s.threshold
    requires c.next == Commitments(p, s.next) && c.nextThreshold == s.nextThreshold
    ensures Good(p, s)
  {
  }

  /** Appending a rotation signed by the committed next keys is accepted by the verifier. */
  lemma RotationAccepted(p: Primitives, s: Ctl, signers: seq<SigningKey>, est: Establishment, c: Cursor)
    requires Sound(p) && s.events != [] && Replay(p, s.scid, s.events, |s.events| - 1) == Ok(c)
    requires c.tip == p.digest(s.events[|s.events| - 1])
    requires ValidEstablishment(p, est) && est.keys == PublicKeys(p, signers)
    requires est.threshold == c.nextThreshold && Commitments(p, signers) == c.next
    ensures var e := Signed(p, NextEvent(p, s, Rotation(est)), signers);
      Replay(p, s.scid, s.events + [e], |s.events|) == Ok(Adopt(p, est, e))
  {
    var e := Signed(p, NextEvent(p, s, Rotation(est)), signers);
    ValidEstablishmentMeaning(p, est);
    SignedMeets(p, NextEvent(p, s, Rotation(est)), signers, est.threshold);
    assert Reveals(p, est.keys, c.next) by {
      assert forall i :: 0 <= i < |signers| ==> p.commitment(est.keys[i]) == Commitments(p, signers)[i];
    }
    AdvanceRotation(p, s.scid, c, |s.events|, e);
    ReplayAppend(p, s.scid, s.events, e, c);
  }

  lemma RotatedGood(p: Primitives, s: Ctl, newNext: seq<SigningKey>, t: nat, witnesses: seq<Bytes>, wt: nat)
    requires Sound(p) && Good(p, s) && Rotated(p, s, newNext, t, witnesses, wt).Ok?
    ensures Good(p, Rotated(p, s, newNext, t, witnesses, wt).value)
  {
    var est := RotationFor(p, s, newNext, t, witnesses, wt);
    var c := HeadCursor(p, s);
    RotationAccepted(p, s, s.next, est, c);
    var e := Signed(p, NextEvent(p, s, Rotation(est)), s.next);
    GoodFromCursor(p, Rotated(p, s, newNext, t, witnesses, wt).value, s.events, e, Adopt(p, est, e));
  }

  lemma AnchorAccepted(p: Primitives, s: Ctl, kind: EventKind, c: Cursor)
    requires Sound(p) && s.events != [] && Replay(p, s.scid, s.events, |s.events| - 1) == Ok(c)
    requires c.tip == p.digest(s.events[|s.events| - 1]) && CursorSound(p, c)
    requires c.keys == PublicKeys(p, s.current) && c.threshold == s.threshold
    requires kind.Interaction? || kind.SealEvent?
    ensures var e := Signed(p, NextEvent(p, s, kind), s.current);
      Replay(p, s.scid, s.events + [e], |s.events|) == Ok(c.(tip := p.digest(e)))
  {
    var e := Signed(p, NextEvent(p, s, kind), s.current);
    SignedMeets(p, NextEvent(p, s, kind), s.current, s.threshold);
    AdvanceAnchored(p, s.scid, c, |s.events|, e);
    ReplayAppend(p, s.scid, s.events, e, c);
  }

  lemma AnchoredGood(p: Primitives, s: Ctl, kind: EventKind)
    requires Sound(p) && Good(p, s) && (kind.Interaction? || kind.SealEvent?)
    ensures Good(p, Append(p, s, kind, s.current))
  {
    var e := Signed(p, NextEvent(p, s, kind), s.current);
    var c := HeadCursor(p, s);
    assert Replay(p, s.scid, s.events + [e], |s.events|) == Ok(c.(tip := p.digest(e))) by {
      AnchorAccepted(p, s, kind, c);
    }
    GoodFromCursor(p, Append(p, s, kind, s.current), s.events, e, c.(tip := p.digest(e)));
  }

  lemma AfterGood(p: Primitives, s: Ctl, op: Operation)
    requires Sound(p) && Good(p, s)
    ensures Good(p, After(p, s, op))
  {
    if Perform(p, s, op).Ok? {
      match op {
        case Rotate(newNext, t) => RotatedGood(p, s, newNext, t, [], 0);
        case RotateKeeping(generated) => RotatedGood(p, s, generated, s.nextThreshold, [], 0);
        case Appoint(generated, witnesses, wt) => RotatedGood(p, s, generated, s.nextThreshold, witnesses, wt);
        case Interact(anchors) => AnchoredGood(p, s, Interaction(anchors));
        case Seals(seals) => AnchoredGood(p, s, SealEvent(seals));
      }
    }
  }

  /**
   After any run of operations the log verifies to the controller's own key state, the earlier
   log is a prefix of it, and every earlier key state is still what the log reports.
   */
  lemma {:induction false} RunKeepsLogValid(p: Primitives, s: Ctl, ops: seq<Operation>, sn: nat)
    requires Sound(p) && Good(p, s) && sn < |s.events|
    ensures Good(p, Run(p, s, ops)) && s.events <= Run(p, s, ops).events
    ensures KeyStateAt(p, LogOf(Run(p, s, ops)), sn) == KeyStateAt(p, LogOf(s), sn)
    decreases |ops|
  {
    if ops != [] {
      AfterGood(p, s, ops[0]);
      RunKeepsLogValid(p, After(p, s, ops[0]), ops[1..], sn);
      HistoryIsStable(p, LogOf(s), LogOf(After(p, s, ops[0])), sn, [], []);
    }
  }

  /* ---- inception ---- */

  function InceptionEvent(p: Primitives, est: Establishment, suite: byte, delegator: Option<Bytes>): Event {
    Event(suite, [], 0, [],
          if delegator.None? then Inception(est) else DelegatedInception(est, delegator.value), [])
  }

  function Incept(p: Primitives, current: seq<SigningKey>, t: nat, next: seq<SigningKey>, nt: nat,
                  delegator: Option<Bytes>): Verdict<Ctl> {
    var _ :- Check(current != [] && next != [], EmptyKeySet);
    var est := Establishment(PublicKeys(p, current), t, Commitments(p, next), nt, [], 0);
    var _ :- Checked(EstablishmentFailure(p, est));
    var blank := InceptionEvent(p, est, current[0].suite, delegator);
    var scid := p.scidOf(blank);
    Ok(Ctl(scid, current[0].suite, current, t, next, nt, delegator,
           [Signed(p, blank.(scid := scid), current)]))
  }

  /** The identifier an inception with these arguments derives. */
  function DerivedScid(p: Primitives, current: seq<SigningKey>, t: nat, next: seq<SigningKey>, nt: nat,
                       delegator: Option<Bytes>): Bytes
    requires current != []
  {
    var est := Establishment(PublicKeys(p, current), t, Commitments(p, next), nt, [], 0);
    p.scidOf(InceptionEvent(p, est, current[0].suite, delegator))
  }

  /** A new identity verifies, unless the event derives the very identifier it names as its delegator. */
  lemma InceptGood(p: Primitives, current: seq<SigningKey>, t: nat, next: seq<SigningKey>, nt: nat,
                   delegator: Option<Bytes>)
    requires Sound(p) && Incept(p, current, t, next, nt, delegator).Ok?
    requires delegator.Some? ==> IsDid(p, delegator.value)
    ensures var s := Incept(p, current, t, next, nt, delegator).value;
      Good(p, s) <==> delegator != Some(DidOf(DerivedScid(p, current, t, next, nt, delegator)))
  {
    var s := Incept(p, current, t, next, nt, delegator).value;
    var est := Establishment(PublicKeys(p, current), t, Commitments(p, next), nt, [], 0);
    var blank := InceptionEvent(p, est, current[0].suite, delegator);
    ValidEstablishmentMeaning(p, est);
    SignedMeets(p, blank.(scid := s.scid), current, t);
    assert p.scidOf(s.events[0]) == p.scidOf(blank);
    DidOfInverse(s.scid);
    if delegator.Some? {
      assert delegator.value == METHOD + ScidPart(delegator.value);
    }
  }

  /** Only identifier derivation keeps that from happening: with a constant one it does happen. */
  lemma ConstantIdentifierFails(p: Primitives, current: seq<SigningKey>, t: nat, next: seq<SigningKey>, nt: nat,
                                scid: Bytes)
    requires Sound(p) && scid != [] && p.scidOk(scid) && Incept(p, current, t, next, nt, None).Ok?
    ensures var q := p.(scidOf := (e: Event) => scid); var r := Incept(q, current, t, next, nt, Some(DidOf(scid)));
      Sound(q) && r.Ok? && !Good(q, r.value)
  {
    var q := p.(scidOf := (e: Event) => scid);
    var est := Establishment(PublicKeys(p, current), t, Commitments(p, next), nt, [], 0);
    assert PublicKeys(q, current) == PublicKeys(p, current) && Commitments(q, next) == Commitments(p, next);
    NextFailureMeaning(p, est.next, |est.next|);
    NextFailureMeaning(q, est.next, |est.next|);
    DidOfInverse(scid);
    InceptGood(q, current, t, next, nt, Some(DidOf(scid)));
  }

  /* ---- recovery and restoration from a public log ---- */

  function Recover(p: Primitives, k: Kel, recovered: seq<SigningKey>, newNext: seq<SigningKey>, t: nat)
    : Verdict<Ctl>
  {
    var _ :- Check(recovered != [] && newNext != [], EmptyKeySet);
    var state :- Verify(p, k);
    var _ :- Check(Commitments(p, recovered) == state.nextCommitments, RecoveryKeysMismatch);
    var s := Ctl(k.scid, recovered[0].suite, recovered, state.nextThreshold, newNext, t, Delegator(p, k), k.events);
    var est := Establishment(PublicKeys(p, recovered), state.nextThreshold, Commitments(p, newNext), t, [], 0);
    var _ :- Checked(EstablishmentFailure(p, est));
    var result := Append(p, s, Rotation(est), recovered);
    var _ :- Verify(p, LogOf(result));
    Ok(result)
  }

  function Restore(p: Primitives, k: Kel, current: seq<SigningKey>, next: seq<SigningKey>): Verdict<Ctl> {
    var _ :- Check(current != [] && next != [], EmptyKeySet);
    var state :- Verify(p, k);
    var _ :- Check(PublicKeys(p, current) == state.keys, RestoreKeysMismatch);
    var _ :- Check(Commitments(p, next) == state.nextCommitments, RestoreKeysMismatch);
    Ok(Ctl(k.scid, current[0].suite, current, state.threshold, next, state.nextThreshold, Delegator(p, k), k.events))
  }

  /**
   The escrowed next keys recover a verified log exactly when they open its standing
   commitments and the new commitment set is admissible; one rotation is appended, and the
   final verification never fails.
   */
  lemma RecoverGood(p: Primitives, k: Kel, recovered: seq<SigningKey>, newNext: seq<SigningKey>, t: nat)
    requires Sound(p) && Verified(p, k)
    ensures Recover(p, k, recovered, newNext, t).Ok? <==>
      && Commitments(p, recovered) == Verify(p, k).value.nextCommitments
      && ValidEstablishment(p, Establishment(PublicKeys(p, recovered), Verify(p, k).value.nextThreshold,
                                             Commitments(p, newNext), t, [], 0))
    ensures Recover(p, k, recovered, newNext, t).Ok? ==>
      var s := Recover(p, k, recovered, newNext, t).value;
      Good(p, s) && s.scid == k.scid && k.events < s.events && |s.events| == |k.events| + 1
      && s.current == recovered && s.next == newNext
  {
    var state := Verify(p, k).value;
    var est := Establishment(PublicKeys(p, recovered), state.nextThreshold, Commitments(p, newNext), t, [], 0);
    ValidEstablishmentMeaning(p, est);
    if Commitments(p, recovered) == state.nextCommitments && ValidEstablishment(p, est) {
      AppendedGood(p, k, recovered, newNext, t);
    }
  }

  /** The log with the recovering rotation appended. */
  function Recovered(p: Primitives, k: Kel, recovered: seq<SigningKey>, newNext: seq<SigningKey>, t: nat): Ctl
    requires Verified(p, k) && recovered != []
  {
    var nt := Verify(p, k).value.nextThreshold;
    Append(p, Ctl(k.scid, recovered[0].suite, recovered, nt, newNext, t, Delegator(p, k), k.events),
           Rotation(Establishment(PublicKeys(p, recovered), nt, Commitments(p, newNext), t, [], 0)), recovered)
  }

  /** The verifier's working state at the head of a verified log. */
  lemma FinalCursor(p: Primitives, k: Kel) returns (c: Cursor)
    requires Verified(p, k)
    ensures Replay(p, k.scid, k.events, |k.events| - 1) == Ok(c) && Verify(p, k).value == StateOf(c, |k.events| - 1)
    ensures c.tip == p.digest(k.events[|k.events| - 1])
  {
    c := Replay(p, k.scid, k.events, |k.events| - 1).value;
    ReplaySound(p, k.scid, k.events, |k.events| - 1);
  }

  lemma AppendedGood(p: Primitives, k: Kel, recovered: seq<SigningKey>, newNext: seq<SigningKey>, t: nat)
    requires Sound(p) && Verified(p, k) && recovered != []
    requires Commitments(p, recovered) == Verify(p, k).value.nextCommitments
    requires ValidEstablishment(p, Establishment(PublicKeys(p, recovered), Verify(p, k).value.nextThreshold,
                                                 Commitments(p, newNext), t, [], 0))
    ensures Good(p, Recovered(p, k, recovered, newNext, t))
  {
    var nt := Verify(p, k).value.nextThreshold;
    var est := Establishment(PublicKeys(p, recovered), nt, Commitments(p, newNext), t, [], 0);
    var c := FinalCursor(p, k);
    var s := Ctl(k.scid, recovered[0].suite, recovered, nt, newNext, t, Delegator(p, k), k.events);
    RotationAccepted(p, s, recovered, est, c);
    var e := Signed(p, NextEvent(p, s, Rotation(est)), recovered);
    GoodFromCursor(p, Append(p, s, Rotation(est), recovered), k.events, e, Adopt(p, est, e));
  }

  /** Restoring a good controller's own keys over its own log resumes exactly that controller. */
  lemma RestoreResumes(p: Primitives, s: Ctl)
    requires Good(p, s) && s.current != [] && s.next != []
    ensures Restore(p, LogOf(s), s.current, s.next) ==
      Ok(s.(suite := s.current[0].suite, delegator := Delegator(p, LogOf(s))))
  {
  }

  /* ---- cutting off every device but the ones kept ---- */

  /** Seal a list of any length, at most MAX_SEALS to an event. */
  function SealedInChunks(p: Primitives, s: Ctl, seals: seq<Seal>): Verdict<Ctl>
    requires s.events != []
    decreases |seals|
  {
    if seals == [] then Ok(s) else
      var n := if |seals| < MAX_SEALS then |seals| else MAX_SEALS;
      var t :- Sealed(p, s, seals[..n]);
      SealedInChunks(p, t, seals[n..])
  }

  function RevokedExcept(p: Primitives, s: Ctl, keep: seq<Bytes>): Verdict<Ctl>
    requires s.events != []
  {
    SealedInChunks(p, s, Revocations(ToRevoke(p, s.events, keep)))
  }

  lemma {:induction false} SealsAccepted(p: Primitives, seals: seq<Seal>)
    requires forall x :: x in seals ==> IsDid(p, x.device)
    ensures SealFailure(p, seals).None?
  {
    if seals != [] { SealsAccepted(p, seals[1..]); }
  }

  lemma SealedOnce(p: Primitives, s: Ctl, chunk: seq<Seal>)
    requires Sound(p) && Good(p, s) && |chunk| <= MAX_SEALS && forall x :: x in chunk ==> IsDid(p, x.device)
    ensures Sealed(p, s, chunk).Ok?
    ensures var t := Sealed(p, s, chunk).value;
      Good(p, t) && s.events <= t.events && |t.events| == |s.events| + 1
      && SealsOf(t.events) == SealsOf(s.events) + chunk
  {
    SealsAccepted(p, chunk);
    AnchoredGood(p, s, SealEvent(chunk));
    var t := Append(p, s, SealEvent(chunk), s.current);
    assert t.events[..|t.events| - 1] == s.events;
  }

  function ChunkCount(n: nat): nat { (n + MAX_SEALS - 1) / MAX_SEALS }

  /** What chunked sealing of a whole list achieves. */
  ghost predicate AllSealed(p: Primitives, s: Ctl, seals: seq<Seal>, r: Verdict<Ctl>) {
    && r.Ok? && Good(p, r.value) && s.events <= r.value.events
    && SealsOf(r.value.events) == SealsOf(s.events) + seals
    && |r.value.events| == |s.events| + ChunkCount(|seals|)
  }

  lemma AllSealedStep(p: Primitives, s: Ctl, t: Ctl, head: seq<Seal>, tail: seq<Seal>, r: Verdict<Ctl>)
    requires s.events <= t.events && |t.events| == |s.events| + 1 && 0 < |head| <= MAX_SEALS
    requires |head| == MAX_SEALS || tail == []
    requires SealsOf(t.events) == SealsOf(s.events) + head && AllSealed(p, t, tail, r)
    ensures AllSealed(p, s, head + tail, r)
  {
  }

  lemma FirstChunk(p: Primitives, s: Ctl, seals: seq<Seal>, n: nat, t: Ctl)
    requires s.events != [] && t.events != [] && seals != []
    requires n == (if |seals| < MAX_SEALS then |seals| else MAX_SEALS) && Sealed(p, s, seals[..n]) == Ok(t)
    ensures SealedInChunks(p, s, seals) == SealedInChunks(p, t, seals[n..]) && seals[..n] + seals[n..] == seals
  {
  }

  /** Chunked sealing of well-named seals always succeeds, loses none and keeps the log valid. */
  lemma {:induction false} ChunksSealAll(p: Primitives, s: Ctl, seals: seq<Seal>)
    requires Sound(p) && Good(p, s) && forall x :: x in seals ==> IsDid(p, x.device)
    ensures AllSealed(p, s, seals, SealedInChunks(p, s, seals))
    decreases |seals|
  {
    if seals != [] {
      var n := if |seals| < MAX_SEALS then |seals| else MAX_SEALS;
      SealedOnce(p, s, seals[..n]);
      var t := Sealed(p, s, seals[..n]).value;
      ChunksSealAll(p, t, seals[n..]);
      FirstChunk(p, s, seals, n, t);
      AllSealedStep(p, s, t, seals[..n], seals[n..], SealedInChunks(p, t, seals[n..]));
    }
  }

  /**
   `revoke_devices_except` never fails; afterwards exactly the previously delegated devices in
   `keep` remain, with unchanged capabilities, and the log still verifies.
   */
  lemma RevokeExceptIsExact(p: Primitives, s: Ctl, keep: seq<Bytes>)
    requires Sound(p) && Good(p, s)
    ensures RevokedExcept(p, s, keep).Ok?
    ensures var t := RevokedExcept(p, s, keep).value;
      && Good(p, t) && s.events <= t.events
      && DelegatedDevices(p, t.events) == Retain(In(keep), DelegatedDevices(p, s.events))
      && (|t.events| == |s.events| <==> ToRevoke(p, s.events, keep) == [])
  {
    var doomed := ToRevoke(p, s.events, keep);
    var granted := DelegatedDevices(p, s.events);
    RetainMeaning(Parses(p), Accumulate(SealsOf(s.events)));
    RetainMeaning(NotIn(keep), granted);
    forall x | x in Revocations(doomed) ensures IsDid(p, x.device) {
      var i :| 0 <= i < |doomed| && Revocations(doomed)[i] == x;
      assert Retain(NotIn(keep), granted)[i] in granted;
    }
    ChunksSealAll(p, s, Revocations(doomed));
    RevokingLeavesKept(p, s.events, RevokedExcept(p, s, keep).value.events, keep);
  }
}
