/** The Key Event Log, its verification and its history. */
module KeyEventLog {
  import opened Prelude
  import opened Codec
  import opened Events
  import opened Identity

  datatype Kel = Kel(scid: Bytes, events: seq<Event>)

  datatype KeyState = KeyState(
    keys: seq<VerifyingKey>, threshold: nat, sn: nat, nextCommitments: seq<Bytes>, nextThreshold: nat)

  /** The verifier's working state after an event: current control, next commitments, chain tip. */
  datatype Cursor = Cursor(
    keys: seq<VerifyingKey>, threshold: nat, next: seq<Bytes>, nextThreshold: nat, tip: Bytes)

  type Verdict<T> = Result<T, IdentityError>

  function StateOf(c: Cursor, sn: nat): KeyState {
    KeyState(c.keys, c.threshold, sn, c.next, c.nextThreshold)
  }

  function Adopt(p: Primitives, est: Establishment, e: Event): Cursor {
    Cursor(est.keys, est.threshold, est.next, est.nextThreshold, p.digest(e))
  }

  /** The delegator of a delegated inception must be a different, well-formed identity. */
  function DelegatorFailure(p: Primitives, scid: Bytes, kind: EventKind): Option<IdentityError> {
    if !kind.DelegatedInception? then None
    else if DidFailure(p, kind.delegator).Some? then DidFailure(p, kind.delegator)
    else if ScidPart(kind.delegator) == scid then Some(BadEvent)
    else None
  }

  /** The checks on the first event, in the order the verifier makes them. */
  function Begin(p: Primitives, scid: Bytes, first: Event): Verdict<Cursor> {
    var _ :- Check(first.kind.Inception? || first.kind.DelegatedInception?, NotInception);
    var est := first.kind.est;
    var _ :- Check(first.sn == 0 && first.prior == [], NotInception);
    var _ :- Checked(EstablishmentFailure(p, est));
    var _ :- Checked(DidFailure(p, DidOf(scid)));
    var _ :- Checked(DelegatorFailure(p, scid, first.kind));
    var _ :- Check(p.scidOf(first) == first.scid && first.scid == scid, ScidMismatch);
    var _ :- Check(MeetsThreshold(p, first, est.keys, est.threshold), ThresholdNotMet);
    Ok(Adopt(p, est, first))
  }

  /** Only these events carry keys, commitments and witnesses. */
  predicate Establishes(e: Event) {
    e.kind.Inception? || e.kind.DelegatedInception? || e.kind.Rotation?
  }

  predicate Reveals(p: Primitives, keys: seq<VerifyingKey>, next: seq<Bytes>) {
    |keys| == |next| && forall i :: 0 <= i < |keys| ==> p.commitment(keys[i]) == next[i]
  }

  /** One later event: sequence, chain link, pre-rotation and signatures. */
  function Advance(p: Primitives, scid: Bytes, c: Cursor, sn: nat, e: Event): Verdict<Cursor> {
    var _ :- Check(e.scid == scid, ScidMismatch);
    var _ :- Check(e.sn == sn, WrongSequence);
    var _ :- Check(e.prior == c.tip, BrokenChain);
    match e.kind
    case Inception(_) => Err(NotInception)
    case DelegatedInception(_, _) => Err(NotInception)
    case Rotation(est) =>
      var _ :- Checked(EstablishmentFailure(p, est));
      var _ :- Check(est.threshold == c.nextThreshold && Reveals(p, est.keys, c.next), PreRotationMismatch);
      var _ :- Check(MeetsThreshold(p, e, est.keys, est.threshold), ThresholdNotMet);
      Ok(Adopt(p, est, e))
    case Interaction(_) =>
      var _ :- Check(MeetsThreshold(p, e, c.keys, c.threshold), ThresholdNotMet);
      Ok(c.(tip := p.digest(e)))
    case SealEvent(_) =>
      var _ :- Check(MeetsThreshold(p, e, c.keys, c.threshold), ThresholdNotMet);
      Ok(c.(tip := p.digest(e)))
  }

  /** The working state after the events at indices 0..n, or the first failure among them. */
  function Replay(p: Primitives, scid: Bytes, events: seq<Event>, n: nat): Verdict<Cursor>
    requires n < |events|
  {
    if n == 0 then Begin(p, scid, events[0]) else
      var c :- Replay(p, scid, events, n - 1);
      Advance(p, scid, c, n, events[n])
  }

  function VerifyThrough(p: Primitives, k: Kel, upto: nat): Verdict<KeyState>
    requires k.events == [] || upto < |k.events|
  {
    if k.events == [] then Err(EmptyKel) else
      var c :- Replay(p, k.scid, k.events, upto);
      Ok(StateOf(c, upto))
  }

  function Verify(p: Primitives, k: Kel): Verdict<KeyState> {
    VerifyThrough(p, k, if k.events == [] then 0 else |k.events| - 1)
  }

  predicate Verified(p: Primitives, k: Kel) { Verify(p, k).Ok? }

  function KeyStateAt(p: Primitives, k: Kel, sn: nat): Verdict<KeyState> {
    var head :- Verify(p, k);
    var _ :- Check(sn <= head.sn, UnknownSequence);
    VerifyThrough(p, k, sn)
  }

  /** Detached signatures checked against the keys authoritative at `sn`. */
  function VerifyMessageAt(p: Primitives, k: Kel, sn: nat, msg: Bytes, sigs: seq<IndexedSig>): Verdict<()> {
    var state :- KeyStateAt(p, k, sn);
    Check(|Signers(p, msg, state.keys, sigs)| >= state.threshold, SignatureThresholdNotMet)
  }

  function EventDigestAt(p: Primitives, k: Kel, sn: nat): Verdict<Bytes> {
    if sn < |k.events| then Ok(p.digest(k.events[sn])) else Err(UnknownSequence)
  }

  function HeadDigest(p: Primitives, k: Kel): Verdict<Bytes> {
    if k.events == [] then Err(EmptyKel) else Ok(p.digest(k.events[|k.events| - 1]))
  }

  /* ---- the verifier as it runs ---- */

  method VerifyThreshold(p: Primitives, e: Event, keys: seq<VerifyingKey>, threshold: nat) returns (ok: bool)
    ensures ok <==> MeetsThreshold(p, e, keys, threshold)
  {
    if threshold == 0 { return false; }
    var count := CountValidSigners(p, p.signingBytes(e), keys, e.signatures);
    return count >= threshold;
  }

  /** The revealed keys are compared with the prior commitments one by one. */
  method CheckRevealed(p: Primitives, keys: seq<VerifyingKey>, next: seq<Bytes>) returns (ok: bool)
    ensures ok <==> Reveals(p, keys, next)
  {
    if |keys| != |next| { return false; }
    for i := 0 to |keys|
      invariant forall j :: 0 <= j < i ==> p.commitment(keys[j]) == next[j]
    {
      if p.commitment(keys[i]) != next[i] { return false; }
    }
    return true;
  }

  function FailureOf<T>(v: Verdict<T>): Option<IdentityError> { if v.Ok? then None else Some(v.error) }

  method CheckFirst(p: Primitives, scid: Bytes, first: Event) returns (failure: Option<IdentityError>)
    ensures failure == FailureOf(Begin(p, scid, first))
  {
    if !(first.kind.Inception? || first.kind.DelegatedInception?) { return Some(NotInception); }
    var est := first.kind.est;
    if first.sn != 0 || first.prior != [] { return Some(NotInception); }
    failure := ValidateEstablishment(p, est);
    if failure.Some? { return; }
    failure := DidFailure(p, DidOf(scid));
    if failure.Some? { return; }
    if first.kind.DelegatedInception? {
      failure := DidFailure(p, first.kind.delegator);
      if failure.Some? { return; }
      if ScidPart(first.kind.delegator) == scid { return Some(BadEvent); }
    }
    if p.scidOf(first) != first.scid || first.scid != scid { return Some(ScidMismatch); }
    var signed := VerifyThreshold(p, first, est.keys, est.threshold);
    return if signed then None else Some(ThresholdNotMet);
  }

  method CheckNext(p: Primitives, scid: Bytes, c: Cursor, sn: nat, e: Event) returns (failure: Option<IdentityError>)
    ensures failure == FailureOf(Advance(p, scid, c, sn, e))
  {
    if e.scid != scid { return Some(ScidMismatch); }
    if e.sn != sn { return Some(WrongSequence); }
    if e.prior != c.tip { return Some(BrokenChain); }
    var signed;
    match e.kind {
      case Inception(_) => return Some(NotInception);
      case DelegatedInception(_, _) => return Some(NotInception);
      case Rotation(est) =>
        failure := ValidateEstablishment(p, est);
        if failure.Some? { return; }
        if est.threshold != c.nextThreshold { return Some(PreRotationMismatch); }
        var revealed := CheckRevealed(p, est.keys, c.next);
        if !revealed { return Some(PreRotationMismatch); }
        signed := VerifyThreshold(p, e, est.keys, est.threshold);
      case Interaction(_) => signed := VerifyThreshold(p, e, c.keys, c.threshold);
      case SealEvent(_) => signed := VerifyThreshold(p, e, c.keys, c.threshold);
    }
    return if signed then None else Some(ThresholdNotMet);
  }

  /** Only a rotation moves control; every event moves the chain tip. */
  lemma AdvanceMoves(p: Primitives, scid: Bytes, c: Cursor, sn: nat, e: Event)
    requires Advance(p, scid, c, sn, e).Ok?
    ensures Advance(p, scid, c, sn, e).value
      == if e.kind.Rotation? then Adopt(p, e.kind.est, e) else c.(tip := p.digest(e))
  {
  }

  lemma BeginAdopts(p: Primitives, scid: Bytes, first: Event)
    requires Begin(p, scid, first).Ok?
    ensures (first.kind.Inception? || first.kind.DelegatedInception?)
    ensures Begin(p, scid, first).value == Adopt(p, first.kind.est, first)
  {
  }

  /** `replay` lists the specified result at every event of the log. */
  ghost predicate Replays(p: Primitives, k: Kel, replay: nat -> Verdict<Cursor>) {
    forall i: nat {:trigger Replay(p, k.scid, k.events, i)} ::
      i < |k.events| ==> replay(i) == Replay(p, k.scid, k.events, i)
  }

  /** One iteration: check the event against the current control, then move control and tip. */
  method StepEvent(p: Primitives, k: Kel, ghost replay: nat -> Verdict<Cursor>, i: nat, keys: seq<VerifyingKey>,
                   threshold: nat, next: seq<Bytes>, nextThreshold: nat, prevDigest: Bytes)
    returns (r: Verdict<Cursor>)
    requires Replays(p, k, replay) && 0 < i < |k.events|
    requires replay(i - 1) == Ok(Cursor(keys, threshold, next, nextThreshold, prevDigest))
    ensures r == replay(i)
  {
    assert replay(i) == Replay(p, k.scid, k.events, i);
    var e := k.events[i];
    var c := Cursor(keys, threshold, next, nextThreshold, prevDigest);
    var failure := CheckNext(p, k.scid, c, i, e);
    if failure.Some? { return Err(failure.value); }
    AdvanceMoves(p, k.scid, c, i, e);
    if e.kind.Rotation? {
      var est := e.kind.est;
      return Ok(Cursor(est.keys, est.threshold, est.next, est.nextThreshold, p.digest(e)));
    }
    return Ok(Cursor(keys, threshold, next, nextThreshold, p.digest(e)));
  }

  /** The verification loop, run through event index `upto`: keys, thresholds, commitments and tip in place. */
  method RunVerifyThrough(p: Primitives, k: Kel, upto: nat) returns (r: Verdict<KeyState>)
    requires k.events == [] || upto < |k.events|
    ensures r == VerifyThrough(p, k, upto)
  {
    if k.events == [] { return Err(EmptyKel); }
    var first := k.events[0];
    var failure := CheckFirst(p, k.scid, first);
    if failure.Some? {
      ReplayFailsOnward(p, k.scid, k.events, 0, upto);
      return Err(failure.value);
    }
    BeginAdopts(p, k.scid, first);
    var est := first.kind.est;
    ghost var replay := (i: nat) => if i < |k.events| then Replay(p, k.scid, k.events, i) else Err(EmptyKel);
    var last :- WalkRest(p, k, replay, upto, est.keys, est.threshold, est.next, est.nextThreshold, p.digest(first));
    return Ok(StateOf(last, upto));
  }

  method WalkRest(p: Primitives, k: Kel, ghost replay: nat -> Verdict<Cursor>, upto: nat, keys: seq<VerifyingKey>,
                  threshold: nat, next: seq<Bytes>, nextThreshold: nat, digest: Bytes) returns (r: Verdict<Cursor>)
    requires Replays(p, k, replay) && upto < |k.events|
    requires replay(0) == Ok(Cursor(keys, threshold, next, nextThreshold, digest))
    ensures r == replay(upto)
  {
    var curKeys, curThreshold, curNext, curNextThreshold, prevDigest := keys, threshold, next, nextThreshold, digest;
    for i := 1 to upto + 1
      invariant replay(i - 1) == Ok(Cursor(curKeys, curThreshold, curNext, curNextThreshold, prevDigest))
    {
      var moved := StepEvent(p, k, replay, i, curKeys, curThreshold, curNext, curNextThreshold, prevDigest);
      if moved.Err? {
        FailsOnward(p, k, replay, i, upto);
        return moved;
      }
      curKeys, curThreshold := moved.value.keys, moved.value.threshold;
      curNext, curNextThreshold := moved.value.next, moved.value.nextThreshold;
      prevDigest := moved.value.tip;
    }
    return Ok(Cursor(curKeys, curThreshold, curNext, curNextThreshold, prevDigest));
  }

  lemma FailsOnward(p: Primitives, k: Kel, replay: nat -> Verdict<Cursor>, i: nat, n: nat)
    requires Replays(p, k, replay) && i <= n < |k.events| && replay(i).Err?
    ensures replay(n) == replay(i)
  {
    assert replay(i) == Replay(p, k.scid, k.events, i) && replay(n) == Replay(p, k.scid, k.events, n);
    ReplayFailsOnward(p, k.scid, k.events, i, n);
  }

  lemma {:induction false} ReplayFailsOnward(p: Primitives, scid: Bytes, events: seq<Event>, i: nat, n: nat)
    requires i <= n < |events| && Replay(p, scid, events, i).Err?
    ensures Replay(p, scid, events, n) == Replay(p, scid, events, i)
  {
    if i < n { ReplayFailsOnward(p, scid, events, i, n - 1); }
  }

  /** Replay looks only at the events it covers. */
  lemma {:induction false} ReplayLocal(p: Primitives, scid: Bytes, a: seq<Event>, b: seq<Event>, n: nat)
    requires n < |a| && n < |b| && a[..n + 1] == b[..n + 1]
    ensures Replay(p, scid, a, n) == Replay(p, scid, b, n)
  {
    assert a[n] == a[..n + 1][n] == b[n];
    if n > 0 {
      assert a[..n] == a[..n + 1][..n] == b[..n];
      ReplayLocal(p, scid, a, b, n - 1);
    }
  }

  /** Every event of a verified log was accepted, from a working state that was itself accepted. */
  lemma ReplayOk(p: Primitives, scid: Bytes, events: seq<Event>, i: nat, n: nat)
    requires i <= n < |events| && Replay(p, scid, events, n).Ok?
    ensures Replay(p, scid, events, i).Ok?
  {
  }

  /** What the verifier's working state always satisfies. */
  predicate CursorSound(p: Primitives, c: Cursor) {
    && NoDup(c.keys) && 1 <= c.threshold <= |c.keys|
    && NoDup(c.next) && 1 <= c.nextThreshold <= |c.next|
  }

  lemma {:induction false} ReplaySound(p: Primitives, scid: Bytes, events: seq<Event>, n: nat)
    requires n < |events| && Replay(p, scid, events, n).Ok?
    ensures var c := Replay(p, scid, events, n).value;
      CursorSound(p, c) && c.tip == p.digest(events[n])
  {
    if events[n].kind.Inception? || events[n].kind.DelegatedInception? || events[n].kind.Rotation? {
      ValidEstablishmentMeaning(p, events[n].kind.est);
    }
    if n > 0 { ReplaySound(p, scid, events, n - 1); }
  }

  /** The four promises of a verified log: identity, order, an unbroken chain, and kinds in place. */
  lemma VerifiedShape(p: Primitives, k: Kel, i: nat)
    requires Verified(p, k) && i < |k.events|
    ensures k.events[i].scid == k.scid && k.events[i].sn == i
    ensures k.events[i].prior == if i == 0 then [] else p.digest(k.events[i - 1])
    ensures (k.events[i].kind.Inception? || k.events[i].kind.DelegatedInception?) <==> i == 0
    ensures i == 0 ==> p.scidOf(k.events[0]) == k.scid
    ensures k.events[i].kind.Inception? || k.events[i].kind.DelegatedInception? || k.events[i].kind.Rotation?
      ==> ValidEstablishment(p, k.events[i].kind.est)
  {
    ReplayOk(p, k.scid, k.events, i, |k.events| - 1);
    if i == 0 {
      FirstShape(p, k.scid, k.events[0]);
    } else {
      ReplayedShape(p, k.scid, k.events, i);
    }
  }

  lemma ReplayedShape(p: Primitives, scid: Bytes, events: seq<Event>, i: nat)
    requires 0 < i < |events| && Replay(p, scid, events, i).Ok?
    ensures var e := events[i];
      && !e.kind.Inception? && !e.kind.DelegatedInception? && e.scid == scid && e.sn == i
      && e.prior == p.digest(events[i - 1]) && (e.kind.Rotation? ==> ValidEstablishment(p, e.kind.est))
  {
  }

  lemma FirstShape(p: Primitives, scid: Bytes, first: Event)
    requires Begin(p, scid, first).Ok?
    ensures (first.kind.Inception? || first.kind.DelegatedInception?) && ValidEstablishment(p, first.kind.est)
    ensures first.scid == scid && first.sn == 0 && first.prior == [] && p.scidOf(first) == scid
  {
  }

  /** A rotation in a verified log reveals exactly the keys its predecessor state committed to. */
  lemma RotationRevealed(p: Primitives, k: Kel, i: nat)
    requires Verified(p, k) && 0 < i < |k.events| && k.events[i].kind.Rotation?
    ensures Replay(p, k.scid, k.events, i - 1).Ok?
    ensures var c := Replay(p, k.scid, k.events, i - 1).value;
      k.events[i].kind.est.threshold == c.nextThreshold && Reveals(p, k.events[i].kind.est.keys, c.next)
  {
    ReplayOk(p, k.scid, k.events, i, |k.events| - 1);
    ReplayOk(p, k.scid, k.events, i - 1, |k.events| - 1);
  }

  /** Every non-empty prefix of a verified log verifies, to the historical state of the whole. */
  lemma PrefixVerified(p: Primitives, k: Kel, n: nat)
    requires Verified(p, k) && 1 <= n <= |k.events|
    ensures Verify(p, Kel(k.scid, k.events[..n])) == VerifyThrough(p, k, n - 1)
    ensures Verified(p, Kel(k.scid, k.events[..n]))
  {
    ThroughOk(p, k, n - 1);
    ThroughOfPrefix(p, k, n);
  }

  lemma ThroughOk(p: Primitives, k: Kel, upto: nat)
    requires Verified(p, k) && upto < |k.events|
    ensures VerifyThrough(p, k, upto).Ok?
  {
    ReplayOk(p, k.scid, k.events, upto, |k.events| - 1);
  }

  lemma ThroughOfPrefix(p: Primitives, k: Kel, n: nat)
    requires 1 <= n <= |k.events|
    ensures VerifyThrough(p, Kel(k.scid, k.events[..n]), n - 1) == VerifyThrough(p, k, n - 1)
  {
    ReplayOfPrefix(p, k.scid, k.events, n);
  }

  lemma ReplayOfPrefix(p: Primitives, scid: Bytes, events: seq<Event>, n: nat)
    requires 1 <= n <= |events|
    ensures Replay(p, scid, events[..n], n - 1) == Replay(p, scid, events, n - 1)
  {
    var front := events[..n];
    assert front[..n] == front;
    ReplayLocal(p, scid, events, front, n - 1);
  }

  /** Extending a log never changes a key state of its past, so evidence signed then keeps verifying. */
  lemma HistoryIsStable(p: Primitives, earlier: Kel, later: Kel, sn: nat, msg: Bytes, sigs: seq<IndexedSig>)
    requires Verified(p, later) && earlier.events != []
    requires earlier.scid == later.scid && earlier.events <= later.events
    requires sn < |earlier.events|
    ensures Verified(p, earlier)
    ensures KeyStateAt(p, later, sn) == KeyStateAt(p, earlier, sn) && KeyStateAt(p, earlier, sn).Ok?
    ensures VerifyMessageAt(p, later, sn, msg, sigs) == VerifyMessageAt(p, earlier, sn, msg, sigs)
  {
    var n := |earlier.events|;
    assert later.events[..n] == earlier.events;
    PrefixVerified(p, later, n);
    ReplayOk(p, later.scid, later.events, sn, |later.events| - 1);
    assert earlier.events[..sn + 1] == later.events[..sn + 1];
    ReplayLocal(p, earlier.scid, earlier.events, later.events, sn);
  }
}
