/** The mutable controller object, each method tied to its step of the controller state machine. */
module ControllerObjects {
  import opened Prelude
  import opened Codec
  import opened Events
  import opened Identity
  import opened KeyEventLog
  import opened Delegation
  import opened Controllers

  class Controller {
    const scid: Bytes
    const suite: byte
    const delegator: Option<Bytes>
    var current: seq<SigningKey>
    var threshold: nat
    var next: seq<SigningKey>
    var nextThreshold: nat
    var events: seq<Event>

    function State(): Ctl
      reads this
    {
      Ctl(scid, suite, current, threshold, next, nextThreshold, delegator, events)
    }

    constructor (s: Ctl)
      ensures State() == s
    {
      scid, suite, delegator := s.scid, s.suite, s.delegator;
      current, threshold, next, nextThreshold := s.current, s.threshold, s.next, s.nextThreshold;
      events := s.events;
    }

    /** `incept_inner`: validate, derive the identifier from the blank event, then sign. */
    static method InceptInner(p: Primitives, current: seq<SigningKey>, t: nat, next: seq<SigningKey>, nt: nat,
                              delegator: Option<Bytes>) returns (r: Verdict<Controller>)
      ensures var spec := Incept(p, current, t, next, nt, delegator);
        if spec.Ok? then r.Ok? && fresh(r.value) && r.value.State() == spec.value else r == Err(spec.error)
    {
      if current == [] || next == [] { return Err(EmptyKeySet); }
      var est := Establishment(PublicKeys(p, current), t, Commitments(p, next), nt, [], 0);
      var failure := ValidateEstablishment(p, est);
      if failure.Some? { return Err(failure.value); }
      var icp := InceptionEvent(p, est, current[0].suite, delegator);
      var id := p.scidOf(icp);
      icp := icp.(scid := id);
      icp := icp.(signatures := SignAll(p, current, p.signingBytes(icp)));
      var c := new Controller(Ctl(id, current[0].suite, current, t, next, nt, delegator, [icp]));
      return Ok(c);
    }

    method AppendEvent(p: Primitives, kind: EventKind, signers: seq<SigningKey>)
      requires events != []
      modifies this`events
      ensures State() == Append(p, old(State()), kind, signers)
    {
      var ev := Event(suite, scid, |events|, p.digest(events[|events| - 1]), kind, []);
      ev := ev.(signatures := SignAll(p, signers, p.signingBytes(ev)));
      events := events + [ev];
    }

    method RotateInto(p: Primitives, newNext: seq<SigningKey>, t: nat, witnesses: seq<Bytes>, wt: nat)
      returns (r: Verdict<()>)
      requires events != []
      modifies this
      ensures var spec := Rotated(p, old(State()), newNext, t, witnesses, wt);
        if spec.Ok? then r == Ok(()) && State() == spec.value else r == Err(spec.error) && State() == old(State())
    {
      if newNext == [] { return Err(EmptyKeySet); }
      var newCurrent, newThreshold := next, nextThreshold;
      var est := Establishment(PublicKeys(p, newCurrent), newThreshold, Commitments(p, newNext), t, witnesses, wt);
      var failure := ValidateEstablishment(p, est);
      if failure.Some? { return Err(failure.value); }
      AppendEvent(p, Rotation(est), newCurrent);
      current, threshold := newCurrent, newThreshold;
      next, nextThreshold := newNext, t;
      return Ok(());
    }

    /** An ordinary rotation declares no witnesses, so it clears any declared policy. */
    method RotateWithNextAndThreshold(p: Primitives, newNext: seq<SigningKey>, t: nat) returns (r: Verdict<()>)
      requires events != []
      modifies this
      ensures State() == After(p, old(State()), Operation.Rotate(newNext, t))
      ensures var spec := Perform(p, old(State()), Operation.Rotate(newNext, t));
        if spec.Ok? then r == Ok(()) else r == Err(spec.error)
    {
      r := RotateInto(p, newNext, t, [], 0);
    }

    /** `generate_like` yields as many keys as the standing next set. */
    method Rotate(p: Primitives, generated: seq<SigningKey>) returns (r: Verdict<()>)
      requires events != [] && |generated| == |next|
      modifies this
      ensures State() == After(p, old(State()), RotateKeeping(generated))
      ensures var spec := Perform(p, old(State()), RotateKeeping(generated));
        if spec.Ok? then r == Ok(()) else r == Err(spec.error)
    {
      r := RotateInto(p, generated, nextThreshold, [], 0);
    }

    method AppointWitnesses(p: Primitives, generated: seq<SigningKey>, witnesses: seq<Bytes>, wt: nat)
      returns (r: Verdict<()>)
      requires events != [] && |generated| == |next|
      modifies this
      ensures State() == After(p, old(State()), Appoint(generated, witnesses, wt))
      ensures var spec := Perform(p, old(State()), Appoint(generated, witnesses, wt));
        if spec.Ok? then r == Ok(()) else r == Err(spec.error)
    {
      r := RotateInto(p, generated, nextThreshold, witnesses, wt);
    }

    method Interact(p: Primitives, anchors: seq<Anchor>) returns (r: Verdict<()>)
      requires events != []
      modifies this`events
      ensures State() == After(p, old(State()), Operation.Interact(anchors))
      ensures var spec := Perform(p, old(State()), Operation.Interact(anchors));
        if spec.Ok? then r == Ok(()) else r == Err(spec.error)
    {
      if |anchors| > MAX_ANCHORS { return Err(TooManyItems); }
      AppendEvent(p, Interaction(anchors), current);
      return Ok(());
    }

    method Seal(p: Primitives, seals: seq<Seal>) returns (r: Verdict<()>)
      requires events != []
      modifies this`events
      ensures var spec := Sealed(p, old(State()), seals);
        if spec.Ok? then r == Ok(()) && State() == spec.value else r == Err(spec.error) && State() == old(State())
    {
      if |seals| > MAX_SEALS { return Err(TooManyItems); }
      for i := 0 to |seals|
        invariant SealFailure(p, seals) == SealFailure(p, seals[i..])
      {
        var failure := DidFailure(p, seals[i].device);
        assert seals[i..][1..] == seals[i + 1..];
        if failure.Some? { return Err(failure.value); }
      }
      AppendEvent(p, SealEvent(seals), current);
      return Ok(());
    }

    /** Seals a revocation for every delegated device not in `keep`, MAX_SEALS at a time. */
    method RevokeDevicesExcept(p: Primitives, keep: seq<Bytes>) returns (r: Verdict<()>)
      requires events != []
      modifies this`events
      ensures RevokedExcept(p, old(State()), keep).Ok? ==>
        r == Ok(()) && State() == RevokedExcept(p, old(State()), keep).value
      ensures RevokedExcept(p, old(State()), keep).Err? ==>
        r == Err(RevokedExcept(p, old(State()), keep).error) && old(events) <= events
    {
      var grants := RunDelegatedDevices(p, events);
      var rest := Revocations(Names(Retain(NotIn(keep), grants)));
      while rest != []
        invariant events != [] && old(events) <= events
        invariant RevokedExcept(p, old(State()), keep) == SealedInChunks(p, State(), rest)
        decreases |rest|
      {
        var n := if |rest| < MAX_SEALS then |rest| else MAX_SEALS;
        r := Seal(p, rest[..n]);
        if r.Err? { return r; }
        rest := rest[n..];
      }
      return Ok(());
    }
  }
}
