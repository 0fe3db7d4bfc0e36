/** Which devices a root's log currently delegates, and the mutual delegation check. */
module Delegation {
  import opened Prelude
  import opened Codec
  import opened Events
  import opened Identity
  import opened KeyEventLog

  type Grants = seq<(Bytes, Capabilities)>

  /** All seals of a log, in log order. */
  function SealsOf(events: seq<Event>): seq<Seal> {
    if events == [] then [] else
      var last := events[|events| - 1];
      SealsOf(events[..|events| - 1]) + if last.kind.SealEvent? then last.kind.seals else []
  }

  function Retain(keep: Bytes -> bool, acc: Grants): Grants {
    if acc == [] then []
    else (if keep(acc[0].0) then [acc[0]] else []) + Retain(keep, acc[1..])
  }

  function Without(device: Bytes): Bytes -> bool { d => d != device }

  function Slot(acc: Grants, device: Bytes): (i: nat)
    ensures i <= |acc|
    ensures i < |acc| ==> acc[i].0 == device
    ensures forall j :: 0 <= j < i ==> acc[j].0 != device
  {
    if acc == [] || acc[0].0 == device then 0 else 1 + Slot(acc[1..], device)
  }

  /** One seal applied to the accumulator: a grant replaces its slot or is pushed; a revocation removes. */
  function ApplySeal(acc: Grants, s: Seal): Grants {
    match s
    case Delegate(device, caps) =>
      var i := Slot(acc, device);
      if i < |acc| then acc[i := (device, caps)] else acc + [(device, caps)]
    case Revoke(device) => Retain(Without(device), acc)
  }

  function Accumulate(seals: seq<Seal>): Grants {
    if seals == [] then []
    else ApplySeal(Accumulate(seals[..|seals| - 1]), seals[|seals| - 1])
  }

  function Parses(p: Primitives): Bytes -> bool { d => IsDid(p, d) }

  function DelegatedDevices(p: Primitives, events: seq<Event>): Grants {
    Retain(Parses(p), Accumulate(SealsOf(events)))
  }

  method CollectSeals(events: seq<Event>) returns (seals: seq<Seal>)
    ensures seals == SealsOf(events)
  {
    seals := [];
    for i := 0 to |events|
      invariant seals == SealsOf(events[..i])
    {
      assert events[..i + 1][..i] == events[..i];
      if events[i].kind.SealEvent? { seals := seals + events[i].kind.seals; }
    }
    assert events[..|events|] == events;
  }

  method FindSlot(acc: Grants, device: Bytes) returns (slot: nat)
    ensures slot == Slot(acc, device)
  {
    slot := 0;
    while slot < |acc| && acc[slot].0 != device
      invariant slot <= |acc| && forall j :: 0 <= j < slot ==> acc[j].0 != device
    {
      slot := slot + 1;
    }
  }

  /** The loop form: walk the seals once, editing the accumulator in place. */
  method RunDelegatedDevices(p: Primitives, events: seq<Event>) returns (grants: Grants)
    ensures grants == DelegatedDevices(p, events)
  {
    var seals := CollectSeals(events);
    var acc: Grants := [];
    for i := 0 to |seals|
      invariant acc == Accumulate(seals[..i])
    {
      assert seals[..i + 1][..i] == seals[..i];
      match seals[i] {
        case Delegate(device, caps) =>
          var slot := FindSlot(acc, device);
          if slot < |acc| { acc := acc[slot := (device, caps)]; } else { acc := acc + [(device, caps)]; }
        case Revoke(device) => acc := Retain(Without(device), acc);
      }
    }
    assert seals[..|seals|] == seals;
    grants := Retain(Parses(p), acc);
  }

  /* ---- last write wins ---- */

  function LastSeal(seals: seq<Seal>, device: Bytes): Option<Seal> {
    if seals == [] then None
    else if seals[|seals| - 1].device == device then Some(seals[|seals| - 1])
    else LastSeal(seals[..|seals| - 1], device)
  }

  predicate DistinctDevices(acc: Grants) {
    forall i, j :: 0 <= i < j < |acc| ==> acc[i].0 != acc[j].0
  }

  lemma {:induction false} RetainMeaning(keep: Bytes -> bool, acc: Grants)
    ensures forall g :: g in Retain(keep, acc) <==> g in acc && keep(g.0)
    ensures DistinctDevices(acc) ==> DistinctDevices(Retain(keep, acc))
  {
    if acc != [] {
      RetainMeaning(keep, acc[1..]);
      var tail := Retain(keep, acc[1..]);
      if DistinctDevices(acc) {
        assert DistinctDevices(acc[1..]);
        forall j | 0 <= j < |tail| ensures tail[j].0 != acc[0].0 {
          assert tail[j] in acc[1..];
        }
      }
    }
  }

  lemma ApplyMeaning(acc: Grants, s: Seal)
    requires DistinctDevices(acc)
    ensures DistinctDevices(ApplySeal(acc, s))
    ensures forall d: Bytes, c: Capabilities :: (d, c) in ApplySeal(acc, s) <==>
      if d == s.device then s == Delegate(d, c) else (d, c) in acc
  {
    match s {
      case Revoke(device) => RetainMeaning(Without(device), acc);
      case Delegate(device, caps) =>
        var after := ApplySeal(acc, s);
        var slot := Slot(acc, device);
        forall d: Bytes, c: Capabilities ensures (d, c) in after <==>
          if d == device then c == caps else (d, c) in acc
        {
          if d == device {
            assert after[slot] == (device, caps);
          } else if (d, c) in acc {
            var i :| 0 <= i < |acc| && acc[i] == (d, c);
            assert after[i] == (d, c);
          }
        }
    }
  }

  lemma {:induction false} AccumulateMeaning(seals: seq<Seal>)
    ensures DistinctDevices(Accumulate(seals))
    ensures forall d: Bytes, c: Capabilities ::
      (d, c) in Accumulate(seals) <==> LastSeal(seals, d) == Some(Delegate(d, c))
  {
    if seals != [] {
      AccumulateMeaning(seals[..|seals| - 1]);
      ApplyMeaning(Accumulate(seals[..|seals| - 1]), seals[|seals| - 1]);
    }
  }

  /** A device is delegated with `c` exactly when it is a DID whose last seal grants `c`. */
  lemma DelegatedIffLastSealGrants(p: Primitives, events: seq<Event>, device: Bytes, c: Capabilities)
    ensures (device, c) in DelegatedDevices(p, events) <==>
      IsDid(p, device) && LastSeal(SealsOf(events), device) == Some(Delegate(device, c))
    ensures DistinctDevices(DelegatedDevices(p, events))
  {
    AccumulateMeaning(SealsOf(events));
    RetainMeaning(Parses(p), Accumulate(SealsOf(events)));
  }

  /** The `j`-th seal of event `i`. */
  predicate SealedAt(events: seq<Event>, i: nat, j: nat, s: Seal) {
    i < |events| && events[i].kind.SealEvent? && j < |events[i].kind.seals| && events[i].kind.seals[j] == s
  }

  predicate NamedAt(events: seq<Event>, i: nat, j: nat, device: Bytes) {
    && i < |events| && events[i].kind.SealEvent? && j < |events[i].kind.seals|
    && events[i].kind.seals[j].device == device
  }

  /** No seal after place `j` of event `i`, in that event or a later one, names the device. */
  ghost predicate NotNamedAfter(events: seq<Event>, i: nat, j: nat, device: Bytes) {
    forall a: nat, b: nat :: NamedAt(events, a, b, device) ==> a < i || (a == i && b <= j)
  }

  lemma {:induction false} LastInList(seals: seq<Seal>, device: Bytes) returns (j: nat)
    ensures match LastSeal(seals, device)
      case Some(s) =>
        j < |seals| && seals[j] == s && s.device == device && forall b :: j < b < |seals| ==> seals[b].device != device
      case None => forall b :: 0 <= b < |seals| ==> seals[b].device != device
  {
    j := 0;
    if seals != [] {
      j := LastInList(seals[..|seals| - 1], device);
      if seals[|seals| - 1].device == device { j := |seals| - 1; }
    }
  }

  lemma {:induction false} LastOfAppended(a: seq<Seal>, b: seq<Seal>, device: Bytes)
    ensures LastSeal(a + b, device) == if LastSeal(b, device).Some? then LastSeal(b, device) else LastSeal(a, device)
  {
    if b == [] {
      assert a + b == a;
    } else {
      LastOfAppended(a, b[..|b| - 1], device);
      assert (a + b)[..|a + b| - 1] == a + b[..|b| - 1];
    }
  }

  /** `i` and `j` are the place of the last seal about the device, if there is any. */
  ghost predicate LastPlace(events: seq<Event>, device: Bytes, last: Option<Seal>, i: nat, j: nat) {
    match last
    case Some(s) => SealedAt(events, i, j, s) && s.device == device && NotNamedAfter(events, i, j, device)
    case None => forall a: nat, b: nat :: !NamedAt(events, a, b, device)
  }

  /** One more event that does not name the device changes nothing. */
  lemma LastPlaceStays(events: seq<Event>, n: nat, device: Bytes, last: Option<Seal>, i: nat, j: nat)
    requires n + 1 == |events| && LastPlace(events[..n], device, last, i, j)
    requires forall b: nat :: !NamedAt(events, n, b, device)
    ensures LastPlace(events, device, last, i, j)
  {
    forall a: nat, b: nat | NamedAt(events, a, b, device) ensures NamedAt(events[..n], a, b, device) {
      assert a != n;
    }
  }

  /** The last seal about a device is the last in log order, within an event as across events. */
  lemma {:induction false} LastSealInLog(events: seq<Event>, device: Bytes) returns (i: nat, j: nat)
    ensures LastPlace(events, device, LastSeal(SealsOf(events), device), i, j)
  {
    i, j := 0, 0;
    if events != [] {
      var n := |events| - 1;
      var own := if events[n].kind.SealEvent? then events[n].kind.seals else [];
      var last := LastInList(own, device);
      LastOfAppended(SealsOf(events[..n]), own, device);
      if LastSeal(own, device).Some? {
        i, j := n, last;
      } else {
        i, j := LastSealInLog(events[..n], device);
        LastPlaceStays(events, n, device, LastSeal(SealsOf(events[..n]), device), i, j);
      }
    }
  }

  /* ---- a batch of revocations ---- */

  function Revocations(devices: seq<Bytes>): (seals: seq<Seal>)
    ensures |seals| == |devices|
  {
    seq(|devices|, i requires 0 <= i < |devices| => Revoke(devices[i]))
  }

  lemma {:induction false} RetainTwice(f: Bytes -> bool, g: Bytes -> bool, h: Bytes -> bool, acc: Grants)
    requires forall d :: h(d) == (f(d) && g(d))
    ensures Retain(g, Retain(f, acc)) == Retain(h, acc)
  {
    if acc != [] {
      RetainTwice(f, g, h, acc[1..]);
      if f(acc[0].0) {
        assert Retain(f, acc)[1..] == Retain(f, acc[1..]);
      } else {
        assert Retain(f, acc) == Retain(f, acc[1..]);
      }
    }
  }

  lemma {:induction false} RetainCongruent(f: Bytes -> bool, g: Bytes -> bool, acc: Grants)
    requires forall x :: x in acc ==> f(x.0) == g(x.0)
    ensures Retain(f, acc) == Retain(g, acc)
  {
    if acc != [] { RetainCongruent(f, g, acc[1..]); }
  }

  lemma {:induction false} RetainAll(f: Bytes -> bool, acc: Grants)
    requires forall g :: g in acc ==> f(g.0)
    ensures Retain(f, acc) == acc
  {
    if acc != [] {
      RetainAll(f, acc[1..]);
      assert acc == [acc[0]] + acc[1..];
    }
  }

  function NotIn(devices: seq<Bytes>): Bytes -> bool { d => d !in devices }

  function In(devices: seq<Bytes>): Bytes -> bool { d => d in devices }

  function Both(f: Bytes -> bool, g: Bytes -> bool): Bytes -> bool { d => f(d) && g(d) }

  function Names(acc: Grants): (names: seq<Bytes>)
    ensures |names| == |acc|
  {
    seq(|acc|, i requires 0 <= i < |acc| => acc[i].0)
  }

  /** The devices a root must revoke to be left with only those in `keep`. */
  function ToRevoke(p: Primitives, events: seq<Event>, keep: seq<Bytes>): seq<Bytes> {
    Names(Retain(NotIn(keep), DelegatedDevices(p, events)))
  }

  lemma ToRevokeMeaning(p: Primitives, events: seq<Event>, keep: seq<Bytes>, device: Bytes)
    requires exists g :: g in Accumulate(SealsOf(events)) && g.0 == device
    ensures device in ToRevoke(p, events, keep) <==> IsDid(p, device) && device !in keep
  {
    var acc := Accumulate(SealsOf(events));
    var granted := Retain(Parses(p), acc);
    var doomed := Retain(NotIn(keep), granted);
    RetainMeaning(Parses(p), acc);
    RetainMeaning(NotIn(keep), granted);
    if IsDid(p, device) && device !in keep {
      var g :| g in acc && g.0 == device;
      var i :| 0 <= i < |doomed| && doomed[i] == g;
      assert Names(doomed)[i] == device;
    }
    if device in Names(doomed) {
      var i :| 0 <= i < |doomed| && Names(doomed)[i] == device;
      assert doomed[i] in doomed;
    }
  }

  /** Sealing those revocations leaves exactly the kept grants, capabilities and order included. */
  lemma RevokingLeavesKept(p: Primitives, before: seq<Event>, after: seq<Event>, keep: seq<Bytes>)
    requires SealsOf(after) == SealsOf(before) + Revocations(ToRevoke(p, before, keep))
    ensures DelegatedDevices(p, after) == Retain(In(keep), DelegatedDevices(p, before))
  {
    var acc := Accumulate(SealsOf(before));
    var doomed := ToRevoke(p, before, keep);
    var f, g := Both(NotIn(doomed), Parses(p)), Both(Parses(p), In(keep));
    AccumulateRevocations(SealsOf(before), doomed);
    RetainTwice(NotIn(doomed), Parses(p), f, acc);
    RetainTwice(Parses(p), In(keep), g, acc);
    forall x | x in acc ensures f(x.0) == g(x.0) {
      ToRevokeMeaning(p, before, keep, x.0);
    }
    RetainCongruent(f, g, acc);
  }

  lemma RevokeOneMore(seals: seq<Seal>, devices: seq<Bytes>)
    requires devices != []
    ensures var n := |devices| - 1;
      Accumulate(seals + Revocations(devices))
        == Retain(Without(devices[n]), Accumulate(seals + Revocations(devices[..n])))
  {
    var all := seals + Revocations(devices);
    assert all[..|all| - 1] == seals + Revocations(devices[..|devices| - 1]);
    assert all[|all| - 1] == Revoke(devices[|devices| - 1]);
  }

  /** Revoking a list of devices leaves the other grants untouched and in place. */
  lemma {:induction false} AccumulateRevocations(seals: seq<Seal>, devices: seq<Bytes>)
    ensures Accumulate(seals + Revocations(devices)) == Retain(NotIn(devices), Accumulate(seals))
  {
    if devices == [] {
      assert seals + Revocations(devices) == seals;
      RetainAll(NotIn(devices), Accumulate(seals));
    } else {
      var n := |devices| - 1;
      var init := devices[..n];
      AccumulateRevocations(seals, init);
      RevokeOneMore(seals, devices);
      assert forall d :: NotIn(devices)(d) == (NotIn(init)(d) && Without(devices[n])(d)) by {
        assert devices == init + [devices[n]];
      }
      RetainTwice(NotIn(init), Without(devices[n]), NotIn(devices), Accumulate(seals));
    }
  }

  /* ---- the mutual delegation check ---- */

  function Delegator(p: Primitives, k: Kel): Option<Bytes> {
    if k.events != [] && k.events[0].kind.DelegatedInception? && IsDid(p, k.events[0].kind.delegator)
    then Some(k.events[0].kind.delegator) else None
  }

  /** The delegator is what a delegated inception names, if it is a DID; other logs have none. */
  lemma DelegatorExactly(p: Primitives, k: Kel, d: Bytes)
    ensures Delegator(p, k) == Some(d) <==>
      && k.events != [] && k.events[0].kind.DelegatedInception? && k.events[0].kind.delegator == d && IsDid(p, d)
    ensures Delegator(p, k).None? <==>
      k.events == [] || !k.events[0].kind.DelegatedInception? || !IsDid(p, k.events[0].kind.delegator)
  {
  }

  function GrantFor(grants: Grants, device: Bytes): Option<Capabilities> {
    var i := Slot(grants, device);
    if i < |grants| then Some(grants[i].1) else None
  }

  function VerifyDelegation(p: Primitives, root: Kel, device: Kel): Verdict<Capabilities> {
    var _ :- Verify(p, root);
    var _ :- Verify(p, device);
    var _ :- Check(Delegator(p, root).None?, RootIsDelegated);
    var _ :- Check(Delegator(p, device) == Some(DidOf(root.scid)), NotDelegated);
    var grant := GrantFor(DelegatedDevices(p, root.events), DidOf(device.scid));
    if grant.None? then Err(NotDelegated) else Ok(grant.value)
  }

  /** Delegation holds exactly when both sides say so: the device names the root, the root's last word grants. */
  lemma DelegationIsMutual(p: Primitives, root: Kel, device: Kel, c: Capabilities)
    ensures VerifyDelegation(p, root, device) == Ok(c) <==>
      && Verified(p, root) && Verified(p, device)
      && Delegator(p, root).None? && Delegator(p, device) == Some(DidOf(root.scid))
      && IsDid(p, DidOf(device.scid))
      && LastSeal(SealsOf(root.events), DidOf(device.scid)) == Some(Delegate(DidOf(device.scid), c))
  {
    var grants := DelegatedDevices(p, root.events);
    var did := DidOf(device.scid);
    DelegatedIffLastSealGrants(p, root.events, did, c);
    var i := Slot(grants, did);
    if (did, c) in grants {
      var j :| 0 <= j < |grants| && grants[j] == (did, c);
      assert i == j;
    }
    if i < |grants| && grants[i].1 == c {
      assert grants[i] == (did, c);
    }
  }
}
