/** How long a run must be before the wrapped successor can hurt: more than 2^64 calls. */
module WitnessLaps {
  import opened Prelude
  import opened Events
  import opened Identity
  import opened KeyEventLog
  import opened Witnesses
  import opened WitnessJournals
  import opened WitnessOverflow

  datatype Link = Link(sequence: nat, digest: Bytes)

  /** Every head an identity has had, each the wrapped successor of the one before. */
  predicate Linked(c: seq<Link>) {
    c != [] && forall i :: 0 <= i < |c| ==> c[i].sequence == (c[0].sequence + i) % U64_LIMIT
  }

  function HeadReservation(j: Journal, id: Bytes): Option<Bytes>
    requires id in j.states
  {
    Reserved(j, id, j.states[id].digest, j.states[id].policy.generation)
  }

  function LinkOf(st: Statement): Link { Link(st.sequence, st.eventDigest) }

  /** One of the heads, or the reserved successor of the last, which took a call of its own. */
  predicate Placed(c: seq<Link>, reserved: Option<Bytes>, n: nat, l: Link) {
    l in c || (c != [] && |c| < n && l.sequence == Succ(c[|c| - 1].sequence) && reserved == Some(l.digest))
  }

  predicate Tracked(c: seq<Link>, s: IdentityState, n: nat) {
    Linked(c) && |c| <= n && c[|c| - 1] == Link(s.sequence, s.digest)
  }

  /** After `n` calls every receipt has its place on its identity's chain, and no chain is longer than `n`. */
  ghost predicate Laps(j: Journal, h: map<Bytes, seq<Link>>, issued: set<Receipt>, n: nat) {
    && h.Keys == j.states.Keys
    && (forall id :: id in h ==>
          Tracked(h[id], j.states[id], n)
          && j.states[id].receipt in issued && j.states[id].receipt.statement.identity == id)
    && (forall r :: r in issued ==>
          r.statement.identity in h
          && Placed(h[r.statement.identity], HeadReservation(j, r.statement.identity), n, LinkOf(r.statement)))
  }

  /** An idle call changes nothing but the count. */
  lemma Idle(j: Journal, h: map<Bytes, seq<Link>>, issued: set<Receipt>, n: nat)
    requires Laps(j, h, issued, n)
    ensures Laps(j, h, issued, n + 1)
  {
  }

  /* ---- a new head ---- */

  function Extended(h: map<Bytes, seq<Link>>, id: Bytes, l: Link): map<Bytes, seq<Link>> {
    h[id := (if id in h then h[id] else []) + [l]]
  }

  lemma LinkedMore(c: seq<Link>, l: Link)
    requires Linked(c) && l.sequence == Succ(c[|c| - 1].sequence)
    ensures Linked(c + [l])
  {
  }

  /** What was placed stays placed, the honoured reservation now as a head. */
  lemma PlacedExtends(c: seq<Link>, reserved: Option<Bytes>, later: Option<Bytes>, l: Link, n: nat, x: Link)
    requires c != [] && l.sequence == Succ(c[|c| - 1].sequence) && (reserved.None? || reserved.value == l.digest)
    requires Placed(c, reserved, n, x)
    ensures Placed(c + [l], later, n + 1, x)
  {
    if x !in c { assert x == l; }
  }

  ghost predicate HeadFollows(j: Journal, id: Bytes, s: IdentityState) {
    && s.receipt.statement.identity == id && LinkOf(s.receipt.statement) == Link(s.sequence, s.digest)
    && s.sequence < U64_LIMIT
    && (id in j.states ==>
          s.sequence == Succ(j.states[id].sequence)
          && (HeadReservation(j, id).None? || HeadReservation(j, id).value == s.digest))
  }

  lemma PlacedAfterHead(j: Journal, h: map<Bytes, seq<Link>>, issued: set<Receipt>, n: nat, id: Bytes, s: IdentityState,
                        r: Receipt)
    requires Laps(j, h, issued, n) && HeadFollows(j, id, s) && r in issued + {s.receipt}
    ensures var j', h' := j.(states := j.states[id := s]), Extended(h, id, Link(s.sequence, s.digest));
      r.statement.identity in h'
      && Placed(h'[r.statement.identity], HeadReservation(j', r.statement.identity), n + 1, LinkOf(r.statement))
  {
    var j' := j.(states := j.states[id := s]);
    if r in issued && r.statement.identity == id {
      PlacedExtends(h[id], HeadReservation(j, id), HeadReservation(j', id), Link(s.sequence, s.digest), n,
                    LinkOf(r.statement));
    }
  }

  lemma NewHead(j: Journal, h: map<Bytes, seq<Link>>, issued: set<Receipt>, n: nat, id: Bytes, s: IdentityState)
    requires Laps(j, h, issued, n) && HeadFollows(j, id, s)
    ensures Laps(j.(states := j.states[id := s]), Extended(h, id, Link(s.sequence, s.digest)),
                 issued + {s.receipt}, n + 1)
  {
    var l := Link(s.sequence, s.digest);
    var j', h' := j.(states := j.states[id := s]), Extended(h, id, l);
    if id in h { LinkedMore(h[id], l); }
    forall r | r in issued + {s.receipt}
      ensures r.statement.identity in h'
              && Placed(h'[r.statement.identity], HeadReservation(j', r.statement.identity), n + 1, LinkOf(r.statement))
    {
      PlacedAfterHead(j, h, issued, n, id, s, r);
    }
  }

  /* ---- a certified successor ---- */

  function WithReservation(j: Journal, id: Bytes, digest: Bytes): Journal
    requires id in j.states
  {
    j.(certified := j.certified[TransitionKey(id, j.states[id].digest, j.states[id].policy.generation) := digest])
  }

  lemma NewReservation(j: Journal, h: map<Bytes, seq<Link>>, issued: set<Receipt>, n: nat, id: Bytes, r: Receipt)
    requires Laps(j, h, issued, n) && id in j.states && r.statement.identity == id
    requires r.statement.sequence == Succ(j.states[id].sequence)
    requires HeadReservation(j, id).None? || HeadReservation(j, id).value == r.statement.eventDigest
    ensures Laps(WithReservation(j, id, r.statement.eventDigest), h, issued + {r}, n + 1)
  {
    var j' := WithReservation(j, id, r.statement.eventDigest);
    forall i | i in h && i != id ensures HeadReservation(j', i) == HeadReservation(j, i) { }
  }

  /* ---- runs ---- */

  lemma ObserveLaps(p: Primitives, j: Journal, h: map<Bytes, seq<Link>>, issued: set<Receipt>, n: nat, e: Event,
                    policy: WitnessPolicy, signer: Bytes, key: SigningKey, epoch: nat) returns (h': map<Bytes,
                      seq<Link>>)
    requires Laps(j, h, issued, n) && e.sn < U64_LIMIT
    ensures var (j', r) := Observe(p, j, e, policy, signer, key, epoch); Laps(j', h', issued + ReceiptsOf(r), n + 1)
  {
    var (j', r) := Observe(p, j, e, policy, signer, key, epoch);
    var id := DidOf(e.scid);
    if r.Ok? && r.value.Accepted? {
      AcceptedFollows(p, j, e, policy, signer, key, epoch);
      NewHead(j, h, issued, n, id, j'.states[id]);
      h' := Extended(h, id, Link(j'.states[id].sequence, j'.states[id].digest));
    } else {
      UnacceptedKeeps(p, j, h, issued, n, e, policy, signer, key, epoch);
      Idle(j, h, issued, n);
      h' := h;
    }
  }

  lemma AcceptedFollows(p: Primitives, j: Journal, e: Event, policy: WitnessPolicy, signer: Bytes, key: SigningKey,
                        epoch: nat)
    requires e.sn < U64_LIMIT && var r := Observe(p, j, e, policy, signer, key, epoch).1; r.Ok? && r.value.Accepted?
    ensures var (j', r) := Observe(p, j, e, policy, signer, key, epoch); var id := DidOf(e.scid);
      && id in j'.states && j' == j.(states := j.states[id := j'.states[id]])
      && r.value.receipt == j'.states[id].receipt && HeadFollows(j, id, j'.states[id])
  {
  }

  lemma UnacceptedKeeps(p: Primitives, j: Journal, h: map<Bytes, seq<Link>>, issued: set<Receipt>, n: nat, e: Event,
                        policy: WitnessPolicy, signer: Bytes, key: SigningKey, epoch: nat)
    requires Laps(j, h, issued, n)
    requires var r := Observe(p, j, e, policy, signer, key, epoch).1; !(r.Ok? && r.value.Accepted?)
    ensures var (j', r) := Observe(p, j, e, policy, signer, key, epoch); j' == j && issued + ReceiptsOf(r) == issued
  {
  }

  lemma CertifiedFollows(p: Primitives, j: Journal, k: Kel, signer: Bytes, key: SigningKey, epoch: nat)
    requires Certify(p, j, k, signer, key, epoch).1.Ok?
    ensures var (j', r) := Certify(p, j, k, signer, key, epoch); var id := DidOf(k.scid); var st := r.value.statement;
      && id in j.states && st.identity == id && st.sequence == Succ(j.states[id].sequence)
      && (HeadReservation(j, id).None? || HeadReservation(j, id).value == st.eventDigest)
      && j' == WithReservation(j, id, st.eventDigest)
  {
  }

  lemma CertifyLaps(p: Primitives, j: Journal, h: map<Bytes, seq<Link>>, issued: set<Receipt>, n: nat, k: Kel,
                    signer: Bytes, key: SigningKey, epoch: nat)
    requires Laps(j, h, issued, n)
    ensures var (j', r) := Certify(p, j, k, signer, key, epoch);
      Laps(j', h, issued + if r.Ok? then {r.value} else {}, n + 1)
  {
    var (j', r) := Certify(p, j, k, signer, key, epoch);
    if r.Ok? {
      CertifiedFollows(p, j, k, signer, key, epoch);
      NewReservation(j, h, issued, n, DidOf(k.scid), r.value);
    } else {
      assert issued + {} == issued;
      Idle(j, h, issued, n);
    }
  }

  /** The sequence number a call presents is a `u64`. */
  predicate Presents64(c: Call) {
    match c
    case CallObserve(e, _, _, _, _) => e.sn < U64_LIMIT
    case CallVerified(k, _, _, _, _) => |k.events| <= U64_LIMIT
    case CallDeclared(k, _, _, _) => |k.events| <= U64_LIMIT
    case CallCertify(_, _, _, _) => true
  }

  /** Observing the head of a log whose verification may fail. */
  lemma LogLaps(p: Primitives, j: Journal, h: map<Bytes, seq<Link>>, issued: set<Receipt>, n: nat, k: Kel,
                policy: WitnessPolicy, signer: Bytes, key: SigningKey, epoch: nat) returns (h': map<Bytes, seq<Link>>)
    requires Laps(j, h, issued, n) && |k.events| <= U64_LIMIT
    ensures var (j', r) := ObserveVerified(p, j, k, policy, signer, key, epoch);
      Laps(j', h', issued + ReceiptsOf(r), n + 1)
  {
    if Verify(p, k).Ok? {
      VerifiedShape(p, k, |k.events| - 1);
      h' := ObserveLaps(p, j, h, issued, n, k.events[|k.events| - 1], policy, signer, key, epoch);
    } else {
      assert issued + {} == issued;
      Idle(j, h, issued, n);
      h' := h;
    }
  }

  lemma StepLaps(p: Primitives, j: Journal, h: map<Bytes, seq<Link>>, issued: set<Receipt>, n: nat, c: Call)
    returns (h': map<Bytes, seq<Link>>)
    requires Laps(j, h, issued, n) && Presents64(c)
    ensures Laps(Step(p, j, c).0, h', issued + Step(p, j, c).1, n + 1)
  {
    h' := h;
    match c {
      case CallObserve(e, policy, signer, key, epoch) =>
        h' := ObserveLaps(p, j, h, issued, n, e, policy, signer, key, epoch);
      case CallVerified(k, policy, signer, key, epoch) =>
        h' := LogLaps(p, j, h, issued, n, k, policy, signer, key, epoch);
      case CallDeclared(k, signer, key, epoch) =>
        var policy := DeclaredPolicy(p, k.events);
        if Verify(p, k).Ok? && policy.Some? {
          h' := LogLaps(p, j, h, issued, n, k, policy.value, signer, key, epoch);
        } else {
          assert issued + {} == issued;
          Idle(j, h, issued, n);
        }
      case CallCertify(k, signer, key, epoch) => CertifyLaps(p, j, h, issued, n, k, signer, key, epoch);
    }
  }

  lemma {:induction false} RunLaps(p: Primitives, calls: seq<Call>) returns (h: map<Bytes, seq<Link>>)
    requires forall i :: 0 <= i < |calls| ==> Presents64(calls[i])
    ensures Laps(RunJournal(p, calls), h, Issued(p, calls), |calls|)
  {
    h := map[];
    if calls != [] {
      var n := |calls| - 1;
      h := RunLaps(p, calls[..n]);
      h := StepLaps(p, RunJournal(p, calls[..n]), h, Issued(p, calls[..n]), n, calls[n]);
    }
  }

  /** Within one lap no sequence number comes back. */
  lemma OneLap(c: seq<Link>, i: nat, k: nat)
    requires Linked(c) && |c| <= U64_LIMIT && i < |c| && k < |c| && c[i].sequence == c[k].sequence
    ensures i == k
  {
  }

  lemma PlacedAgree(c: seq<Link>, reserved: Option<Bytes>, n: nat, x: Link, y: Link)
    requires Linked(c) && |c| <= n <= U64_LIMIT && Placed(c, reserved, n, x) && Placed(c, reserved, n, y)
    requires x.sequence == y.sequence
    ensures x == y
  {
    var all := if x in c && y in c then c else c + [if x in c then y else x];
    if !(x in c && y in c) { LinkedMore(c, all[|c|]); }
    assert x in all && y in all;
    var i :| 0 <= i < |all| && all[i] == x;
    var k :| 0 <= k < |all| && all[k] == y;
    OneLap(all, i, k);
  }

  /** A run of at most 2^64 calls never equivocates, whatever sequence numbers it presents. */
  lemma ShortRunNeverEquivocates(p: Primitives, calls: seq<Call>)
    requires |calls| <= U64_LIMIT && forall i :: 0 <= i < |calls| ==> Presents64(calls[i])
    ensures !Equivocates(p, calls)
  {
    var h := RunLaps(p, calls);
    var j := RunJournal(p, calls);
    forall a: Receipt, b: Receipt | a in Issued(p, calls) && b in Issued(p, calls)
      ensures AssembleEquivocation(a, b).Err?
    {
      if a.statement.identity == b.statement.identity && a.statement.sequence == b.statement.sequence {
        var id := a.statement.identity;
        PlacedAgree(h[id], HeadReservation(j, id), |calls|, LinkOf(a.statement), LinkOf(b.statement));
      }
    }
  }

  /** Runs of at most `n` calls. */
  predicate ShortRun(calls: seq<Call>, n: nat) {
    |calls| <= n && forall i :: 0 <= i < |calls| ==> Presents64(calls[i])
  }

  /** And 2^64 calls is exact: one call more can equivocate. */
  lemma LengthBoundIsExact(p: Primitives, scid: Bytes, policy: WitnessPolicy, signer: Bytes, key: SigningKey, n: nat)
    requires signer in policy.witnesses && p.scidOk(scid)
    requires p.digest(Lap(p, scid, 0)) != p.digest(Lap(p, scid, U64_LIMIT))
    ensures (forall calls :: ShortRun(calls, n) ==> !Equivocates(p, calls)) <==> n <= U64_LIMIT
  {
    if n <= U64_LIMIT {
      forall calls | ShortRun(calls, n) ensures !Equivocates(p, calls) { ShortRunNeverEquivocates(p, calls); }
    } else {
      var calls := LapCalls(p, scid, policy, signer, key, U64_LIMIT + 1);
      LapsWithin(p, scid, policy, signer, key, U64_LIMIT + 1);
      forall i | 0 <= i < |calls| ensures Presents64(calls[i]) { }
      FullLapEquivocates(p, scid, policy, signer, key);
      assert ShortRun(calls, n);
    }
  }
}
