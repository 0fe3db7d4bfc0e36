/** Why the journal theorem excludes the last sequence number: a log that laps the `u64` range. */
module WitnessOverflow {
  import opened Prelude
  import opened Events
  import opened Identity
  import opened Witnesses
  import opened WitnessJournals

  /** The `n`-th event of a chain that starts at the last sequence number and wraps around. */
  function Lap(p: Primitives, scid: Bytes, n: nat): Event {
    Event(0, scid, (U64_LIMIT - 1 + n) % U64_LIMIT, if n == 0 then [] else p.digest(Lap(p, scid, n - 1)),
          Interaction([]), [])
  }

  function LapCalls(p: Primitives, scid: Bytes, policy: WitnessPolicy, signer: Bytes, key: SigningKey,
                    n: nat): (cs: seq<Call>)
    ensures |cs| == n
  {
    if n == 0 then [] else
      LapCalls(p, scid, policy, signer, key, n - 1) + [CallObserve(Lap(p, scid, n - 1), policy, signer, key, 0)]
  }

  /** The journal's head is the `n`-th event of the chain, and nothing is reserved. */
  predicate AtLap(p: Primitives, scid: Bytes, n: nat, j: Journal) {
    && j.certified == map[] && DidOf(scid) in j.states
    && j.states[DidOf(scid)].sequence == Lap(p, scid, n).sn
    && j.states[DidOf(scid)].digest == p.digest(Lap(p, scid, n))
  }

  predicate LapReceipt(p: Primitives, scid: Bytes, policy: WitnessPolicy, signer: Bytes, n: nat, r: Receipt) {
    && r.statement.identity == DidOf(scid) && r.statement.signer == signer
    && r.statement.generation == policy.generation && r.statement.sequence == Lap(p, scid, n).sn
    && r.statement.eventDigest == p.digest(Lap(p, scid, n))
  }

  /** Every call presents a sequence number of at most `bound`. */
  predicate Within(calls: seq<Call>, bound: nat) {
    forall i :: 0 <= i < |calls| ==>
      match calls[i]
      case CallObserve(e, _, _, _, _) => e.sn <= bound
      case CallVerified(k, _, _, _, _) => |k.events| <= bound + 1
      case CallDeclared(k, _, _, _) => |k.events| <= bound + 1
      case CallCertify(k, _, _, _) => |k.events| <= bound + 1
  }

  ghost predicate Equivocates(p: Primitives, calls: seq<Call>) {
    exists a: Receipt, b: Receipt ::
      a in Issued(p, calls) && b in Issued(p, calls) && AssembleEquivocation(a, b).Ok?
  }

  lemma LapStep(p: Primitives, scid: Bytes, policy: WitnessPolicy, signer: Bytes, key: SigningKey, n: nat, j: Journal)
    requires signer in policy.witnesses && p.scidOk(scid)
    requires if n == 0 then j == EMPTY else AtLap(p, scid, n - 1, j)
    ensures var (j', r) := Observe(p, j, Lap(p, scid, n), policy, signer, key, 0);
      AtLap(p, scid, n, j') && r.Ok? && r.value.Accepted? && LapReceipt(p, scid, policy, signer, n, r.value.receipt)
  {
    if n > 0 { LapSequence(n); }
    SuccessorAccepted(p, j, Lap(p, scid, n), policy, signer, key);
  }

  lemma LapSequence(n: nat)
    requires n > 0
    ensures Succ((U64_LIMIT - 1 + (n - 1)) % U64_LIMIT) == (U64_LIMIT - 1 + n) % U64_LIMIT
    ensures (U64_LIMIT - 1 + (n - 1)) % U64_LIMIT != (U64_LIMIT - 1 + n) % U64_LIMIT
  {
  }

  /** A first-seen event, or a direct successor of an unreserved head, becomes the new head. */
  lemma SuccessorAccepted(p: Primitives, j: Journal, e: Event, policy: WitnessPolicy, signer: Bytes, key: SigningKey)
    requires signer in policy.witnesses && p.scidOk(e.scid) && j.certified == map[]
    requires DidOf(e.scid) in j.states ==> var s := j.states[DidOf(e.scid)];
      e.sn == Succ(s.sequence) && e.sn != s.sequence && e.prior == s.digest
    ensures var (j', r) := Observe(p, j, e, policy, signer, key, 0);
      && j'.certified == map[] && DidOf(e.scid) in j'.states
      && j'.states[DidOf(e.scid)].sequence == e.sn && j'.states[DidOf(e.scid)].digest == p.digest(e)
      && r.Ok? && r.value.Accepted?
      && r.value.receipt.statement == StatementFor(p, e, policy.generation, signer, 0)
  {
  }

  lemma NextLap(p: Primitives, scid: Bytes, policy: WitnessPolicy, signer: Bytes, key: SigningKey, n: nat,
                before: seq<Call>)
    requires signer in policy.witnesses && p.scidOk(scid)
    requires if n == 0 then RunJournal(p, before) == EMPTY else AtLap(p, scid, n - 1, RunJournal(p, before))
    ensures var calls := before + [CallObserve(Lap(p, scid, n), policy, signer, key, 0)];
      AtLap(p, scid, n, RunJournal(p, calls))
      && exists r :: r in Issued(p, calls) && LapReceipt(p, scid, policy, signer, n, r)
  {
    var j := RunJournal(p, before);
    LapStep(p, scid, policy, signer, key, n, j);
    LastCall(p, before, CallObserve(Lap(p, scid, n), policy, signer, key, 0));
    var r := Observe(p, j, Lap(p, scid, n), policy, signer, key, 0).1.value.receipt;
    assert r in Issued(p, before + [CallObserve(Lap(p, scid, n), policy, signer, key, 0)]);
  }

  /** Every event of the chain is accepted in turn. */
  lemma {:induction false} LapAccepted(p: Primitives, scid: Bytes, policy: WitnessPolicy, signer: Bytes,
                                       key: SigningKey, n: nat)
    requires signer in policy.witnesses && p.scidOk(scid)
    ensures AtLap(p, scid, n, RunJournal(p, LapCalls(p, scid, policy, signer, key, n + 1)))
    ensures exists r :: r in Issued(p, LapCalls(p, scid, policy, signer, key, n + 1))
                        && LapReceipt(p, scid, policy, signer, n, r)
  {
    if n > 0 { LapAccepted(p, scid, policy, signer, key, n - 1); }
    NextLap(p, scid, policy, signer, key, n, LapCalls(p, scid, policy, signer, key, n));
  }

  lemma LastCall(p: Primitives, calls: seq<Call>, c: Call)
    ensures RunJournal(p, calls + [c]) == Step(p, RunJournal(p, calls), c).0
    ensures Issued(p, calls + [c]) == Issued(p, calls) + Step(p, RunJournal(p, calls), c).1
  {
  }

  lemma LastCallGrows(p: Primitives, calls: seq<Call>, c: Call)
    ensures Issued(p, calls) <= Issued(p, calls + [c])
  {
  }

  lemma {:induction false} GrowsTo<T>(f: nat -> set<T>, i: nat, n: nat)
    requires i <= n
    requires forall k: nat :: f(k) <= f(k + 1)
    ensures f(i) <= f(n)
  {
    if i < n {
      GrowsTo(f, i, n - 1);
      assert f(n - 1) <= f(n - 1 + 1);
    }
  }

  lemma LapIssuedGrows(p: Primitives, scid: Bytes, policy: WitnessPolicy, signer: Bytes, key: SigningKey, i: nat,
                       n: nat)
    requires i <= n
    ensures Issued(p, LapCalls(p, scid, policy, signer, key, i)) <= Issued(p, LapCalls(p, scid, policy, signer, key, n))
  {
    var issued := (k: nat) => Issued(p, LapCalls(p, scid, policy, signer, key, k));
    forall k: nat ensures issued(k) <= issued(k + 1) { LapIssuedStep(p, scid, policy, signer, key, k); }
    GrowsTo(issued, i, n);
  }

  lemma LapIssuedStep(p: Primitives, scid: Bytes, policy: WitnessPolicy, signer: Bytes, key: SigningKey, k: nat)
    ensures Issued(p, LapCalls(p, scid, policy, signer, key, k))
            <= Issued(p, LapCalls(p, scid, policy, signer, key, k + 1))
  {
    LastCallGrows(p, LapCalls(p, scid, policy, signer, key, k), CallObserve(Lap(p, scid, k), policy, signer, key, 0));
  }

  /** The first and the last event of a full lap carry one sequence number. */
  lemma LapCloses(p: Primitives, scid: Bytes, policy: WitnessPolicy, signer: Bytes, a: Receipt, b: Receipt)
    requires LapReceipt(p, scid, policy, signer, 0, a) && LapReceipt(p, scid, policy, signer, U64_LIMIT, b)
    requires p.digest(Lap(p, scid, 0)) != p.digest(Lap(p, scid, U64_LIMIT))
    ensures AssembleEquivocation(a, b).Ok?
  {
  }

  /**
   Without the bound the property fails: a journal that first sees sequence 2^64 - 1 and then
   follows the chain all the way round signs two receipts that assemble into an equivocation proof.
   */
  lemma FullLapEquivocates(p: Primitives, scid: Bytes, policy: WitnessPolicy, signer: Bytes, key: SigningKey)
    requires signer in policy.witnesses && p.scidOk(scid)
    requires p.digest(Lap(p, scid, 0)) != p.digest(Lap(p, scid, U64_LIMIT))
    ensures Equivocates(p, LapCalls(p, scid, policy, signer, key, U64_LIMIT + 1))
  {
    LapAccepted(p, scid, policy, signer, key, 0);
    LapAccepted(p, scid, policy, signer, key, U64_LIMIT);
    var first := LapCalls(p, scid, policy, signer, key, 1);
    var calls := LapCalls(p, scid, policy, signer, key, U64_LIMIT + 1);
    var a :| a in Issued(p, first) && LapReceipt(p, scid, policy, signer, 0, a);
    var b :| b in Issued(p, calls) && LapReceipt(p, scid, policy, signer, U64_LIMIT, b);
    LapIssuedGrows(p, scid, policy, signer, key, 1, U64_LIMIT + 1);
    LapCloses(p, scid, policy, signer, a, b);
  }

  lemma {:induction false} LapsWithin(p: Primitives, scid: Bytes, policy: WitnessPolicy, signer: Bytes,
                                      key: SigningKey, n: nat)
    ensures Within(LapCalls(p, scid, policy, signer, key, n), U64_LIMIT - 1)
  {
    if n > 0 { LapsWithin(p, scid, policy, signer, key, n - 1); }
  }

  lemma WithinNeverEquivocates(p: Primitives, calls: seq<Call>, bound: nat)
    requires Within(calls, bound) && bound < U64_LIMIT - 1
    ensures !Equivocates(p, calls)
  {
    forall i | 0 <= i < |calls| ensures BelowLastSequence(calls[i]) { }
    forall a: Receipt, b: Receipt | a in Issued(p, calls) && b in Issued(p, calls)
      ensures AssembleEquivocation(a, b).Err?
    {
      JournalNeverEquivocates(p, calls, a, b);
    }
  }

  /** The bound is exact: runs within it never equivocate if and only if it is below the last sequence number. */
  lemma SequenceBoundIsExact(p: Primitives, scid: Bytes, policy: WitnessPolicy, signer: Bytes, key: SigningKey,
                             bound: nat)
    requires signer in policy.witnesses && p.scidOk(scid)
    requires p.digest(Lap(p, scid, 0)) != p.digest(Lap(p, scid, U64_LIMIT))
    ensures (forall calls :: Within(calls, bound) ==> !Equivocates(p, calls)) <==> bound < U64_LIMIT - 1
  {
    if bound < U64_LIMIT - 1 {
      forall calls | Within(calls, bound) ensures !Equivocates(p, calls) {
        WithinNeverEquivocates(p, calls, bound);
      }
    } else {
      var calls := LapCalls(p, scid, policy, signer, key, U64_LIMIT + 1);
      LapsWithin(p, scid, policy, signer, key, U64_LIMIT + 1);
      WiderBound(calls, U64_LIMIT - 1, bound);
      FullLapEquivocates(p, scid, policy, signer, key);
    }
  }

  lemma WiderBound(calls: seq<Call>, narrow: nat, wide: nat)
    requires Within(calls, narrow) && narrow <= wide
    ensures Within(calls, wide)
  {
  }
}
