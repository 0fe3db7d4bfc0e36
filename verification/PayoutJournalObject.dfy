/** The payout journal as an object bound to its configuration. */
module PayoutJournalObjects {
  import opened Prelude
  import opened PayoutJournals

  class PayoutJournal {
    const env: Env
    const config: Config
    var file: Option<Bytes>
    ghost var entry: Option<Entry>
    ghost var dispatched: set<Claim>

    ghost function State(): World
      reads this
    {
      World(file, entry, dispatched)
    }

    /** A journal over whatever the path holds; `w` is that file and its history. */
    constructor (e: Env, c: Config, content: Option<Bytes>, ghost w: World)
      requires w.file == content
      ensures env == e && config == c && State() == w
    {
      env, config, file := e, c, content;
      entry, dispatched := w.entry, w.dispatched;
    }

    method WriteRecord(phase: Phase, claim: Option<Claim>, outcome: WriteOutcome) returns (r: Reply<()>)
      modifies this`file, this`entry
      ensures (State(), r) == Write(env, old(State()), config, phase, claim, outcome)
    {
      var bytes := env.write(config, phase, claim);
      if bytes.None? { return Err(Unencodable); }
      if outcome == FailedBefore { return Err(StorageFailed); }
      file := bytes;
      entry := Some(Entry(config, phase, claim));
      return if outcome == FailedAfter then Err(StorageFailed) else Ok(());
    }

    method ReadRecord() returns (r: Reply<(Phase, Option<Claim>)>)
      ensures r == Read(env, State(), config)
    {
      if file.None? { return Err(StorageFailed); }
      return env.read(config, file.value);
    }

    method OpenFile(outcome: WriteOutcome) returns (r: Reply<()>)
      modifies this`file, this`entry
      ensures (State(), r) == Open(env, old(State()), config, outcome)
    {
      if !ConfigOk(config) { return Err(InvalidConfiguration); }
      if file.None? {
        var _ :- WriteRecord(Pending, None, outcome);
      }
      var _ :- ReadRecord();
      return Ok(());
    }

    method AuthorizePayout(a: Approval, outcome: WriteOutcome) returns (r: Reply<()>)
      modifies this`file, this`entry
      ensures (State(), r) == Authorize(env, old(State()), config, a, outcome)
    {
      if !ApprovalOk(config, a) { return Err(WrongApproval); }
      var read :- ReadRecord();
      var (phase, claim) := read;
      if phase == Pending {
        r := WriteRecord(Authorized, None, outcome);
      } else {
        r := WriteRecord(phase, claim, outcome);
      }
    }

    /** `sent` is whether the dispatch callback succeeds. */
    method SubmitClaim(a: Approval, claim: Claim, outcome: WriteOutcome, sent: bool) returns (r: Reply<()>)
      modifies this`file, this`entry, this`dispatched
      ensures (State(), r) == Submit(env, old(State()), config, a, claim, outcome, sent)
    {
      if !ApprovalOk(config, a) { return Err(WrongApproval); }
      if !ClaimOk(env, config, claim) { return Err(WrongPayment); }
      var read :- ReadRecord();
      var (phase, prior) := read;
      if phase == Pending { return Err(NotAuthorized); }
      if prior.Some? && prior.value != claim { return Err(AlreadySubmitted); }
      if phase == Finalized { return Ok(()); }
      var _ :- WriteRecord(Submitted, Some(claim), outcome);
      dispatched := dispatched + {claim};
      return if sent then Ok(()) else Err(DispatchFailed);
    }

    method ReconcileWith(chain: Chain, outcome: WriteOutcome) returns (r: Reply<bool>)
      modifies this`file, this`entry
      ensures (State(), r) == Reconcile(env, old(State()), config, chain, outcome)
    {
      if chain.network != config.network { return Err(WrongNetwork); }
      var read :- ReadRecord();
      var claim := read.1;
      if claim.None? { return Ok(false); }
      var digest := env.digest(claim.value);
      var actual := chain.finalized(claim.value.payer, claim.value.sequence);
      if actual.Some? {
        if actual.value != digest { return Err(SequenceConsumed); }
        var _ :- WriteRecord(Finalized, claim, outcome);
        return Ok(true);
      }
      return if chain.rejected(digest) then Err(CanonicallyRejected) else Ok(false);
    }
  }
}
