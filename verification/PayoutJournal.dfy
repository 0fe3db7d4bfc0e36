/** The payout journal: one claim, dispatched only after it is on disk, across crashes and reopens. */
module PayoutJournals {
  import opened Prelude
  import opened AirdropTypes

  datatype Phase = Pending | Authorized | Submitted | Finalized

  function Rank(p: Phase): nat {
    match p case Pending => 0 case Authorized => 1 case Submitted => 2 case Finalized => 3
  }

  /** Local trust inputs of one journal; campaign and identity select its file. */
  datatype Config = Config(network: Bytes, payer: Bytes, campaign: Bytes, outcome: Outcome)

  datatype Claim = Claim(
    network: Bytes, payer: Bytes, payee: Bytes, amount: nat, sequence: nat, memo: Bytes, signature: Bytes)

  datatype Approval = Approval(campaign: Bytes, outcome: Outcome)

  /** What a ledger backed by quorum certificates says. */
  datatype Chain = Chain(network: Bytes, finalized: (Bytes, nat) -> Option<Bytes>, rejected: Bytes -> bool)

  datatype PayoutError =
    | InvalidConfiguration | CorruptRecord | WrongApproval | WrongPayment | NotAuthorized | AlreadySubmitted
    | WrongNetwork | SequenceConsumed | CanonicallyRejected | StorageFailed | DispatchFailed | Unencodable

  type Reply<T> = Result<T, PayoutError>

  /** Record files, claim digests and claim signatures. */
  datatype Env = Env(
    write: (Config, Phase, Option<Claim>) -> Option<Bytes>,
    read: (Config, Bytes) -> Reply<(Phase, Option<Claim>)>,
    digest: Claim -> Bytes, signatureOk: Claim -> bool)

  /** The facts a written file carries. */
  datatype Entry = Entry(config: Config, phase: Phase, claim: Option<Claim>)

  /**
   The file, what it was written from, and every claim handed to the network; only the file is
   ever read.
   */
  datatype World = World(file: Option<Bytes>, entry: Option<Entry>, dispatched: set<Claim>)

  predicate ConfigOk(c: Config) {
    |c.campaign| <= MAX_CAMPAIGN_ID_BYTES && |c.payer| == 32 && |c.outcome.recipient| <= MAX_RECIPIENT_BYTES
    && c.outcome.amount != 0
  }

  predicate ApprovalOk(c: Config, a: Approval) { a.campaign == c.campaign && a.outcome == c.outcome }

  predicate ClaimOk(env: Env, c: Config, claim: Claim) {
    && claim.network == c.network && claim.payer == c.payer && claim.payee == c.outcome.recipient
    && claim.amount == c.outcome.amount && env.signatureOk(claim)
  }

  /** Replace the whole file or, on failure, perhaps not. */
  function Write(env: Env, w: World, c: Config, phase: Phase, claim: Option<Claim>, outcome: WriteOutcome)
    : (World, Reply<()>)
  {
    var bytes := env.write(c, phase, claim);
    if bytes.None? then (w, Err(Unencodable)) else
      var after := w.(file := bytes, entry := Some(Entry(c, phase, claim)));
      match outcome
      case Done => (after, Ok(()))
      case FailedBefore => (w, Err(StorageFailed))
      case FailedAfter => (after, Err(StorageFailed))
  }

  function Read(env: Env, w: World, c: Config): Reply<(Phase, Option<Claim>)> {
    if w.file.None? then Err(StorageFailed) else env.read(c, w.file.value)
  }

  function Open(env: Env, w: World, c: Config, outcome: WriteOutcome): (World, Reply<()>) {
    if !ConfigOk(c) then (w, Err(InvalidConfiguration)) else
    var (w1, r) := if w.file.None? then Write(env, w, c, Pending, None, outcome) else (w, Ok(()));
    if r.Err? then (w1, r) else
      var read := Read(env, w1, c);
      (w1, if read.Ok? then Ok(()) else Err(read.error))
  }

  function Authorize(env: Env, w: World, c: Config, a: Approval, outcome: WriteOutcome): (World, Reply<()>) {
    if !ApprovalOk(c, a) then (w, Err(WrongApproval)) else
    var read := Read(env, w, c);
    if read.Err? then (w, Err(read.error))
    else if read.value.0 == Pending then Write(env, w, c, Authorized, None, outcome)
    else Write(env, w, c, read.value.0, read.value.1, outcome)
  }

  /** `Submitted` reaches the disk before the claim reaches the network. */
  function Submit(env: Env, w: World, c: Config, a: Approval, claim: Claim, outcome: WriteOutcome, sent: bool)
    : (World, Reply<()>)
  {
    if !ApprovalOk(c, a) then (w, Err(WrongApproval))
    else if !ClaimOk(env, c, claim) then (w, Err(WrongPayment))
    else
      var read := Read(env, w, c);
      if read.Err? then (w, Err(read.error)) else
      var (phase, prior) := read.value;
      if phase == Pending then (w, Err(NotAuthorized))
      else if prior.Some? && prior.value != claim then (w, Err(AlreadySubmitted))
      else if phase == Finalized then (w, Ok(()))
      else
        var (w1, r) := Write(env, w, c, Submitted, Some(claim), outcome);
        if r.Err? then (w1, r)
        else (w1.(dispatched := w1.dispatched + {claim}), if sent then Ok(()) else Err(DispatchFailed))
  }

  function Reconcile(env: Env, w: World, c: Config, chain: Chain, outcome: WriteOutcome): (World, Reply<bool>) {
    if chain.network != c.network then (w, Err(WrongNetwork)) else
    var read := Read(env, w, c);
    if read.Err? then (w, Err(read.error))
    else if read.value.1.None? then (w, Ok(false))
    else
      var claim := read.value.1.value;
      match chain.finalized(claim.payer, claim.sequence)
      case Some(actual) =>
        if actual != env.digest(claim) then (w, Err(SequenceConsumed)) else
          var (w1, r) := Write(env, w, c, Finalized, Some(claim), outcome);
          (w1, if r.Ok? then Ok(true) else Err(r.error))
      case None =>
        (w, if chain.rejected(env.digest(claim)) then Err(CanonicallyRejected) else Ok(false))
  }

  /* ---- runs: any sessions, any configurations, any failures, over one file ---- */

  datatype Action =
    | Opening(config: Config, outcome: WriteOutcome)
    | Authorizing(config: Config, approval: Approval, outcome: WriteOutcome)
    | Submitting(config: Config, approval: Approval, claim: Claim, outcome: WriteOutcome, sent: bool)
    | Reconciling(config: Config, chain: Chain, outcome: WriteOutcome)

  function Act(env: Env, w: World, a: Action): World {
    match a
    case Opening(c, outcome) => Open(env, w, c, outcome).0
    case Authorizing(c, approval, outcome) => Authorize(env, w, c, approval, outcome).0
    case Submitting(c, approval, claim, outcome, sent) => Submit(env, w, c, approval, claim, outcome, sent).0
    case Reconciling(c, chain, outcome) => Reconcile(env, w, c, chain, outcome).0
  }

  function Run(env: Env, w: World, actions: seq<Action>): World {
    if actions == [] then w else Act(env, Run(env, w, actions[..|actions| - 1]), actions[|actions| - 1])
  }

  /**
   A file read under the configuration it was written with gives back what was written or nothing;
   under any other configuration it gives nothing.
   */
  ghost predicate EnvSound(env: Env) {
    forall c: Config, phase: Phase, claim: Option<Claim>, d: Config ::
      env.write(c, phase, claim).Some? && env.read(d, env.write(c, phase, claim).value).Ok? ==>
        d == c && env.read(d, env.write(c, phase, claim).value) == Ok((phase, claim))
        && (claim.Some? <==> Rank(phase) >= 2)
  }

  ghost predicate Inv(env: Env, w: World) {
    && (w.file.Some? <==> w.entry.Some?)
    && (w.entry.Some? ==> w.file == env.write(w.entry.value.config, w.entry.value.phase, w.entry.value.claim))
    && (forall c :: c in w.dispatched ==> w.entry.Some? && w.entry.value.claim == Some(c))
    && (w.entry.Some? && w.entry.value.claim.Some? ==>
          Rank(w.entry.value.phase) >= 2 && ClaimOk(env, w.entry.value.config, w.entry.value.claim.value))
  }

  /** The configuration and a recorded claim are fixed; the phase only rises. */
  predicate Advances(before: Option<Entry>, after: Option<Entry>) {
    before.Some? ==>
      && after.Some? && after.value.config == before.value.config
      && Rank(before.value.phase) <= Rank(after.value.phase)
      && (before.value.claim.Some? ==> after.value.claim == before.value.claim)
  }

  lemma ReadMeaning(env: Env, w: World, c: Config)
    requires EnvSound(env) && Inv(env, w) && Read(env, w, c).Ok?
    ensures w.entry.Some? && w.entry.value == Entry(c, Read(env, w, c).value.0, Read(env, w, c).value.1)
    ensures w.entry.value.claim.Some? <==> Rank(w.entry.value.phase) >= 2
  {
  }

  lemma ActStep(env: Env, w: World, a: Action)
    requires EnvSound(env) && Inv(env, w)
    ensures Inv(env, Act(env, w, a)) && Advances(w.entry, Act(env, w, a).entry)
    ensures w.dispatched <= Act(env, w, a).dispatched
  {
  }

  lemma AdvancesTransitive(a: Option<Entry>, b: Option<Entry>, c: Option<Entry>)
    requires Advances(a, b) && Advances(b, c)
    ensures Advances(a, c)
  {
  }

  /** Over every run the phase never falls, the configuration and the recorded claim never change. */
  lemma {:induction false} RunAdvances(env: Env, w: World, actions: seq<Action>)
    requires EnvSound(env) && Inv(env, w)
    ensures Inv(env, Run(env, w, actions)) && Advances(w.entry, Run(env, w, actions).entry)
    ensures w.dispatched <= Run(env, w, actions).dispatched
  {
    if actions != [] {
      var before := Run(env, w, actions[..|actions| - 1]);
      RunAdvances(env, w, actions[..|actions| - 1]);
      ActStep(env, before, actions[|actions| - 1]);
      AdvancesTransitive(w.entry, before.entry, Act(env, before, actions[|actions| - 1]).entry);
    }
  }

  const EMPTY := World(None, None, {})

  /** At most one claim is ever dispatched, and it is the one on disk. */
  lemma OneClaimDispatched(env: Env, actions: seq<Action>, x: Claim, y: Claim)
    requires EnvSound(env)
    requires x in Run(env, EMPTY, actions).dispatched && y in Run(env, EMPTY, actions).dispatched
    ensures x == y && Run(env, EMPTY, actions).entry.Some? && Run(env, EMPTY, actions).entry.value.claim == Some(x)
    ensures ClaimOk(env, Run(env, EMPTY, actions).entry.value.config, x)
  {
    RunAdvances(env, EMPTY, actions);
  }

  /** A claim is dispatched only by a call that has already made it durable. */
  lemma DurableBeforeDispatch(env: Env, w: World, a: Action, claim: Claim)
    requires EnvSound(env) && Inv(env, w) && claim !in w.dispatched && claim in Act(env, w, a).dispatched
    ensures a.Submitting? && a.claim == claim && a.outcome == Done
    ensures Write(env, w, a.config, Submitted, Some(claim), Done).1.Ok?
    ensures Act(env, w, a).entry == Some(Entry(a.config, Submitted, Some(claim)))
  {
  }

  /** `Finalized` is first written only for a claim whose digest the canonical ledger carries. */
  lemma FinalizedOnlyFromChain(env: Env, w: World, a: Action)
    requires EnvSound(env) && Inv(env, w)
    requires Act(env, w, a).entry.Some? && Act(env, w, a).entry.value.phase == Finalized
    requires w.entry.None? || w.entry.value.phase != Finalized
    ensures a.Reconciling? && w.entry.Some? && w.entry.value.claim.Some? && w.entry.value.phase == Submitted
    ensures var claim := w.entry.value.claim.value;
      a.chain.network == a.config.network
      && a.chain.finalized(claim.payer, claim.sequence) == Some(env.digest(claim))
  {
  }

  /** Whatever happened before, a file opened under another configuration is refused and untouched. */
  lemma OtherConfigRefused(env: Env, w: World, actions: seq<Action>, c: Config, outcome: WriteOutcome)
    requires EnvSound(env) && Inv(env, w) && w.entry.Some? && c != w.entry.value.config
    ensures var later := Run(env, w, actions);
      Open(env, later, c, outcome).0 == later && Open(env, later, c, outcome).1.Err?
  {
    RunAdvances(env, w, actions);
    var later := Run(env, w, actions);
    if Read(env, later, c).Ok? { ReadMeaning(env, later, c); }
  }

  /* ---- exactly when each call succeeds ---- */

  /** The file reads back, under its own configuration, as what was written into it. */
  predicate Reads(env: Env, w: World, c: Config) {
    w.file.Some? && env.read(c, w.file.value).Ok?
  }

  predicate Pays(env: Env, c: Config, claim: Claim) {
    && (claim.network, claim.payer) == (c.network, c.payer)
    && (claim.payee, claim.amount) == (c.outcome.recipient, c.outcome.amount) && env.signatureOk(claim)
  }

  predicate Durable(env: Env, c: Config, phase: Phase, claim: Option<Claim>, outcome: WriteOutcome) {
    env.write(c, phase, claim).Some? && outcome == Done
  }

  /** After a successful write the file holds exactly this. */
  predicate Holds(env: Env, w: World, c: Config, phase: Phase, claim: Option<Claim>) {
    w.entry == Some(Entry(c, phase, claim)) && w.file == env.write(c, phase, claim)
  }

  /**
   A claim goes to the network exactly when it pays the approved outcome, an approval was recorded
   before, no other claim was, the payout is not final, and its own record is durable.
   */
  lemma DispatchedExactly(env: Env, w: World, c: Config, a: Approval, claim: Claim, outcome: WriteOutcome, sent: bool)
    requires EnvSound(env) && Inv(env, w) && claim !in w.dispatched
    ensures var (after, r) := Submit(env, w, c, a, claim, outcome, sent);
      && (claim in after.dispatched <==>
            && a.campaign == c.campaign && a.outcome == c.outcome && Pays(env, c, claim) && Reads(env, w, c)
            && (w.entry.value.phase == Authorized || w.entry.value == Entry(c, Submitted, Some(claim)))
            && Durable(env, c, Submitted, Some(claim), outcome))
      && (claim in after.dispatched ==>
            after.dispatched == w.dispatched + {claim} && Holds(env, after, c, Submitted, Some(claim)))
      && (claim in after.dispatched ==> (r == Ok(()) <==> sent))
      && (claim !in after.dispatched ==> after.dispatched == w.dispatched)
  {
    if Reads(env, w, c) { ReadMeaning(env, w, c); }
  }

  /** The other answers of a submission. */
  lemma SubmitRefusals(env: Env, w: World, c: Config, a: Approval, claim: Claim, outcome: WriteOutcome, sent: bool)
    requires EnvSound(env) && Inv(env, w) && ApprovalOk(c, a) && Pays(env, c, claim) && Reads(env, w, c)
    ensures var (after, r) := Submit(env, w, c, a, claim, outcome, sent);
      && w.entry.Some?
      && (r == Err(NotAuthorized) <==> w.entry.value.phase == Pending)
      && (r == Err(AlreadySubmitted) <==> w.entry.value.claim.Some? && w.entry.value.claim.value != claim)
      && (w.entry.value == Entry(c, Finalized, Some(claim)) ==> r == Ok(()) && after == w)
      && (r == Err(NotAuthorized) || r == Err(AlreadySubmitted) ==> after == w)
  {
    ReadMeaning(env, w, c);
  }

  /** Authorizing lifts a pending payout, and never lowers or alters a later one. */
  lemma AuthorizedExactly(env: Env, w: World, c: Config, a: Approval, outcome: WriteOutcome)
    requires EnvSound(env) && Inv(env, w)
    ensures var (after, r) := Authorize(env, w, c, a, outcome);
      && (r.Ok? ==> a.campaign == c.campaign && a.outcome == c.outcome && Reads(env, w, c) && outcome == Done)
      && (r.Ok? && w.entry.value.phase == Pending ==> Holds(env, after, c, Authorized, None))
      && (r.Ok? && w.entry.value.phase != Pending ==> after.entry == w.entry && after.file == w.file)
      && (a.campaign == c.campaign && a.outcome == c.outcome && Reads(env, w, c) ==>
            var e := w.entry.value;
            (r.Ok? <==> Durable(env, c, if e.phase == Pending then Authorized else e.phase, e.claim, outcome)))
      && after.dispatched == w.dispatched
  {
    if Reads(env, w, c) { ReadMeaning(env, w, c); }
  }

  /** A new file starts pending under a well-formed configuration; an old one must read back. */
  lemma OpenedExactly(env: Env, w: World, c: Config, outcome: WriteOutcome)
    ensures var (after, r) := Open(env, w, c, outcome);
      var ok := |c.campaign| <= 128 && |c.payer| == 32 && |c.outcome.recipient| <= 256 && c.outcome.amount > 0;
      && (w.file.Some? ==> after == w && (r.Ok? <==> ok && env.read(c, w.file.value).Ok?))
      && (w.file.None? ==>
            (r.Ok? <==> ok && Durable(env, c, Pending, None, outcome)
                        && env.read(c, env.write(c, Pending, None).value).Ok?))
      && (w.file.None? && r.Ok? ==> Holds(env, after, c, Pending, None))
      && after.dispatched == w.dispatched
  {
  }

  /** Final exactly when the canonical ledger carries this very claim at its place. */
  lemma ReconciledExactly(env: Env, w: World, c: Config, chain: Chain, outcome: WriteOutcome)
    requires EnvSound(env) && Inv(env, w)
    ensures var (after, r) := Reconcile(env, w, c, chain, outcome);
      && after.dispatched == w.dispatched
      && (r == Ok(true) <==>
            && chain.network == c.network && Reads(env, w, c) && w.entry.value.claim.Some?
            && var claim := w.entry.value.claim.value;
               chain.finalized(claim.payer, claim.sequence) == Some(env.digest(claim))
               && Durable(env, c, Finalized, Some(claim), outcome))
      && (r == Ok(true) ==> Holds(env, after, c, Finalized, w.entry.value.claim))
      && (chain.network == c.network && Reads(env, w, c) && w.entry.value.claim.Some? ==>
            var claim := w.entry.value.claim.value;
            var found := chain.finalized(claim.payer, claim.sequence);
            && (r == Err(SequenceConsumed) <==> found.Some? && found.value != env.digest(claim))
            && (r == Err(CanonicallyRejected) <==> found.None? && chain.rejected(env.digest(claim)))
            && (r == Ok(false) <==> found.None? && !chain.rejected(env.digest(claim))))
      && (r == Ok(false) || r == Err(SequenceConsumed) || r == Err(CanonicallyRejected) ==> after == w)
  {
    if Reads(env, w, c) { ReadMeaning(env, w, c); }
  }

  /* ---- nothing without an approval ---- */

  /** An earlier call of the run recorded an approval of exactly this configuration. */
  ghost predicate ApprovedBefore(c: Config, actions: seq<Action>) {
    exists i :: 0 <= i < |actions| && actions[i].Authorizing? && actions[i].config == c
                && actions[i].approval.campaign == c.campaign && actions[i].approval.outcome == c.outcome
  }

  lemma ApprovedStays(c: Config, before: seq<Action>, a: Action)
    requires ApprovedBefore(c, before)
    ensures ApprovedBefore(c, before + [a])
  {
    var i :| 0 <= i < |before| && before[i].Authorizing? && before[i].config == c
             && before[i].approval.campaign == c.campaign && before[i].approval.outcome == c.outcome;
    assert (before + [a])[i] == before[i];
  }

  /** Only a matching approval lifts a payout out of its pending phase. */
  lemma LeavesPending(env: Env, w: World, a: Action)
    requires EnvSound(env) && Inv(env, w)
    requires Act(env, w, a).entry.Some? && Act(env, w, a).entry.value.phase != Pending
    requires w.entry.None? || w.entry.value.phase == Pending
    ensures a.Authorizing? && a.config == Act(env, w, a).entry.value.config
            && a.approval.campaign == a.config.campaign && a.approval.outcome == a.config.outcome
  {
  }

  /** Whatever a run has dispatched was approved earlier in that run, campaign and outcome alike. */
  lemma {:induction false} NothingWithoutApproval(env: Env, actions: seq<Action>)
    requires EnvSound(env)
    ensures var w := Run(env, EMPTY, actions);
      && (w.entry.Some? && w.entry.value.phase != Pending ==> ApprovedBefore(w.entry.value.config, actions))
      && (w.dispatched != {} ==> w.entry.Some? && ApprovedBefore(w.entry.value.config, actions))
  {
    RunAdvances(env, EMPTY, actions);
    if actions != [] {
      var earlier, a := actions[..|actions| - 1], actions[|actions| - 1];
      assert actions == earlier + [a];
      var before, after := Run(env, EMPTY, earlier), Run(env, EMPTY, actions);
      NothingWithoutApproval(env, earlier);
      RunAdvances(env, EMPTY, earlier);
      ActStep(env, before, a);
      if after.entry.Some? && after.entry.value.phase != Pending {
        if before.entry.Some? && before.entry.value.phase != Pending {
          ApprovedStays(before.entry.value.config, earlier, a);
        } else {
          LeavesPending(env, before, a);
          assert actions[|actions| - 1] == a;
        }
      }
    }
  }
}
