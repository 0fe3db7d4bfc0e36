/** Who gains and who pays: each acceptance account by account, and every account over whole runs. */
module SettlementMeaning {
  import opened Prelude
  import opened MapSums
  import opened Settlement
  import opened SettlementLaws

  /* ---- one acceptance ---- */

  function If(b: bool, amount: int): int { if b then amount else 0 }

  /** A requester-funded claim moves its amount from funder to provider, who may be the same, and nothing else. */
  ghost predicate MovesBetween(before: Accounts, after: Accounts, funder: string, provider: string, amount: int) {
    && after.receipts == before.receipts && after.initialTotal == before.initialTotal
    && (forall x :: x in after.balances <==> x in before.balances || x == funder || x == provider)
    && forall x :: Lookup(after.balances, x)
         == Lookup(before.balances, x) - If(x == funder, amount) + If(x == provider, amount)
  }

  /** A budgeted claim credits its provider's receipts and draws on its own policy, and nothing else. */
  ghost predicate CreditsProvider(before: Ledger, after: Ledger, policy: string, provider: string, amount: int) {
    && after.accounts == before.accounts.(receipts := after.accounts.receipts)
    && (forall x :: Lookup(after.accounts.receipts, x)
          == Lookup(before.accounts.receipts, x) + If(x == provider, amount))
    && (forall c :: Lookup(after.programs.remaining, c)
          == Lookup(before.programs.remaining, c) - If(c == policy, amount))
  }

  /** What is kept of an accepted claim. */
  predicate Describes(env: Env, r: Record, policy: Policy, claim: Claim) {
    && r.id == claim.id && r.policy == claim.policy && r.funding == policy.funding && r.amount == claim.amount
    && r.requester == claim.requester && r.provider == claim.provider && r.duplicateId == claim.duplicateId
    && (r.rateValue.Some? <==> claim.rateTag.Some?)
    && (r.rateValue.Some? ==> r.rateValue.value == claim.rateTag.value.value)
    && r.finality == env.finality(claim.id)
  }

  ghost predicate Archived(env: Env, before: Archive, after: Archive, policy: Policy, claim: Claim) {
    && claim.id in after.records && Describes(env, after.records[claim.id], policy, claim)
    && after.records == before.records[claim.id := after.records[claim.id]]
    && (forall k :: k in after.events <==> k in before.events || k == (claim.policy, claim.duplicateId))
    && (forall k :: k in after.rateTags <==>
          k in before.rateTags || (claim.rateTag.Some? && k == (claim.policy, claim.rateTag.value.value)))
  }

  /** Programs, accounts and archive before and after an acceptance. */
  ghost predicate Settled(env: Env, before: Ledger, after: Ledger, policy: Policy, claim: Claim) {
    && after.programs == before.programs.(remaining := after.programs.remaining)
    && Archived(env, before.archive, after.archive, policy, claim)
    && if policy.funding == RequesterFunded then
         && after.programs.remaining == before.programs.remaining
         && MovesBetween(before.accounts, after.accounts, claim.funder, claim.provider, claim.amount)
       else CreditsProvider(before, after, claim.policy, claim.provider, claim.amount)
  }

  predicate Tallied(before: Volumes, after: Volumes, funding: SettlementClass, amount: int) {
    && after.attempted == before.attempted + amount && after.finalized == before.finalized + amount
    && after.requester == before.requester + If(funding == RequesterFunded, amount)
    && after.sponsor == before.sponsor + If(funding == SponsorFunded, amount)
    && after.protocol == before.protocol + If(funding == ProtocolSubsidized, amount)
  }

  lemma TransferMoves(balances: map<string, int>, payer: string, provider: string, amount: int)
    ensures var after := Transfer(balances, payer, provider, amount);
      && (forall x :: x in after <==> x in balances || x == payer || x == provider)
      && forall x :: Lookup(after, x) == Lookup(balances, x) - If(x == payer, amount) + If(x == provider, amount)
  {
  }

  lemma PayMoves(ac: Accounts, funder: string, r: Record)
    requires r.funding == RequesterFunded
    ensures MovesBetween(ac, Pay(ac, funder, r), funder, r.provider, r.amount)
  {
    TransferMoves(ac.balances, funder, r.provider, r.amount);
  }

  /** Settling a record, class by class. */
  lemma SettleMoves(env: Env, s: Ledger, policy: Policy, claim: Claim)
    ensures Settled(env, s, Settle(s, claim.funder, RecordFor(env, policy, claim)), policy, claim)
  {
    if policy.funding == RequesterFunded { PayMoves(s.accounts, claim.funder, RecordFor(env, policy, claim)); }
  }

  lemma CountTallies(v: Volumes, r: Record)
    requires r.funding != AuthorityBearing
    ensures Tallied(v, Count(v.(attempted := v.attempted + r.amount), r), r.funding, r.amount)
  {
  }

  lemma AcceptedIsSettled(env: Env, s: Ledger, claim: Claim, transcript: Option<Transcript>, available: Availability,
                          now: int, attackers: set<string>)
    requires claim.policy in s.programs.policies
    requires Submit(env, s, claim, transcript, available, now, attackers).1.code == Accepted
    ensures var policy := s.programs.policies[claim.policy];
      && Submit(env, s, claim, transcript, available, now, attackers).0
         == Settle(Attempt(s, claim), claim.funder, RecordFor(env, policy, claim))
      && Submit(env, s, claim, transcript, available, now, attackers).1.extraction
         == If(policy.funding != RequesterFunded && (claim.requester in attackers || claim.provider in attackers),
               claim.amount)
  {
    ScreenCodes(env, s.programs.policies[claim.policy], claim);
    RefuseMeaning(env, s, s.programs.policies[claim.policy], claim, transcript, available, now);
  }

  /** A newly accepted claim: who pays, who is paid, what is remembered, what is counted and what is answered. */
  lemma AcceptanceMoves(env: Env, s: Ledger, claim: Claim, transcript: Option<Transcript>, available: Availability,
                        now: int, attackers: set<string>)
    requires Submit(env, s, claim, transcript, available, now, attackers).1.code == Accepted
    ensures claim.policy in s.programs.policies
    ensures var (t, o) := Submit(env, s, claim, transcript, available, now, attackers);
      var policy := s.programs.policies[claim.policy];
      && Settled(env, s, t, policy, claim) && Tallied(s.volumes, t.volumes, policy.funding, claim.amount)
      && o.spent == claim.amount && o.finality == Some(env.finality(claim.id))
      && o.extraction == If(policy.funding != RequesterFunded
                            && (claim.requester in attackers || claim.provider in attackers), claim.amount)
  {
    AcceptedExactly(env, s, claim, transcript, available, now, attackers);
    OnlyAcceptanceChanges(env, s, claim, transcript, available, now, attackers);
    AcceptedIsSettled(env, s, claim, transcript, available, now, attackers);
    var policy := s.programs.policies[claim.policy];
    var t := Settle(Attempt(s, claim), claim.funder, RecordFor(env, policy, claim));
    assert Settled(env, s, t, policy, claim) by { SettleMoves(env, Attempt(s, claim), policy, claim); }
    assert Tallied(s.volumes, t.volumes, policy.funding, claim.amount) by {
      CountTallies(s.volumes, RecordFor(env, policy, claim));
    }
  }

  /* ---- registration ---- */

  /** A policy is registered exactly when it is valid and no other holds its commitment; its budget starts once. */
  lemma RegisteredExactly(env: Env, pr: Programs, policy: Policy)
    ensures var (after, r) := Register(env, pr, policy); var c := env.commitment(policy);
      && (r.Ok? <==> ValidPolicy(env, policy) && (c in pr.policies ==> pr.policies[c] == policy))
      && (r.Ok? ==> r.value == c && after.policies == pr.policies[c := policy])
      && (r.Err? ==> after == pr)
      && (forall d :: d in pr.remaining ==> d in after.remaining && after.remaining[d] == pr.remaining[d])
      && (r.Ok? && policy.funding == RequesterFunded ==> after.remaining == pr.remaining && after.budgets == pr.budgets)
      && (r.Ok? && policy.funding != RequesterFunded ==>
            && after.remaining.Keys == pr.remaining.Keys + {c} && after.budgets.Keys == pr.budgets.Keys + {c}
            && (c !in pr.remaining ==> after.remaining[c] == policy.budget)
            && (c !in pr.budgets ==> after.budgets[c] == policy.budget))
  {
  }

  /* ---- whole runs ---- */

  /** What the accepted budgeted claims naming `x` as provider amount to. */
  function ReceivedBy(x: string): Record -> int {
    (r: Record) => If(r.provider == x && r.funding != RequesterFunded, r.amount)
  }

  /** What the accepted requester-funded claims naming `x` as provider amount to. */
  function EarnedBy(x: string): Record -> int {
    (r: Record) => If(r.provider == x && r.funding == RequesterFunded, r.amount)
  }

  /** What this step spends from the account of `x`. */
  function SpendsFrom(env: Env, s: Ledger, op: Op, x: string): int {
    match op
    case Registering(_) => 0
    case Submitting(claim, transcript, available, now, attackers) =>
      If(Submit(env, s, claim, transcript, available, now, attackers).1.code == Accepted
         && claim.funding == RequesterFunded && claim.funder == x, claim.amount)
  }

  function SpentFrom(env: Env, s: Ledger, ops: seq<Op>, x: string): int {
    if ops == [] then 0 else
      var before := ops[..|ops| - 1];
      SpentFrom(env, s, before, x) + SpendsFrom(env, Run(env, s, before), ops[|ops| - 1], x)
  }

  /** How one step moves the account and the receipts of `x`, and what the archive says about it. */
  ghost predicate Moved(env: Env, s: Ledger, t: Ledger, op: Op, x: string) {
    && Lookup(t.accounts.receipts, x) - Lookup(s.accounts.receipts, x)
       == Sum(t.archive.records, ReceivedBy(x)) - Sum(s.archive.records, ReceivedBy(x))
    && Lookup(t.accounts.balances, x) - Lookup(s.accounts.balances, x)
       == Sum(t.archive.records, EarnedBy(x)) - Sum(s.archive.records, EarnedBy(x)) - SpendsFrom(env, s, op, x)
  }

  lemma RecordMoves(env: Env, s: Ledger, t: Ledger, policy: Policy, claim: Claim, x: string)
    requires Settled(env, s, t, policy, claim) && claim.id !in s.archive.records
    ensures Lookup(t.accounts.receipts, x) - Lookup(s.accounts.receipts, x)
            == Sum(t.archive.records, ReceivedBy(x)) - Sum(s.archive.records, ReceivedBy(x))
    ensures Lookup(t.accounts.balances, x) - Lookup(s.accounts.balances, x)
            == Sum(t.archive.records, EarnedBy(x)) - Sum(s.archive.records, EarnedBy(x))
               - If(policy.funding == RequesterFunded && claim.funder == x, claim.amount)
  {
    var r := t.archive.records[claim.id];
    SumUpdate(s.archive.records, ReceivedBy(x), claim.id, r);
    SumUpdate(s.archive.records, EarnedBy(x), claim.id, r);
  }

  lemma SubmissionMoves(env: Env, s: Ledger, claim: Claim, transcript: Option<Transcript>, available: Availability,
                        now: int, attackers: set<string>, x: string)
    ensures var op := Submitting(claim, transcript, available, now, attackers); Moved(env, s, Step(env, s, op), op, x)
  {
    var (t, o) := Submit(env, s, claim, transcript, available, now, attackers);
    if o.code == Accepted {
      AcceptanceMoves(env, s, claim, transcript, available, now, attackers);
      AcceptedExactly(env, s, claim, transcript, available, now, attackers);
      RecordMoves(env, s, t, s.programs.policies[claim.policy], claim, x);
    } else {
      OnlyAcceptanceChanges(env, s, claim, transcript, available, now, attackers);
    }
  }

  lemma StepMoves(env: Env, s: Ledger, op: Op, x: string)
    ensures Moved(env, s, Step(env, s, op), op, x)
  {
    match op {
      case Registering(_) =>
      case Submitting(claim, transcript, available, now, attackers) =>
        SubmissionMoves(env, s, claim, transcript, available, now, attackers, x);
    }
  }

  /**
   Over every run, each provider's receipts are exactly the budgeted claims accepted in its name, and
   each account holds what it began with, plus what was paid to it, minus what was spent from it.
   */
  lemma {:induction false} AccountsAddUp(env: Env, balances: map<string, int>, total: int, ops: seq<Op>, x: string)
    ensures var s0 := Initial(balances, total); var s := Run(env, s0, ops);
      && Lookup(s.accounts.receipts, x) == Sum(s.archive.records, ReceivedBy(x))
      && Lookup(s.accounts.balances, x)
         == Lookup(balances, x) + Sum(s.archive.records, EarnedBy(x)) - SpentFrom(env, s0, ops, x)
  {
    var s0 := Initial(balances, total);
    if ops == [] {
      SumZero(s0.archive.records, ReceivedBy(x));
      SumZero(s0.archive.records, EarnedBy(x));
    } else {
      var before := ops[..|ops| - 1];
      AccountsAddUp(env, balances, total, before, x);
      StepMoves(env, Run(env, s0, before), ops[|ops| - 1], x);
    }
  }
}
