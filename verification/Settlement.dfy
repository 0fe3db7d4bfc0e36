/** Settlement of service claims: policies, claims, the ledger, and one submission step. */
module Settlement {
  import opened Prelude

  const MODEL_VERSION := 1
  datatype SettlementClass = RequesterFunded | SponsorFunded | ProtocolSubsidized | AuthorityBearing

  datatype ServiceClass = ByteDelivery | CrawlObservation | HistoricalRetention | PrivateQuery

  datatype Policy = Policy(
    version: int, funding: SettlementClass, service: ServiceClass, name: string, source: string,
    epoch: int, startsAt: int, expiresAt: int, budget: int, maxClaim: int,
    duplicateDomain: string, rateDomain: Option<string>, challengeRequired: bool,
    issuerThreshold: int, auditorThreshold: int, auditSampleBps: int,
    maxRetainedKeys: int, maxWireBytes: int, maxOps: int, leakageScore: int)

  datatype RateTag = RateTag(domain: string, value: string)

  datatype Transcript = Transcript(
    version: int, domain: string, policy: string, funding: SettlementClass, service: ServiceClass,
    request: string, requester: string, provider: string, challenge: string, response: string,
    issuedAt: int, expiresAt: int, evidence: string)

  datatype Claim = Claim(
    version: int, policy: string, funding: SettlementClass, service: ServiceClass,
    request: string, requester: string, funder: string, provider: string, evidence: string,
    amount: int, epoch: int, expiresAt: int, duplicateId: string, rateTag: Option<RateTag>,
    id: string, finality: Option<string>)

  datatype Availability = Availability(issuers: int, auditors: int)

  datatype Record = Record(
    id: string, policy: string, funding: SettlementClass, amount: int, requester: string, provider: string,
    duplicateId: string, rateValue: Option<string>, finality: string)

  datatype Code =
    | Accepted | AlreadyAccepted | PolicyUnknown | UnsupportedVersion | AuthorityClassForbidden | PolicyMismatch
    | ClassMismatch | ServiceMismatch | EpochMismatch | FundingSourceMismatch | Expired | LocalFinalityForbidden
    | AmountInvalid | ClaimIdMismatch | DuplicateIdMismatch | TranscriptRequired | TranscriptInvalid
    | DuplicateEconomicEvent | RateTagRequired | RateDomainMismatch | RateTagReused | IssuerUnavailable
    | AuditorUnavailable | InsufficientPayerBalance | ProgramBudgetExhausted | RetainedStateLimit
    | WireSizeLimit | VerificationWorkLimit

  datatype Outcome = Outcome(id: string, code: Code, spent: int, extraction: int, finality: Option<string>)

  /** Commitments over canonical JSON, the sizes of that JSON, and the checks on text. */
  datatype Env = Env(
    commitment: Policy -> string, claimId: Claim -> string, eventId: (Policy, string) -> string,
    evidenceId: Transcript -> string, claimWire: Claim -> nat, transcriptWire: Transcript -> nat,
    identifierOk: string -> bool, duplicateDomainOk: string -> bool, rateDomainOk: string -> bool,
    deliveryDomain: string -> bool, finality: string -> string)

  /** Registered policies, and the budgets of those that have one. */
  datatype Programs = Programs(policies: map<string, Policy>, budgets: map<string, int>, remaining: map<string, int>)

  datatype Accounts = Accounts(balances: map<string, int>, initialTotal: int, receipts: map<string, int>)

  /** Everything ever accepted, with the keys retained against repetition. */
  datatype Archive = Archive(
    records: map<string, Record>, events: set<(string, string)>, rateTags: set<(string, string)>)

  datatype Volumes = Volumes(attempted: int, finalized: int, requester: int, sponsor: int, protocol: int)

  datatype Ledger = Ledger(programs: Programs, accounts: Accounts, archive: Archive, volumes: Volumes)

  /* ---- policies ---- */

  predicate HasBudget(policy: Policy) { policy.funding != RequesterFunded }

  /** What constructing a policy checks. */
  predicate ValidPolicy(env: Env, policy: Policy) {
    && policy.version == MODEL_VERSION && policy.funding != AuthorityBearing
    && env.identifierOk(policy.name) && env.identifierOk(policy.source)
    && policy.epoch >= 0 && 0 <= policy.startsAt < policy.expiresAt && policy.maxClaim > 0
    && env.duplicateDomainOk(policy.duplicateDomain)
    && 0 <= policy.auditSampleBps <= 10_000
    && policy.maxRetainedKeys > 0 && policy.maxWireBytes > 0 && policy.maxOps > 0 && policy.leakageScore == 0
    && if HasBudget(policy) then
         && policy.budget > 0 && policy.maxClaim <= policy.budget
         && policy.issuerThreshold > 0 && policy.auditorThreshold > 0
         && policy.rateDomain.Some? && env.rateDomainOk(policy.rateDomain.value)
       else
         policy.budget == 0 && policy.issuerThreshold == 0 && policy.auditorThreshold == 0 && policy.rateDomain.None?
  }

  datatype RegisterError = InvalidPolicy | CommitmentCollision

  function SetDefault(m: map<string, int>, k: string, v: int): map<string, int> { if k in m then m else m[k := v] }

  function Register(env: Env, pr: Programs, policy: Policy): (Programs, Result<string, RegisterError>) {
    var c := env.commitment(policy);
    if !ValidPolicy(env, policy) then (pr, Err(InvalidPolicy))
    else if c in pr.policies && pr.policies[c] != policy then (pr, Err(CommitmentCollision))
    else if HasBudget(policy) then
      (Programs(pr.policies[c := policy], SetDefault(pr.budgets, c, policy.budget),
                SetDefault(pr.remaining, c, policy.budget)), Ok(c))
    else (pr.(policies := pr.policies[c := policy]), Ok(c))
  }

  /* ---- claims ---- */

  function Lookup(m: map<string, int>, k: string): int { if k in m then m[k] else 0 }

  function CeilDiv32(n: nat): nat { (n + 31) / 32 }

  function TotalWire(env: Env, claim: Claim, transcript: Option<Transcript>): nat {
    env.claimWire(claim) + if transcript.Some? then env.transcriptWire(transcript.value) else 0
  }

  function TotalOps(env: Env, claim: Claim, transcript: Option<Transcript>): nat {
    480 + CeilDiv32(env.claimWire(claim))
    + if transcript.Some? then 320 + CeilDiv32(env.transcriptWire(transcript.value)) else 0
  }

  predicate TranscriptVerifies(env: Env, t: Transcript, policy: Policy, claim: Claim, now: int) {
    && t.version == MODEL_VERSION && env.deliveryDomain(t.domain)
    && policy.startsAt <= t.issuedAt < t.expiresAt <= policy.expiresAt
    && t.policy == env.commitment(policy) && t.funding == policy.funding && t.service == policy.service
    && t.request == claim.request && t.requester == claim.requester && t.provider == claim.provider
    && t.evidence == claim.evidence && t.issuedAt <= now <= t.expiresAt && t.expiresAt <= claim.expiresAt
    && t.evidence == env.evidenceId(t)
  }

  /** The checks that come before looking for an earlier acceptance; they depend on the policy alone. */
  function Screen(env: Env, policy: Policy, claim: Claim): Option<Code> {
    if claim.version != MODEL_VERSION then Some(UnsupportedVersion)
    else if policy.funding == AuthorityBearing then Some(AuthorityClassForbidden)
    else if claim.policy != env.commitment(policy) then Some(PolicyMismatch)
    else if claim.funding != policy.funding then Some(ClassMismatch)
    else if claim.service != policy.service then Some(ServiceMismatch)
    else if claim.epoch != policy.epoch then Some(EpochMismatch)
    else if claim.amount <= 0 || claim.amount > policy.maxClaim then Some(AmountInvalid)
    else if env.claimId(claim) != claim.id then Some(ClaimIdMismatch)
    else if env.eventId(policy, claim.request) != claim.duplicateId then Some(DuplicateIdMismatch)
    else if HasBudget(policy) && claim.funder != policy.source then Some(FundingSourceMismatch)
    else None
  }

  function KeysUnder(keys: set<(string, string)>, policy: string): set<(string, string)> {
    set k | k in keys && k.0 == policy
  }

  function RateRefusal(tags: set<(string, string)>, policy: Policy, claim: Claim): Option<Code> {
    if policy.rateDomain.None? then
      if claim.rateTag.Some? then Some(RateDomainMismatch) else None
    else if claim.rateTag.None? then Some(RateTagRequired)
    else if claim.rateTag.value.domain != policy.rateDomain.value then Some(RateDomainMismatch)
    else if (claim.policy, claim.rateTag.value.value) in tags then Some(RateTagReused)
    else None
  }

  function FundsRefusal(s: Ledger, policy: Policy, claim: Claim, available: Availability): Option<Code> {
    if HasBudget(policy) then
      if available.issuers < policy.issuerThreshold then Some(IssuerUnavailable)
      else if available.auditors < policy.auditorThreshold then Some(AuditorUnavailable)
      else if Lookup(s.programs.remaining, claim.policy) < claim.amount then Some(ProgramBudgetExhausted)
      else None
    else if Lookup(s.accounts.balances, claim.funder) < claim.amount then Some(InsufficientPayerBalance)
    else None
  }

  /** The checks a claim that is not already accepted must still pass, in their order. */
  function Refuse(env: Env, s: Ledger, policy: Policy, claim: Claim, transcript: Option<Transcript>,
                  available: Availability, now: int): Option<Code>
  {
    if now < policy.startsAt || now > policy.expiresAt then Some(Expired)
    else if claim.expiresAt < now || claim.expiresAt > policy.expiresAt then Some(Expired)
    else if claim.finality.Some? then Some(LocalFinalityForbidden)
    else if TotalWire(env, claim, transcript) > policy.maxWireBytes then Some(WireSizeLimit)
    else if TotalOps(env, claim, transcript) > policy.maxOps then Some(VerificationWorkLimit)
    else if policy.challengeRequired && transcript.None? then Some(TranscriptRequired)
    else if policy.challengeRequired && !TranscriptVerifies(env, transcript.value, policy, claim, now)
      then Some(TranscriptInvalid)
    else if (claim.policy, claim.duplicateId) in s.archive.events then Some(DuplicateEconomicEvent)
    else if RateRefusal(s.archive.rateTags, policy, claim).Some? then RateRefusal(s.archive.rateTags, policy, claim)
    else if |KeysUnder(s.archive.events, claim.policy)| + |KeysUnder(s.archive.rateTags, claim.policy)|
            + (if policy.rateDomain.Some? then 2 else 1) > policy.maxRetainedKeys then Some(RetainedStateLimit)
    else FundsRefusal(s, policy, claim, available)
  }

  /* ---- acceptance ---- */

  function RecordFor(env: Env, policy: Policy, claim: Claim): Record {
    Record(claim.id, claim.policy, policy.funding, claim.amount, claim.requester, claim.provider, claim.duplicateId,
           if claim.rateTag.Some? then Some(claim.rateTag.value.value) else None, env.finality(claim.id))
  }

  /** Payer to provider within the balances; the two may be the same account. */
  function Transfer(balances: map<string, int>, payer: string, provider: string, amount: int): map<string, int> {
    var debited := balances[payer := Lookup(balances, payer) - amount];
    debited[provider := Lookup(debited, provider) + amount]
  }

  function EventKey(r: Record): (string, string) { (r.policy, r.duplicateId) }

  function TagOf(r: Record): set<(string, string)> {
    if r.rateValue.Some? then {(r.policy, r.rateValue.value)} else {}
  }

  function Charge(pr: Programs, r: Record): Programs {
    if r.funding == RequesterFunded then pr
    else pr.(remaining := pr.remaining[r.policy := Lookup(pr.remaining, r.policy) - r.amount])
  }

  function Pay(ac: Accounts, funder: string, r: Record): Accounts {
    if r.funding == RequesterFunded then ac.(balances := Transfer(ac.balances, funder, r.provider, r.amount))
    else ac.(receipts := ac.receipts[r.provider := Lookup(ac.receipts, r.provider) + r.amount])
  }

  function Enter(ar: Archive, r: Record): Archive {
    Archive(ar.records[r.id := r], ar.events + {EventKey(r)}, ar.rateTags + TagOf(r))
  }

  function Count(v: Volumes, r: Record): Volumes {
    var v1 := v.(finalized := v.finalized + r.amount);
    match r.funding
    case RequesterFunded => v1.(requester := v.requester + r.amount)
    case SponsorFunded => v1.(sponsor := v.sponsor + r.amount)
    case _ => v1.(protocol := v.protocol + r.amount)
  }

  /** The one mutation block: every part of the ledger moves by the same record. */
  function Settle(s: Ledger, funder: string, r: Record): Ledger {
    Ledger(Charge(s.programs, r), Pay(s.accounts, funder, r), Enter(s.archive, r), Count(s.volumes, r))
  }

  function Rejected(claim: Claim, code: Code): Outcome { Outcome(claim.id, code, 0, 0, None) }

  function Attempt(s: Ledger, claim: Claim): Ledger {
    s.(volumes := s.volumes.(attempted := s.volumes.attempted + if claim.amount > 0 then claim.amount else 0))
  }

  function Submit(env: Env, s: Ledger, claim: Claim, transcript: Option<Transcript>, available: Availability,
                  now: int, attackers: set<string>): (Ledger, Outcome)
  {
    var s1 := Attempt(s, claim);
    if claim.policy !in s.programs.policies then (s1, Rejected(claim, PolicyUnknown)) else
    var policy := s.programs.policies[claim.policy];
    var screened := Screen(env, policy, claim);
    if screened.Some? then (s1, Rejected(claim, screened.value))
    else if claim.id in s.archive.records then
      (s1, Outcome(claim.id, AlreadyAccepted, 0, 0, Some(s.archive.records[claim.id].finality)))
    else
      var refused := Refuse(env, s, policy, claim, transcript, available, now);
      if refused.Some? then (s1, Rejected(claim, refused.value))
      else
        var extracted := HasBudget(policy) && (claim.requester in attackers || claim.provider in attackers);
        (Settle(s1, claim.funder, RecordFor(env, policy, claim)),
         Outcome(claim.id, Accepted, claim.amount, if extracted then claim.amount else 0,
                 Some(env.finality(claim.id))))
  }

  /* ---- runs ---- */

  datatype Op =
    | Registering(policy: Policy)
    | Submitting(claim: Claim, transcript: Option<Transcript>, available: Availability, now: int,
      attackers: set<string>)

  function Step(env: Env, s: Ledger, op: Op): Ledger {
    match op
    case Registering(policy) => s.(programs := Register(env, s.programs, policy).0)
    case Submitting(claim, transcript, available, now, attackers) =>
      Submit(env, s, claim, transcript, available, now, attackers).0
  }

  function Run(env: Env, s: Ledger, ops: seq<Op>): Ledger {
    if ops == [] then s else Step(env, Run(env, s, ops[..|ops| - 1]), ops[|ops| - 1])
  }
}
