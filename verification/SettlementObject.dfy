/** The settlement model as an object, each method tied to its step, and the texts the model fixes. */
module SettlementObjects {
  import opened Prelude
  import opened MapSums
  import opened Settlement
  import opened SettlementLaws
  import opened SettlementBatches

  const DELIVERY_DOMAIN := "mininet/f5/delivery-challenge/model-v1"
  const DUPLICATE_DOMAIN_PREFIX := "mininet/f5/settlement-duplicate/v1/"
  const RATE_LIMIT_DOMAIN_PREFIX := "mininet/f5/rate-limit/v1/"
  const FINALITY_PREFIX := "canonical-model:"

  /** The environment with the model's own domains and finality references. */
  function ModelTexts(env: Env): Env {
    env.(duplicateDomainOk := d => DUPLICATE_DOMAIN_PREFIX <= d, rateDomainOk := d => RATE_LIMIT_DOMAIN_PREFIX <= d,
         deliveryDomain := d => d == DELIVERY_DOMAIN, finality := id => FINALITY_PREFIX + id)
  }

  lemma RefuseIgnoresVolumes(env: Env, s: Ledger, v: Volumes, policy: Policy, claim: Claim,
                             transcript: Option<Transcript>, available: Availability, now: int)
    ensures Refuse(env, s.(volumes := v), policy, claim, transcript, available, now)
            == Refuse(env, s, policy, claim, transcript, available, now)
  {
  }

  method TotalOf(balances: map<string, int>) returns (total: int)
    ensures total == Sum(balances, Value)
  {
    var rest := balances;
    total := 0;
    while rest != map[]
      invariant total + Sum(rest, Value) == Sum(balances, Value)
      decreases |rest|
    {
      var k :| k in rest;
      SumRemove(rest, Value, k);
      total := total + rest[k];
      rest := rest - {k};
    }
  }

  class SettlementModel {
    const env: Env
    var policies: map<string, Policy>
    var budgets: map<string, int>
    var remaining: map<string, int>
    var balances: map<string, int>
    const initialTotal: int
    var receipts: map<string, int>
    var records: map<string, Record>
    var events: set<(string, string)>
    var rateTags: set<(string, string)>
    var attempted: int
    var finalized: int
    var requesterVolume: int
    var sponsorVolume: int
    var protocolVolume: int

    ghost function State(): Ledger
      reads this
    {
      Ledger(Programs(policies, budgets, remaining), Accounts(balances, initialTotal, receipts),
             Archive(records, events, rateTags),
             Volumes(attempted, finalized, requesterVolume, sponsorVolume, protocolVolume))
    }

    constructor (e: Env, payers: map<string, int>)
      ensures env == e && State() == Initial(payers, Sum(payers, Value))
    {
      var total := TotalOf(payers);
      env, balances, initialTotal := e, payers, total;
      policies, budgets, remaining, receipts, records := map[], map[], map[], map[], map[];
      events, rateTags := {}, {};
      attempted, finalized, requesterVolume, sponsorVolume, protocolVolume := 0, 0, 0, 0, 0;
    }

    method RegisterPolicy(policy: Policy) returns (r: Result<string, RegisterError>)
      modifies this`policies, this`budgets, this`remaining
      ensures (State().programs, r) == Register(env, old(State()).programs, policy)
      ensures State() == old(State()).(programs := State().programs)
    {
      if !ValidPolicy(env, policy) { return Err(InvalidPolicy); }
      var c := env.commitment(policy);
      if c in policies && policies[c] != policy { return Err(CommitmentCollision); }
      policies := policies[c := policy];
      if policy.funding != RequesterFunded {
        if c !in budgets { budgets := budgets[c := policy.budget]; }
        if c !in remaining { remaining := remaining[c := policy.budget]; }
      }
      return Ok(c);
    }

    /** Everything is checked before anything but the attempted volume moves. */
    method SubmitClaim(claim: Claim, transcript: Option<Transcript>, available: Availability, now: int,
                       attackers: set<string>) returns (o: Outcome)
      modifies this
      ensures (State(), o) == Submit(env, old(State()), claim, transcript, available, now, attackers)
    {
      attempted := attempted + if claim.amount > 0 then claim.amount else 0;
      if claim.policy !in policies { return Rejected(claim, PolicyUnknown); }
      var policy := policies[claim.policy];
      var screened := Screen(env, policy, claim);
      if screened.Some? { return Rejected(claim, screened.value); }
      if claim.id in records {
        return Outcome(claim.id, AlreadyAccepted, 0, 0, Some(records[claim.id].finality));
      }
      var refused := CheckRest(policy, claim, transcript, available, now);
      RefuseIgnoresVolumes(env, old(State()), State().volumes, policy, claim, transcript, available, now);
      if refused.Some? { return Rejected(claim, refused.value); }
      SettleClaim(policy, claim);
      var extraction := 0;
      if HasBudget(policy) && (claim.requester in attackers || claim.provider in attackers) {
        extraction := claim.amount;
      }
      return Outcome(claim.id, Accepted, claim.amount, extraction, Some(env.finality(claim.id)));
    }

    method CheckRest(policy: Policy, claim: Claim, transcript: Option<Transcript>, available: Availability, now: int)
      returns (r: Option<Code>)
      ensures r == Refuse(env, State(), policy, claim, transcript, available, now)
    {
      if now < policy.startsAt || now > policy.expiresAt { return Some(Expired); }
      if claim.expiresAt < now || claim.expiresAt > policy.expiresAt { return Some(Expired); }
      if claim.finality.Some? { return Some(LocalFinalityForbidden); }
      if TotalWire(env, claim, transcript) > policy.maxWireBytes { return Some(WireSizeLimit); }
      if TotalOps(env, claim, transcript) > policy.maxOps { return Some(VerificationWorkLimit); }
      if policy.challengeRequired {
        if transcript.None? { return Some(TranscriptRequired); }
        if !TranscriptVerifies(env, transcript.value, policy, claim, now) { return Some(TranscriptInvalid); }
      }
      if (claim.policy, claim.duplicateId) in events { return Some(DuplicateEconomicEvent); }
      var newKeys := 1;
      if policy.rateDomain.Some? {
        if claim.rateTag.None? { return Some(RateTagRequired); }
        if claim.rateTag.value.domain != policy.rateDomain.value { return Some(RateDomainMismatch); }
        if (claim.policy, claim.rateTag.value.value) in rateTags { return Some(RateTagReused); }
        newKeys := 2;
      } else if claim.rateTag.Some? {
        return Some(RateDomainMismatch);
      }
      var existing := |KeysUnder(events, claim.policy)| + |KeysUnder(rateTags, claim.policy)|;
      if existing + newKeys > policy.maxRetainedKeys { return Some(RetainedStateLimit); }
      if HasBudget(policy) {
        if available.issuers < policy.issuerThreshold { return Some(IssuerUnavailable); }
        if available.auditors < policy.auditorThreshold { return Some(AuditorUnavailable); }
        if Lookup(remaining, claim.policy) < claim.amount { return Some(ProgramBudgetExhausted); }
      } else {
        if Lookup(balances, claim.funder) < claim.amount { return Some(InsufficientPayerBalance); }
      }
      return None;
    }

    /** The mutation block: move the money and the volumes, then archive the record. */
    method SettleClaim(policy: Policy, claim: Claim)
      modifies this
      ensures State() == Settle(old(State()), claim.funder, RecordFor(env, policy, claim))
    {
      var r := RecordFor(env, policy, claim);
      MoveFunds(claim.funder, r);
      CountVolumes(r);
      ArchiveRecord(r);
    }

    method MoveFunds(funder: string, r: Record)
      modifies this`balances, this`remaining, this`receipts
      ensures State().programs == Charge(old(State()).programs, r)
      ensures State().accounts == Pay(old(State()).accounts, funder, r)
    {
      if r.funding == RequesterFunded {
        balances := balances[funder := Lookup(balances, funder) - r.amount];
        balances := balances[r.provider := Lookup(balances, r.provider) + r.amount];
      } else {
        remaining := remaining[r.policy := Lookup(remaining, r.policy) - r.amount];
        receipts := receipts[r.provider := Lookup(receipts, r.provider) + r.amount];
      }
    }

    method CountVolumes(r: Record)
      modifies this`finalized, this`requesterVolume, this`sponsorVolume, this`protocolVolume
      ensures State().volumes == Count(old(State()).volumes, r)
    {
      finalized := finalized + r.amount;
      match r.funding {
        case RequesterFunded => requesterVolume := requesterVolume + r.amount;
        case SponsorFunded => sponsorVolume := sponsorVolume + r.amount;
        case _ => protocolVolume := protocolVolume + r.amount;
      }
    }

    method ArchiveRecord(r: Record)
      modifies this`records, this`events, this`rateTags
      ensures State().archive == Enter(old(State()).archive, r)
    {
      events := events + {(r.policy, r.duplicateId)};
      rateTags := rateTags + TagOf(r);
      records := records[r.id := r];
    }

    method SubmitCanonicalBatch(items: seq<Item>, available: Availability, now: int, attackers: set<string>)
      returns (outcomes: seq<Outcome>)
      modifies this
      ensures (State(), outcomes) == SubmitBatch(env, old(State()), items, available, now, attackers)
    {
      var ordered := Canonical(items);
      outcomes := [];
      for i := 0 to |ordered|
        invariant (State(), outcomes) == SubmitAll(env, old(State()), ordered[..i], available, now, attackers)
      {
        assert ordered[..i + 1][..i] == ordered[..i];
        var o := SubmitClaim(ordered[i].0, ordered[i].1, available, now, attackers);
        outcomes := outcomes + [o];
      }
      assert ordered[..|ordered|] == ordered;
    }
  }
}
