/** What every run of registrations and submissions keeps: value, uniqueness, bounds, finality. */
module SettlementLaws {
  import opened Prelude
  import opened MapSums
  import opened Settlement

  type Records = map<string, Record>
  type Keys = set<(string, string)>

  function Value(x: int): int { x }

  function Amount(r: Record): int { r.amount }

  function PaidUnder(policy: string): Record -> int { (r: Record) => if r.policy == policy then r.amount else 0 }

  function PaidAs(funding: SettlementClass): Record -> int {
    (r: Record) => if r.funding == funding then r.amount else 0
  }

  /* ---- the invariants, component by component ---- */

  /** Policies sit under their own commitments; exactly the budgeted ones have a budget. */
  ghost predicate PoliciesOk(env: Env, policies: map<string, Policy>, budgets: map<string, int>) {
    && budgets.Keys <= policies.Keys
    && forall c :: c in policies ==>
         && ValidPolicy(env, policies[c]) && env.commitment(policies[c]) == c
         && (c in budgets <==> HasBudget(policies[c])) && (c in budgets ==> budgets[c] == policies[c].budget)
  }

  ghost predicate RecordOk(env: Env, policies: map<string, Policy>, r: Record) {
    && r.amount > 0 && r.finality == env.finality(r.id)
    && r.policy in policies && r.funding == policies[r.policy].funding && r.funding != AuthorityBearing
    && (r.rateValue.Some? <==> policies[r.policy].rateDomain.Some?)
  }

  /** Every record names its own claim and belongs to a registered policy of its class. */
  ghost predicate RecordsOk(env: Env, policies: map<string, Policy>, records: Records) {
    forall id :: id in records ==> records[id].id == id && RecordOk(env, policies, records[id])
  }

  /** A budget is what remains plus what was paid from it, and is never overdrawn. */
  ghost predicate BudgetsOk(budgets: map<string, int>, remaining: map<string, int>, records: Records) {
    && budgets.Keys == remaining.Keys
    && forall c :: c in budgets ==> remaining[c] >= 0 && remaining[c] + Sum(records, PaidUnder(c)) == budgets[c]
  }

  /** Each volume is the sum over the accepted records of its class; providers received the budgeted ones. */
  ghost predicate VolumesOk(v: Volumes, records: Records, receipts: map<string, int>) {
    && v.finalized == Sum(records, Amount)
    && v.finalized == v.requester + v.sponsor + v.protocol
    && v.requester == Sum(records, PaidAs(RequesterFunded))
    && v.sponsor == Sum(records, PaidAs(SponsorFunded))
    && v.protocol == Sum(records, PaidAs(ProtocolSubsidized))
    && v.sponsor + v.protocol == Sum(receipts, Value)
  }

  /** Accepted records and accepted events correspond one to one. */
  ghost predicate EventsOk(records: Records, events: Keys) {
    && (forall id :: id in records ==> EventKey(records[id]) in events)
    && (forall k :: k in events ==> exists id :: id in records && EventKey(records[id]) == k)
    && forall i, j :: i in records && j in records && i != j ==> EventKey(records[i]) != EventKey(records[j])
  }

  predicate HasTag(r: Record, k: (string, string)) { r.rateValue.Some? && (r.policy, r.rateValue.value) == k }

  /** The rate tags are those of the records, and no two records of one policy share one. */
  ghost predicate TagsOk(records: Records, tags: Keys) {
    && (forall id :: id in records && records[id].rateValue.Some? ==>
          (records[id].policy, records[id].rateValue.value) in tags)
    && (forall k :: k in tags ==> exists id :: id in records && HasTag(records[id], k))
    && forall i, j :: i in records && j in records && i != j && records[i].rateValue.Some? ==>
         !HasTag(records[j], (records[i].policy, records[i].rateValue.value))
  }

  /** No policy retains more keys than it allows. */
  ghost predicate RetainedOk(policies: map<string, Policy>, events: Keys, tags: Keys) {
    forall c :: c in policies ==> |KeysUnder(events, c)| + |KeysUnder(tags, c)| <= policies[c].maxRetainedKeys
  }

  ghost predicate ArchiveOk(env: Env, policies: map<string, Policy>, ar: Archive) {
    && RecordsOk(env, policies, ar.records)
    && EventsOk(ar.records, ar.events)
    && TagsOk(ar.records, ar.rateTags)
    && RetainedOk(policies, ar.events, ar.rateTags)
  }

  ghost predicate Inv(env: Env, s: Ledger) {
    && PoliciesOk(env, s.programs.policies, s.programs.budgets)
    && BudgetsOk(s.programs.budgets, s.programs.remaining, s.archive.records)
    && Sum(s.accounts.balances, Value) == s.accounts.initialTotal
    && VolumesOk(s.volumes, s.archive.records, s.accounts.receipts)
    && ArchiveOk(env, s.programs.policies, s.archive)
  }

  /* ---- one more record ---- */

  lemma BudgetsAfterRecord(budgets: map<string, int>, remaining: map<string, int>, records: Records, r: Record)
    requires BudgetsOk(budgets, remaining, records) && r.id !in records
    requires r.policy in budgets ==> remaining[r.policy] >= r.amount
    ensures if r.policy in budgets
      then BudgetsOk(budgets, remaining[r.policy := remaining[r.policy] - r.amount], records[r.id := r])
      else BudgetsOk(budgets, remaining, records[r.id := r])
  {
    forall c | c in budgets
      ensures Sum(records[r.id := r], PaidUnder(c)) == Sum(records, PaidUnder(c)) + PaidUnder(c)(r)
    {
      SumUpdate(records, PaidUnder(c), r.id, r);
    }
  }

  lemma EventsAfterRecord(records: Records, events: Keys, r: Record)
    requires EventsOk(records, events) && r.id !in records && EventKey(r) !in events
    ensures EventsOk(records[r.id := r], events + {EventKey(r)})
  {
    var after := records[r.id := r];
    forall k | k in events + {EventKey(r)} ensures exists id :: id in after && EventKey(after[id]) == k {
      if k in events {
        var id :| id in records && EventKey(records[id]) == k;
        assert id in after && EventKey(after[id]) == k;
      } else {
        assert r.id in after && EventKey(after[r.id]) == k;
      }
    }
  }

  lemma TagsAfterRecord(records: Records, tags: Keys, r: Record)
    requires TagsOk(records, tags) && r.id !in records && TagOf(r) !! tags
    ensures TagsOk(records[r.id := r], tags + TagOf(r))
  {
    var after := records[r.id := r];
    forall k | k in tags + TagOf(r) ensures exists id :: id in after && HasTag(after[id], k) {
      if k in tags {
        var id :| id in records && HasTag(records[id], k);
        assert id in after && HasTag(after[id], k);
      } else {
        assert r.id in after && HasTag(after[r.id], k);
      }
    }
    forall i, j | i in after && j in after && i != j && after[i].rateValue.Some?
      ensures !HasTag(after[j], (after[i].policy, after[i].rateValue.value))
    {
      if j == r.id { assert i in records && (records[i].policy, records[i].rateValue.value) in tags; }
    }
  }

  lemma KeysUnderAdd(keys: Keys, k: (string, string), c: string)
    requires k !in keys
    ensures |KeysUnder(keys + {k}, c)| == |KeysUnder(keys, c)| + if k.0 == c then 1 else 0
  {
    if k.0 == c {
      assert KeysUnder(keys + {k}, c) == KeysUnder(keys, c) + {k};
    } else {
      assert KeysUnder(keys + {k}, c) == KeysUnder(keys, c);
    }
  }

  lemma RetainedAfterRecord(policies: map<string, Policy>, events: Keys, tags: Keys, r: Record)
    requires RetainedOk(policies, events, tags) && EventKey(r) !in events && TagOf(r) !! tags && r.policy in policies
    requires |KeysUnder(events, r.policy)| + |KeysUnder(tags,
      r.policy)| + 1 + |TagOf(r)| <= policies[r.policy].maxRetainedKeys
    ensures RetainedOk(policies, events + {EventKey(r)}, tags + TagOf(r))
  {
    forall c | c in policies
      ensures |KeysUnder(events + {EventKey(r)}, c)| + |KeysUnder(tags + TagOf(r), c)| <= policies[c].maxRetainedKeys
    {
      KeysUnderAdd(events, EventKey(r), c);
      if r.rateValue.Some? {
        KeysUnderAdd(tags, (r.policy, r.rateValue.value), c);
      } else {
        assert tags + TagOf(r) == tags;
      }
    }
  }

  lemma TransferKeepsTotal(balances: map<string, int>, payer: string, provider: string, amount: int)
    ensures Sum(Transfer(balances, payer, provider, amount), Value) == Sum(balances, Value)
  {
    var debited := balances[payer := Lookup(balances, payer) - amount];
    SumUpdate(balances, Value, payer, Lookup(balances, payer) - amount);
    SumUpdate(debited, Value, provider, Lookup(debited, provider) + amount);
  }

  lemma VolumesAfterRecord(v: Volumes, records: Records, ac: Accounts, funder: string, r: Record)
    requires VolumesOk(v, records, ac.receipts) && r.id !in records && r.funding != AuthorityBearing
    ensures VolumesOk(Count(v, r), records[r.id := r], Pay(ac, funder, r).receipts)
  {
    SumUpdate(records, Amount, r.id, r);
    SumUpdate(records, PaidAs(RequesterFunded), r.id, r);
    SumUpdate(records, PaidAs(SponsorFunded), r.id, r);
    SumUpdate(records, PaidAs(ProtocolSubsidized), r.id, r);
    SumUpdate(ac.receipts, Value, r.provider, Lookup(ac.receipts, r.provider) + r.amount);
  }

  /* ---- acceptance ---- */

  /** A record the archive has room for and whose policy can pay. */
  ghost predicate Admissible(env: Env, pr: Programs, ar: Archive, r: Record) {
    && r.id !in ar.records && RecordOk(env, pr.policies, r) && EventKey(r) !in ar.events && TagOf(r) !! ar.rateTags
    && (r.policy in pr.budgets <==> r.funding != RequesterFunded)
    && (r.policy in pr.budgets ==> Lookup(pr.remaining, r.policy) >= r.amount)
    && |KeysUnder(ar.events, r.policy)| + |KeysUnder(ar.rateTags, r.policy)| + 1 + |TagOf(r)|
       <= pr.policies[r.policy].maxRetainedKeys
  }

  /** Passing every check establishes that the claim's record may be entered. */
  lemma PassingIsAdmissible(env: Env, s: Ledger, claim: Claim, transcript: Option<Transcript>,
                            available: Availability, now: int)
    requires PoliciesOk(env, s.programs.policies, s.programs.budgets)
    requires BudgetsOk(s.programs.budgets, s.programs.remaining, s.archive.records)
    requires claim.policy in s.programs.policies && claim.id !in s.archive.records && claim.amount > 0
    requires Refuse(env, s, s.programs.policies[claim.policy], claim, transcript, available, now).None?
    ensures Admissible(env, s.programs, s.archive, RecordFor(env, s.programs.policies[claim.policy], claim))
  {
    RefuseMeaning(env, s, s.programs.policies[claim.policy], claim, transcript, available, now);
  }

  lemma RecordsAfterRecord(env: Env, policies: map<string, Policy>, records: Records, r: Record)
    requires RecordsOk(env, policies, records) && RecordOk(env, policies, r)
    ensures RecordsOk(env, policies, records[r.id := r])
  {
  }

  lemma EnterOk(env: Env, pr: Programs, ar: Archive, r: Record)
    requires ArchiveOk(env, pr.policies, ar) && Admissible(env, pr, ar, r)
    ensures ArchiveOk(env, pr.policies, Enter(ar, r))
  {
    var after := Enter(ar, r);
    assert EventsOk(after.records, after.events) by { EventsAfterRecord(ar.records, ar.events, r); }
    assert TagsOk(after.records, after.rateTags) by { TagsAfterRecord(ar.records, ar.rateTags, r); }
    assert RetainedOk(pr.policies, after.events, after.rateTags) by {
      RetainedAfterRecord(pr.policies, ar.events, ar.rateTags, r);
    }
    assert RecordsOk(env, pr.policies, after.records) by { RecordsAfterRecord(env, pr.policies, ar.records, r); }
  }

  lemma ChargeOk(pr: Programs, records: Records, r: Record)
    requires BudgetsOk(pr.budgets, pr.remaining, records) && r.id !in records
    requires r.policy in pr.budgets <==> r.funding != RequesterFunded
    requires r.policy in pr.budgets ==> Lookup(pr.remaining, r.policy) >= r.amount
    ensures BudgetsOk(pr.budgets, Charge(pr, r).remaining, records[r.id := r])
  {
    BudgetsAfterRecord(pr.budgets, pr.remaining, records, r);
  }

  lemma PayOk(ac: Accounts, funder: string, r: Record)
    ensures Sum(Pay(ac, funder, r).balances, Value) == Sum(ac.balances, Value)
  {
    TransferKeepsTotal(ac.balances, funder, r.provider, r.amount);
  }

  lemma SettleInv(env: Env, s: Ledger, funder: string, r: Record)
    requires Inv(env, s) && Admissible(env, s.programs, s.archive, r)
    ensures Inv(env, Settle(s, funder, r))
  {
    var pr, ac, ar, v := s.programs, s.accounts, s.archive, s.volumes;
    assert BudgetsOk(pr.budgets, Charge(pr, r).remaining, Enter(ar, r).records) by { ChargeOk(pr, ar.records, r); }
    assert Sum(Pay(ac, funder, r).balances, Value) == Sum(ac.balances, Value) by { PayOk(ac, funder, r); }
    assert VolumesOk(Count(v, r), Enter(ar, r).records, Pay(ac, funder, r).receipts) by {
      VolumesAfterRecord(v, ar.records, ac, funder, r);
    }
    assert ArchiveOk(env, pr.policies, Enter(ar, r)) by { EnterOk(env, pr, ar, r); }
  }

  /** The claim is what it says it is, for this policy. */
  predicate WellFormedFor(env: Env, policy: Policy, claim: Claim) {
    && claim.version == MODEL_VERSION && policy.funding != AuthorityBearing
    && claim.policy == env.commitment(policy) && claim.funding == policy.funding && claim.service == policy.service
    && claim.epoch == policy.epoch && 0 < claim.amount <= policy.maxClaim
    && claim.id == env.claimId(claim) && claim.duplicateId == env.eventId(policy, claim.request)
    && (policy.funding != RequesterFunded ==> claim.funder == policy.source)
  }

  /** The transcript is its own evidence, is current, and speaks of this claim under this policy. */
  predicate Proves(env: Env, t: Transcript, policy: Policy, claim: Claim, now: int) {
    && env.deliveryDomain(t.domain) && t.version == 1
    && claim.evidence == t.evidence == env.evidenceId(t)
    && (t.request, t.requester, t.provider) == (claim.request, claim.requester, claim.provider)
    && (t.policy, t.funding, t.service) == (env.commitment(policy), policy.funding, policy.service)
    && policy.startsAt <= t.issuedAt <= now <= t.expiresAt <= claim.expiresAt
    && t.issuedAt < t.expiresAt <= policy.expiresAt
  }

  /** It arrives in time, within the limits, with the evidence the policy asks for. */
  predicate Timely(env: Env, policy: Policy, claim: Claim, transcript: Option<Transcript>, now: int) {
    && policy.startsAt <= now <= claim.expiresAt <= policy.expiresAt && claim.finality.None?
    && (match transcript
        case None =>
          && env.claimWire(claim) <= policy.maxWireBytes && 480 + (env.claimWire(claim) + 31) / 32 <= policy.maxOps
        case Some(t) =>
          && env.claimWire(claim) + env.transcriptWire(t) <= policy.maxWireBytes
          && 800 + (env.claimWire(claim) + 31) / 32 + (env.transcriptWire(t) + 31) / 32 <= policy.maxOps)
    && (policy.challengeRequired ==> transcript.Some? && Proves(env, transcript.value, policy, claim, now))
  }

  /** Nothing about it was used before, and the policy has room and means for it. */
  predicate Payable(s: Ledger, policy: Policy, claim: Claim, available: Availability) {
    && (claim.policy, claim.duplicateId) !in s.archive.events
    && (policy.rateDomain.Some? <==> claim.rateTag.Some?)
    && (claim.rateTag.Some? ==>
          claim.rateTag.value.domain == policy.rateDomain.value
          && (claim.policy, claim.rateTag.value.value) !in s.archive.rateTags)
    && |set k | k in s.archive.events && k.0 == claim.policy| + |set k | k in s.archive.rateTags && k.0 == claim.policy|
       + (if claim.rateTag.Some? then 2 else 1) <= policy.maxRetainedKeys
    && if policy.funding != RequesterFunded then
         available.issuers >= policy.issuerThreshold && available.auditors >= policy.auditorThreshold
         && Lookup(s.programs.remaining, claim.policy) >= claim.amount
       else Lookup(s.accounts.balances, claim.funder) >= claim.amount
  }

  lemma ScreenMeaning(env: Env, policy: Policy, claim: Claim)
    ensures Screen(env, policy, claim).None? <==> WellFormedFor(env, policy, claim)
    ensures Screen(env, policy, claim) != Some(Accepted)
  {
  }

  lemma RefuseMeaning(env: Env, s: Ledger, policy: Policy, claim: Claim, transcript: Option<Transcript>,
                      available: Availability, now: int)
    ensures Refuse(env, s, policy, claim, transcript, available, now).None?
            <==> Timely(env, policy, claim, transcript, now) && Payable(s, policy, claim, available)
    ensures Refuse(env, s, policy, claim, transcript, available, now) != Some(Accepted)
  {
  }

  /** A claim is newly accepted exactly when all of this holds and it was not accepted before. */
  lemma AcceptedExactly(env: Env, s: Ledger, claim: Claim, transcript: Option<Transcript>,
                        available: Availability, now: int, attackers: set<string>)
    ensures Submit(env, s, claim, transcript, available, now, attackers).1.code == Accepted <==>
      && claim.policy in s.programs.policies && claim.id !in s.archive.records
      && var policy := s.programs.policies[claim.policy];
         WellFormedFor(env, policy, claim) && Timely(env, policy, claim, transcript, now)
         && Payable(s, policy, claim, available)
  {
    if claim.policy in s.programs.policies {
      var policy := s.programs.policies[claim.policy];
      ScreenMeaning(env, policy, claim);
      RefuseMeaning(env, s, policy, claim, transcript, available, now);
    }
  }

  lemma AttemptInv(env: Env, s: Ledger, claim: Claim)
    requires Inv(env, s)
    ensures Inv(env, Attempt(s, claim))
  {
  }

  /** A submission that is not newly accepted changes the attempted volume and nothing else. */
  lemma OnlyAcceptanceChanges(env: Env, s: Ledger, claim: Claim, transcript: Option<Transcript>,
                              available: Availability, now: int, attackers: set<string>)
    ensures var (s', o) := Submit(env, s, claim, transcript, available, now, attackers);
      && o.id == claim.id
      && (o.code != Accepted ==> s' == Attempt(s, claim) && o.spent == 0 && o.extraction == 0)
      && (o.code == Accepted ==> o.spent == claim.amount > 0 && o.finality == Some(env.finality(claim.id)))
  {
  }

  lemma ScreenCodes(env: Env, policy: Policy, claim: Claim)
    ensures Screen(env, policy, claim) != Some(Accepted)
    ensures Screen(env, policy, claim).None? ==> claim.amount > 0
  {
  }

  lemma SubmitInv(env: Env, s: Ledger, claim: Claim, transcript: Option<Transcript>,
                  available: Availability, now: int, attackers: set<string>)
    requires Inv(env, s)
    ensures Inv(env, Submit(env, s, claim, transcript, available, now, attackers).0)
  {
    AttemptInv(env, s, claim);
    if claim.policy in s.programs.policies {
      var policy := s.programs.policies[claim.policy];
      ScreenCodes(env, policy, claim);
      if Screen(env, policy, claim).None? && claim.id !in s.archive.records
         && Refuse(env, s, policy, claim, transcript, available, now).None? {
        PassingIsAdmissible(env, s, claim, transcript, available, now);
        SettleInv(env, Attempt(s, claim), claim.funder, RecordFor(env, policy, claim));
      }
    }
  }

  /* ---- registration ---- */

  lemma NoKeysYet(env: Env, policies: map<string, Policy>, ar: Archive, c: string)
    requires ArchiveOk(env, policies, ar) && c !in policies
    ensures KeysUnder(ar.events, c) == {} && KeysUnder(ar.rateTags, c) == {} && Sum(ar.records, PaidUnder(c)) == 0
  {
    SumZero(ar.records, PaidUnder(c));
  }

  lemma NewPolicyRecords(env: Env, policies: map<string, Policy>, records: Records, c: string, policy: Policy)
    requires RecordsOk(env, policies, records) && c !in policies
    ensures RecordsOk(env, policies[c := policy], records)
  {
  }

  lemma NewPolicyRetained(policies: map<string, Policy>, events: Keys, tags: Keys, c: string, policy: Policy)
    requires RetainedOk(policies, events, tags) && policy.maxRetainedKeys > 0
    requires KeysUnder(events, c) == {} && KeysUnder(tags, c) == {}
    ensures RetainedOk(policies[c := policy], events, tags)
  {
  }

  /** A new policy has no records yet, so it retains nothing and its fresh budget is whole. */
  lemma NewPolicyOk(env: Env, policies: map<string, Policy>, ar: Archive, c: string, policy: Policy)
    requires ArchiveOk(env, policies, ar) && c !in policies && policy.maxRetainedKeys > 0
    ensures ArchiveOk(env, policies[c := policy], ar)
  {
    assert RecordsOk(env, policies[c := policy], ar.records) by {
      NewPolicyRecords(env, policies, ar.records, c, policy);
    }
    assert RetainedOk(policies[c := policy], ar.events, ar.rateTags) by {
      NoKeysYet(env, policies, ar, c);
      NewPolicyRetained(policies, ar.events, ar.rateTags, c, policy);
    }
  }

  lemma NewBudgetOk(budgets: map<string, int>, remaining: map<string, int>, records: Records, c: string, budget: nat)
    requires BudgetsOk(budgets, remaining, records) && c !in budgets && Sum(records, PaidUnder(c)) == 0
    ensures BudgetsOk(budgets[c := budget], remaining[c := budget], records)
  {
  }

  lemma PoliciesAfter(env: Env, policies: map<string, Policy>, budgets: map<string, int>, c: string, policy: Policy)
    requires PoliciesOk(env, policies, budgets) && c !in policies
    requires ValidPolicy(env, policy) && env.commitment(policy) == c
    ensures PoliciesOk(env, policies[c := policy], if HasBudget(policy) then budgets[c := policy.budget] else budgets)
  {
  }

  lemma NewPolicyInv(env: Env, s: Ledger, policy: Policy)
    requires Inv(env, s) && ValidPolicy(env, policy) && env.commitment(policy) !in s.programs.policies
    ensures Inv(env, s.(programs := Register(env, s.programs, policy).0))
  {
    var pr := s.programs;
    var c := env.commitment(policy);
    var after := Register(env, pr, policy).0;
    assert c !in pr.budgets && c !in pr.remaining;
    assert PoliciesOk(env, after.policies, after.budgets) by {
      PoliciesAfter(env, pr.policies, pr.budgets, c, policy);
    }
    assert BudgetsOk(after.budgets, after.remaining, s.archive.records) by {
      NoKeysYet(env, pr.policies, s.archive, c);
      if HasBudget(policy) { NewBudgetOk(pr.budgets, pr.remaining, s.archive.records, c, policy.budget); }
    }
    assert ArchiveOk(env, after.policies, s.archive) by { NewPolicyOk(env, pr.policies, s.archive, c, policy); }
  }

  /** Registering a known policy again changes nothing. */
  lemma RegisterAgain(env: Env, pr: Programs, policy: Policy)
    requires PoliciesOk(env, pr.policies, pr.budgets) && pr.budgets.Keys == pr.remaining.Keys
    requires env.commitment(policy) in pr.policies || !ValidPolicy(env, policy)
    ensures Register(env, pr, policy).0 == pr
  {
  }

  lemma RegisterInv(env: Env, s: Ledger, policy: Policy)
    requires Inv(env, s)
    ensures Inv(env, s.(programs := Register(env, s.programs, policy).0))
  {
    if ValidPolicy(env, policy) && env.commitment(policy) !in s.programs.policies {
      NewPolicyInv(env, s, policy);
    } else {
      RegisterAgain(env, s.programs, policy);
    }
  }

  /* ---- runs ---- */

  function Initial(balances: map<string, int>, total: int): Ledger {
    Ledger(Programs(map[], map[], map[]), Accounts(balances, total, map[]), Archive(map[], {}, {}), Volumes(0, 0, 0,
      0, 0))
  }

  lemma StepInv(env: Env, s: Ledger, op: Op)
    requires Inv(env, s)
    ensures Inv(env, Step(env, s, op))
  {
    match op {
      case Registering(policy) => RegisterInv(env, s, policy);
      case Submitting(claim, transcript, available, now, attackers) =>
        SubmitInv(env, s, claim, transcript, available, now, attackers);
    }
  }

  lemma NothingYet(env: Env)
    ensures PoliciesOk(env, map[], map[]) && BudgetsOk(map[], map[], map[])
    ensures VolumesOk(Volumes(0, 0, 0, 0, 0), map[], map[]) && ArchiveOk(env, map[], Archive(map[], {}, {}))
  {
  }

  lemma InitialInv(env: Env, balances: map<string, int>, total: int)
    requires Sum(balances, Value) == total
    ensures Inv(env, Initial(balances, total))
  {
    NothingYet(env);
  }

  lemma {:induction false} RunInv(env: Env, s: Ledger, ops: seq<Op>)
    requires Inv(env, s)
    ensures Inv(env, Run(env, s, ops))
  {
    if ops != [] {
      RunInv(env, s, ops[..|ops| - 1]);
      StepInv(env, Run(env, s, ops[..|ops| - 1]), ops[|ops| - 1]);
    }
  }

  /**
   Every run conserves value and keeps every bound: payer balances keep their sum, budgets equal
   what remains plus what was paid, volumes equal the sums over the records, events and tags are
   one to one with the records, and retained keys stay within each policy's limit.
   */
  lemma RunConserves(env: Env, balances: map<string, int>, ops: seq<Op>)
    ensures Inv(env, Run(env, Initial(balances, Sum(balances, Value)), ops))
  {
    InitialInv(env, balances, Sum(balances, Value));
    RunInv(env, Initial(balances, Sum(balances, Value)), ops);
  }
}
