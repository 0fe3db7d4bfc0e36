/** Claims and payouts together: what all journals of a campaign dispatch stays within its snapshot. */
module Payouts {
  import opened Prelude
  import opened MapSums
  import opened AirdropTypes
  import Airdrop
  import Awards = AirdropAwards
  import Registry = ClaimRegistries
  import opened PayoutJournals

  /** The reservation files, everything awarded so far, and the payout journals by file name. */
  datatype System = System(reservations: Registry.Directory, awards: set<Outcome>, journals: map<Bytes, World>)

  const NOTHING := System(map[], {}, map[])

  /** The claim side, the journal side, and the name of the journal of a campaign and an identity. */
  datatype Setting = Setting(claims: Awards.World, files: Env, name: (Bytes, DidText) -> Bytes)

  datatype Step = Claiming(call: Awards.ClaimCall) | Paying(action: Action)

  function NameOf(t: Setting, c: Config): Bytes { t.name(c.campaign, c.outcome.identity) }

  /** Campaign and identity select the journal an action works on. */
  function Pay(t: Setting, journals: map<Bytes, World>, a: Action): map<Bytes, World> {
    var name := NameOf(t, a.config);
    journals[name := Act(t.files, if name in journals then journals[name] else EMPTY, a)]
  }

  function Take(t: Setting, s: Airdrop.Snapshot, y: System, step: Step): System {
    match step
    case Claiming(call) =>
      var (after, r) := Awards.VerifyAndResolve(t.claims, s, y.reservations, call);
      y.(reservations := after, awards := if r.Ok? then y.awards + {r.value} else y.awards)
    case Paying(a) => y.(journals := Pay(t, y.journals, a))
  }

  function RunSystem(t: Setting, s: Airdrop.Snapshot, steps: seq<Step>): System {
    if steps == [] then NOTHING
    else Take(t, s, RunSystem(t, s, steps[..|steps| - 1]), steps[|steps| - 1])
  }

  /** The signers approve, for this campaign, only what a claim has been resolved to. */
  predicate ApprovedAfterAward(s: Airdrop.Snapshot, y: System, step: Step) {
    step.Paying? && step.action.Submitting? && step.action.approval.campaign == s.campaign ==>
      step.action.approval.outcome in y.awards
  }

  ghost predicate Supervised(t: Setting, s: Airdrop.Snapshot, steps: seq<Step>) {
    forall i :: 0 <= i < |steps| ==> ApprovedAfterAward(s, RunSystem(t, s, steps[..i]), steps[i])
  }

  /* ---- what the journals have dispatched ---- */

  ghost function Amounts(claims: set<Claim>): nat
    decreases |claims|
  {
    if claims == {} then 0 else
      var c :| c in claims;
      c.amount + Amounts(claims - {c})
  }

  /** What one journal has dispatched, if it belongs to the campaign. */
  ghost function Paid(campaign: Bytes, w: World): int {
    if w.entry.Some? && w.entry.value.config.campaign == campaign then Amounts(w.dispatched) else 0
  }

  ghost function PaidFor(campaign: Bytes): World -> int { w => Paid(campaign, w) }

  /** The journal sits under its own name, and has paid nothing but an award. */
  ghost predicate Accounted(t: Setting, s: Airdrop.Snapshot, awards: set<Outcome>, name: Bytes, w: World) {
    && Inv(t.files, w)
    && (w.entry.Some? ==>
          && NameOf(t, w.entry.value.config) == name
          && (w.dispatched != {} && w.entry.value.config.campaign == s.campaign ==>
                w.entry.value.config.outcome in awards))
  }

  ghost predicate AllAccounted(t: Setting, s: Airdrop.Snapshot, y: System) {
    forall name :: name in y.journals ==> Accounted(t, s, y.awards, name, y.journals[name])
  }

  lemma ActAccounted(t: Setting, s: Airdrop.Snapshot, awards: set<Outcome>, w: World, a: Action)
    requires EnvSound(t.files) && Accounted(t, s, awards, NameOf(t, a.config), w)
    requires a.Submitting? && a.approval.campaign == s.campaign ==> a.approval.outcome in awards
    ensures Accounted(t, s, awards, NameOf(t, a.config), Act(t.files, w, a))
  {
    ActStep(t.files, w, a);
  }

  lemma {:induction false} RunAccounted(t: Setting, s: Airdrop.Snapshot, steps: seq<Step>)
    requires EnvSound(t.files) && Supervised(t, s, steps)
    ensures AllAccounted(t, s, RunSystem(t, s, steps))
  {
    if steps != [] {
      var n := |steps| - 1;
      var y := RunSystem(t, s, steps[..n]);
      assert forall i :: 0 <= i < n ==> steps[..n][..i] == steps[..i];
      RunAccounted(t, s, steps[..n]);
      assert ApprovedAfterAward(s, y, steps[n]);
      if steps[n].Paying? {
        var name := NameOf(t, steps[n].action.config);
        ActAccounted(t, s, y.awards, if name in y.journals then y.journals[name] else EMPTY, steps[n].action);
      }
    }
  }

  /** The calls among the steps, whose effect on reservations and awards the payouts do not touch. */
  function Calls(steps: seq<Step>): seq<Awards.ClaimCall> {
    if steps == [] then [] else
      var before := Calls(steps[..|steps| - 1]);
      if steps[|steps| - 1].Claiming? then before + [steps[|steps| - 1].call] else before
  }

  lemma {:induction false} ClaimsUndisturbed(t: Setting, s: Airdrop.Snapshot, steps: seq<Step>)
    ensures var y := RunSystem(t, s, steps); Awards.Claim(t.claims, s, Calls(steps)) == (y.reservations, y.awards)
  {
    if steps != [] {
      var n := |steps| - 1;
      ClaimsUndisturbed(t, s, steps[..n]);
      if steps[n].Claiming? { assert Calls(steps)[..|Calls(steps)| - 1] == Calls(steps[..n]); }
    }
  }

  /* ---- the bound ---- */

  /** A journal has paid nothing, or exactly its own award. */
  lemma PaidIsAward(t: Setting, s: Airdrop.Snapshot, awards: set<Outcome>, name: Bytes, w: World)
    requires Accounted(t, s, awards, name, w) && Paid(s.campaign, w) != 0
    ensures w.entry.Some? && w.entry.value.config.outcome in awards
    ensures Paid(s.campaign, w) == w.entry.value.config.outcome.amount
    ensures t.name(s.campaign, w.entry.value.config.outcome.identity) == name
  {
    var c :| c in w.dispatched && Amounts(w.dispatched) == c.amount + Amounts(w.dispatched - {c});
    assert w.dispatched == {c};
  }

  lemma {:induction false} PaidWithinAwards(t: Setting, s: Airdrop.Snapshot, y: System)
    requires AllAccounted(t, s, y)
    ensures Sum(y.journals, PaidFor(s.campaign)) <= Awards.Awarded(y.awards)
    decreases |y.journals|
  {
    if y.journals != map[] {
      var name :| name in y.journals;
      var w, rest := y.journals[name], y.journals - {name};
      SumRemove(y.journals, PaidFor(s.campaign), name);
      if Paid(s.campaign, w) == 0 {
        PaidWithinAwards(t, s, y.(journals := rest));
      } else {
        PaidIsAward(t, s, y.awards, name, w);
        var o := w.entry.value.config.outcome;
        Awards.AwardedRemove(y.awards, o);
        PaidWithinAwards(t, s, y.(journals := rest, awards := y.awards - {o}));
      }
    }
  }

  /**
   However claims and payouts are interleaved, retried, interrupted and reopened, the amounts that
   all journals of the campaign hand to the network sum to no more than the snapshot allocates,
   hence to no more than a balance that passed the treasury check.
   */
  lemma PayoutsWithinTreasury(t: Setting, s: Airdrop.Snapshot, steps: seq<Step>, balance: nat)
    requires Registry.EnvSound(t.claims.files) && EnvSound(t.files) && Supervised(t, s, steps)
    requires InjectiveOn(t.claims.digest, RunSystem(t, s, steps).awards)
    requires Awards.Total(s.entries) <= balance
    ensures Sum(RunSystem(t, s, steps).journals, PaidFor(s.campaign)) <= Awards.Total(s.entries) <= balance
  {
    RunAccounted(t, s, steps);
    PaidWithinAwards(t, s, RunSystem(t, s, steps));
    ClaimsUndisturbed(t, s, steps);
    Awards.AwardsWithinTreasury(t.claims, s, Calls(steps), balance);
  }
}
