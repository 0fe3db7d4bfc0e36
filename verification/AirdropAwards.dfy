/** Resolving claims against a snapshot, and why the awards never exceed the treasury. */
module AirdropAwards {
  import opened Prelude
  import opened Codec
  import opened Events
  import opened Identity
  import opened KeyEventLog
  import opened KelMeaning
  import opened Witnesses
  import opened AirdropTypes
  import opened ClaimRegistries
  import opened Airdrop

  datatype Request = Request(campaign: Bytes, identity: DidText, recipient: Bytes, sequence: nat)

  /** The bytes of `mini-airdrop/claim-request/v1` and `mini-airdrop/claim-outcome-digest/v1`. */
  const REQUEST_DOMAIN: Bytes :=
    [109, 105, 110, 105, 45, 97, 105, 114, 100, 114, 111, 112, 47, 99, 108, 97, 105, 109, 45, 114, 101, 113, 117, 101,
     115, 116, 47, 118, 49]
  const OUTCOME_DOMAIN: Bytes :=
    [109, 105, 110, 105, 45, 97, 105, 114, 100, 114, 111, 112, 47, 99, 108, 97, 105, 109, 45, 111, 117, 116, 99, 111,
     109, 101, 45, 100, 105, 103, 101, 115, 116, 47, 118, 49]

  function MessageToSign(r: Request): Bytes {
    REQUEST_DOMAIN + PutBytes(r.campaign, PutBytes(r.identity, PutBytes(r.recipient, PutU64(r.sequence, []))))
  }

  function OutcomeBytes(domain: Bytes, o: Outcome): Bytes {
    domain + PutBytes(o.identity, PutU64(o.amount, PutBytes(o.recipient, [])))
  }

  /** Distinct outcomes have distinct digest inputs. */
  lemma OutcomeBytesInjective(domain: Bytes, a: Outcome, b: Outcome)
    requires ShortBytes(a.recipient) && ShortBytes(b.recipient)
    requires OutcomeBytes(domain, a) == OutcomeBytes(domain, b)
    ensures a == b
  {
    var a2, b2 := PutBytes(a.recipient, []), PutBytes(b.recipient, []);
    var a1, b1 := PutU64(a.amount, a2), PutU64(b.amount, b2);
    SplitEqual(domain, PutBytes(a.identity, a1), domain, PutBytes(b.identity, b1));
    BytesPeel(a.identity, a1, b.identity, b1);
    U64Peel(a.amount, a2, b.amount, b2);
    BytesPeel(a.recipient, [], b.recipient, []);
  }

  /** A claimant's signature covers exactly one request. */
  lemma MessageInjective(a: Request, b: Request)
    requires ShortBytes(a.campaign) && ShortBytes(a.recipient) && a.sequence < U64_LIMIT
    requires ShortBytes(b.campaign) && ShortBytes(b.recipient) && b.sequence < U64_LIMIT
    requires MessageToSign(a) == MessageToSign(b)
    ensures a == b
  {
    var a3, b3 := PutU64(a.sequence, []), PutU64(b.sequence, []);
    var a2, b2 := PutBytes(a.recipient, a3), PutBytes(b.recipient, b3);
    var a1, b1 := PutBytes(a.identity, a2), PutBytes(b.identity, b2);
    SplitEqual(REQUEST_DOMAIN, PutBytes(a.campaign, a1), REQUEST_DOMAIN, PutBytes(b.campaign, b1));
    BytesPeel(a.campaign, a1, b.campaign, b1);
    BytesPeel(a.identity, a2, b.identity, b2);
    BytesPeel(a.recipient, a3, b.recipient, b3);
    U64Peel(a.sequence, [], b.sequence, []);
  }

  /* ---- resolution ---- */

  /** The first entry for an identity. */
  function EntryFor(entries: seq<Entry>, identity: DidText): Option<Entry> {
    if entries == [] then None
    else if entries[0].identity == identity then Some(entries[0])
    else EntryFor(entries[1..], identity)
  }

  lemma {:induction false} EntryForMeaning(entries: seq<Entry>, identity: DidText)
    ensures var r := EntryFor(entries, identity);
      && (r.Some? ==> r.value in entries && r.value.identity == identity)
      && (r.None? ==> forall e :: e in entries ==> e.identity != identity)
  {
    if entries != [] { EntryForMeaning(entries[1..], identity); }
  }

  /** Whether the claimant's verified log and signatures prove control of the requested identity. */
  function ControlFailure(p: Primitives, r: Request, sigs: seq<IndexedSig>, kel: Kel): Option<AirdropError> {
    var v := Verify(p, kel);
    if v.Err? || !IsDid(p, DidOf(kel.scid)) then Some(BadKel)
    else if DidOf(kel.scid) != r.identity then Some(IdentityMismatch)
    else if VerifyMessageAt(p, kel, v.value.sn, MessageToSign(r), sigs).Err? then Some(ControlNotProven)
    else None
  }

  datatype ClaimCall = ClaimCall(request: Request, sigs: seq<IndexedSig>, kel: Kel, at: U64, outcome: WriteOutcome)

  /** Control check, reservation files and outcome digest, as resolution uses them. */
  datatype World = World(control: ClaimCall -> Option<AirdropError>, files: Env, digest: Outcome -> Bytes32)

  function WorldOf(p: Primitives, files: Env, hash: Bytes -> Bytes32): World {
    World((c: ClaimCall) => ControlFailure(p, c.request, c.sigs, c.kel), files,
          o => hash(OutcomeBytes(OUTCOME_DOMAIN, o)))
  }

  /** What the claim resolves to, before the reservation. */
  function Resolve(w: World, s: Snapshot, c: ClaimCall): Answer<Outcome> {
    if |c.request.recipient| > MAX_RECIPIENT_BYTES then Err(RecipientTooLong)
    else if c.request.campaign != s.campaign then Err(CampaignMismatch)
    else
      var control := w.control(c);
      if control.Some? then Err(control.value) else
        var e := EntryFor(s.entries, c.request.identity);
        if e.None? then Err(NotEligible) else Ok(Outcome(e.value.identity, e.value.amount, c.request.recipient))
  }

  /** The keys now in control of the requested identity signed this very request, to their threshold. */
  predicate ProvesControl(p: Primitives, r: Request, sigs: seq<IndexedSig>, kel: Kel) {
    && Verified(p, kel) && DidOf(kel.scid) == r.identity
    && var e := kel.events[Governor(kel.events, |kel.events| - 1)];
       Establishes(e) && |Signers(p, MessageToSign(r), e.kind.est.keys, sigs)| >= e.kind.est.threshold
  }

  lemma ControlIff(p: Primitives, r: Request, sigs: seq<IndexedSig>, kel: Kel)
    ensures ControlFailure(p, r, sigs, kel).None? <==> ProvesControl(p, r, sigs, kel)
  {
    if Verified(p, kel) {
      VerifiedIff(p, kel);
      assert EventOk(p, kel.scid, kel.events, 0);
      MessageIff(p, kel, |kel.events| - 1, MessageToSign(r), sigs);
    }
  }

  /** A claim resolves exactly for an eligible identity whose control is proven, to its own entry's amount. */
  lemma ResolvedExactly(p: Primitives, files: Env, hash: Bytes -> Bytes32, s: Snapshot, c: ClaimCall)
    ensures var r := Resolve(WorldOf(p, files, hash), s, c);
      && (r.Ok? <==>
            && |c.request.recipient| <= 256 && c.request.campaign == s.campaign
            && ProvesControl(p, c.request, c.sigs, c.kel)
            && exists i :: 0 <= i < |s.entries| && s.entries[i].identity == c.request.identity)
      && (r.Ok? ==>
            && r.value.identity == c.request.identity && r.value.recipient == c.request.recipient
            && exists i :: 0 <= i < |s.entries| && s.entries[i].identity == c.request.identity
                           && s.entries[i].amount == r.value.amount)
  {
    ControlIff(p, c.request, c.sigs, c.kel);
    EntryForMeaning(s.entries, c.request.identity);
    var e := EntryFor(s.entries, c.request.identity);
    if e.Some? { var i :| 0 <= i < |s.entries| && s.entries[i] == e.value; }
  }

  /** Every check passes before the registry is touched. */
  function VerifyAndResolve(w: World, s: Snapshot, dir: Directory, c: ClaimCall): (Directory, Answer<Outcome>) {
    var o := Resolve(w, s, c);
    if o.Err? then (dir, o) else
      var k := Key(c.request.campaign, c.request.identity);
      var (after, r) := FileReserve(w.files, dir, k, w.digest(o.value), c.at, c.outcome);
      (after, if r.Ok? then o else Err(Registry(r.error)))
  }

  /** The first claim for an entry is granted; asking again is answered alike, and any other outcome is refused. */
  lemma ClaimAnswered(w: World, s: Snapshot, dir: Directory, first: ClaimCall, again: ClaimCall)
    requires EnvSound(w.files) && Resolve(w, s, first).Ok? && Resolve(w, s, again).Ok?
    requires |s.campaign| <= MAX_CAMPAIGN_ID_BYTES && first.outcome == again.outcome == Done
    requires first.request.identity == again.request.identity
    requires w.files.path(Key(s.campaign, first.request.identity)) !in dir
    ensures var (after, r) := VerifyAndResolve(w, s, dir, first);
      && r == Ok(Resolve(w, s, first).value)
      && VerifyAndResolve(w, s, after, again)
         == (after, if w.digest(Resolve(w, s, again).value) == w.digest(r.value) then Ok(Resolve(w, s, again).value)
                    else Err(Registry(AlreadyClaimed)))
  {
  }

  function Claim(w: World, s: Snapshot, calls: seq<ClaimCall>): (Directory, set<Outcome>) {
    if calls == [] then (map[], {}) else
      var (dir, awards) := Claim(w, s, calls[..|calls| - 1]);
      var (after, r) := VerifyAndResolve(w, s, dir, calls[|calls| - 1]);
      (after, if r.Ok? then awards + {r.value} else awards)
  }

  /* ---- one award per identity ---- */

  /** The award is backed by its own reservation, which cannot be replaced. */
  ghost predicate Backed(w: World, s: Snapshot, dir: Directory, o: Outcome) {
    && EntryFor(s.entries, o.identity).Some? && EntryFor(s.entries, o.identity).value.amount == o.amount
    && w.files.path(Key(s.campaign, o.identity)) in dir
    && var read := ReadRecord(w.files, dir, Key(s.campaign, o.identity));
       read.Ok? ==> read.value.Some? && read.value.value.0 == w.digest(o)
  }

  ghost predicate AwardsOk(w: World, s: Snapshot, dir: Directory, awards: set<Outcome>) {
    && (forall o :: o in awards ==> Backed(w, s, dir, o))
    && (forall a, b :: a in awards && b in awards && a.identity == b.identity ==> w.digest(a) == w.digest(b))
  }

  lemma ResolvedEntry(w: World, s: Snapshot, c: ClaimCall)
    requires Resolve(w, s, c).Ok?
    ensures var o := Resolve(w, s, c).value;
      && o.identity == c.request.identity && c.request.campaign == s.campaign
      && EntryFor(s.entries, o.identity).Some? && EntryFor(s.entries, o.identity).value.amount == o.amount
  {
    EntryForMeaning(s.entries, c.request.identity);
  }

  lemma ReservationKeeps(w: World, s: Snapshot, dir: Directory, k: Key, digest: Bytes32, at: U64,
                         outcome: WriteOutcome, o: Outcome)
    requires EnvSound(w.files) && Backed(w, s, dir, o)
    ensures Backed(w, s, FileReserve(w.files, dir, k, digest, at, outcome).0, o)
  {
  }

  lemma ClaimStep(w: World, s: Snapshot, dir: Directory, awards: set<Outcome>, c: ClaimCall)
    requires EnvSound(w.files) && AwardsOk(w, s, dir, awards)
    ensures var (after, r) := VerifyAndResolve(w, s, dir, c);
      AwardsOk(w, s, after, if r.Ok? then awards + {r.value} else awards)
  {
    var (after, r) := VerifyAndResolve(w, s, dir, c);
    if Resolve(w, s, c).Ok? {
      var o := Resolve(w, s, c).value;
      var k := Key(c.request.campaign, c.request.identity);
      ResolvedEntry(w, s, c);
      forall a | a in awards ensures Backed(w, s, after, a) {
        ReservationKeeps(w, s, dir, k, w.digest(o), c.at, c.outcome, a);
      }
      if r.Ok? { NewAward(w, s, dir, awards, c); }
    }
  }

  lemma NewAward(w: World, s: Snapshot, dir: Directory, awards: set<Outcome>, c: ClaimCall)
    requires EnvSound(w.files) && AwardsOk(w, s, dir, awards) && VerifyAndResolve(w, s, dir, c).1.Ok?
    ensures var (after, r) := VerifyAndResolve(w, s, dir, c);
      && Backed(w, s, after, r.value)
      && forall a :: a in awards && a.identity == r.value.identity ==> w.digest(a) == w.digest(r.value)
  {
    var (after, r) := VerifyAndResolve(w, s, dir, c);
    ResolvedEntry(w, s, c);
    forall a | a in awards && a.identity == r.value.identity ensures w.digest(a) == w.digest(r.value) {
      assert Backed(w, s, dir, a);
    }
  }

  lemma {:induction false} ClaimsOk(w: World, s: Snapshot, calls: seq<ClaimCall>)
    requires EnvSound(w.files)
    ensures var (dir, awards) := Claim(w, s, calls); AwardsOk(w, s, dir, awards)
  {
    if calls != [] {
      var before := calls[..|calls| - 1];
      ClaimsOk(w, s, before);
      ClaimStep(w, s, Claim(w, s, before).0, Claim(w, s, before).1, calls[|calls| - 1]);
    }
  }

  /* ---- the treasury bound ---- */

  function Total(entries: seq<Entry>): nat {
    if entries == [] then 0 else Total(entries[..|entries| - 1]) + entries[|entries| - 1].amount
  }

  ghost function Awarded(awards: set<Outcome>): nat
    decreases |awards|
  {
    if awards == {} then 0 else
      var o :| o in awards;
      o.amount + Awarded(awards - {o})
  }

  lemma {:induction false} AwardedRemove(awards: set<Outcome>, o: Outcome)
    requires o in awards
    ensures Awarded(awards) == o.amount + Awarded(awards - {o})
    decreases |awards|
  {
    var p :| p in awards && Awarded(awards) == p.amount + Awarded(awards - {p});
    if p != o {
      AwardedRemove(awards - {p}, o);
      AwardedRemove(awards - {o}, p);
      assert awards - {p} - {o} == awards - {o} - {p};
    }
  }

  /** At most one award per identity, each of its entry's amount. */
  ghost predicate Matched(entries: seq<Entry>, awards: set<Outcome>) {
    && (forall a, b :: a in awards && b in awards && a.identity == b.identity ==> a == b)
    && (forall a :: a in awards ==>
          exists i :: 0 <= i < |entries| && entries[i].identity == a.identity && entries[i].amount == a.amount)
  }

  lemma {:induction false} MatchedWithinTotal(entries: seq<Entry>, awards: set<Outcome>)
    requires Matched(entries, awards)
    ensures Awarded(awards) <= Total(entries)
    decreases |entries|
  {
    if entries == [] {
      assert awards == {};
    } else {
      var n := |entries| - 1;
      if a :| a in awards && a.identity == entries[n].identity && a.amount == entries[n].amount {
        RestMatched(entries, awards, awards - {a});
        MatchedWithinTotal(entries[..n], awards - {a});
        AwardedRemove(awards, a);
      } else {
        RestMatched(entries, awards, awards);
        MatchedWithinTotal(entries[..n], awards);
      }
    }
  }

  lemma RestMatched(entries: seq<Entry>, awards: set<Outcome>, rest: set<Outcome>)
    requires entries != [] && Matched(entries, awards) && rest <= awards
    requires var last := entries[|entries| - 1];
      forall a :: a in rest ==> !(a.identity == last.identity && a.amount == last.amount)
    ensures Matched(entries[..|entries| - 1], rest)
  {
  }

  /** The running total is checked at every addition. */
  method TotalAllocated(s: Snapshot) returns (r: Answer<nat>)
    ensures r == if Total(s.entries) < U64_LIMIT then Ok(Total(s.entries)) else Err(TotalAllocationOverflow)
  {
    var total := 0;
    for i := 0 to |s.entries|
      invariant total == Total(s.entries[..i]) && total < U64_LIMIT
    {
      assert s.entries[..i + 1][..i] == s.entries[..i];
      total := total + s.entries[i].amount;
      if total >= U64_LIMIT {
        TotalGrows(s.entries, i + 1);
        return Err(TotalAllocationOverflow);
      }
    }
    assert s.entries[..|s.entries|] == s.entries;
    return Ok(total);
  }

  lemma {:induction false} TotalGrows(entries: seq<Entry>, i: nat)
    requires i <= |entries|
    ensures Total(entries[..i]) <= Total(entries)
  {
    if i < |entries| {
      assert entries[..|entries| - 1][..i] == entries[..i];
      TotalGrows(entries[..|entries| - 1], i);
    } else {
      assert entries[..i] == entries;
    }
  }

  method CheckWithinTreasury(s: Snapshot, balance: U64) returns (r: Answer<()>)
    ensures r.Ok? <==> Total(s.entries) <= balance
    ensures r.Err? ==> r.error == if Total(s.entries) < U64_LIMIT then InsufficientTreasuryBalance
      else TotalAllocationOverflow
  {
    var required :- TotalAllocated(s);
    if required > balance { return Err(InsufficientTreasuryBalance); }
    return Ok(());
  }

  lemma BackedIsMatched(w: World, s: Snapshot, dir: Directory, awards: set<Outcome>)
    requires AwardsOk(w, s, dir, awards) && InjectiveOn(w.digest, awards)
    ensures Matched(s.entries, awards)
  {
    forall a | a in awards
      ensures exists i :: 0 <= i < |s.entries| && s.entries[i].identity == a.identity && s.entries[i].amount == a.amount
    {
      assert Backed(w, s, dir, a);
      EntryForMeaning(s.entries, a.identity);
    }
  }

  /**
   However claims are interleaved, retried or interrupted, no identity is awarded two outcomes and
   the distinct awards sum to no more than the snapshot allocates, hence to no more than a balance
   that passed the treasury check.
   */
  lemma AwardsWithinTreasury(w: World, s: Snapshot, calls: seq<ClaimCall>, balance: nat)
    requires EnvSound(w.files) && InjectiveOn(w.digest, Claim(w, s, calls).1)
    requires Total(s.entries) <= balance
    ensures var awards := Claim(w, s, calls).1;
      && (forall a, b :: a in awards && b in awards && a.identity == b.identity ==> a == b)
      && Awarded(awards) <= Total(s.entries) <= balance
  {
    ClaimsOk(w, s, calls);
    BackedIsMatched(w, s, Claim(w, s, calls).0, Claim(w, s, calls).1);
    MatchedWithinTotal(s.entries, Claim(w, s, calls).1);
  }
}
