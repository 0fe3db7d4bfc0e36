/** The payout record file: its binding, its fields, and why it cannot be read as another's. */
module PayoutFiles {
  import opened Prelude
  import opened Codec
  import opened Witnesses
  import opened AirdropTypes
  import opened PayoutJournals

  /** The bytes of `mini-airdrop-treasury/payout-journal/v1` and `.../payout-approval/v1`. */
  const JOURNAL_DOMAIN: Bytes :=
    [109, 105, 110, 105, 45, 97, 105, 114, 100, 114, 111, 112, 45, 116, 114, 101, 97, 115, 117, 114, 121, 47, 112, 97,
     121, 111, 117, 116, 45, 106, 111, 117, 114, 110, 97, 108, 47, 118, 49]
  const APPROVAL_DOMAIN: Bytes :=
    [109, 105, 110, 105, 45, 97, 105, 114, 100, 114, 111, 112, 45, 116, 114, 101, 97, 115, 117, 114, 121, 47, 112, 97,
     121, 111, 117, 116, 45, 97, 112, 112, 114, 111, 118, 97, 108, 47, 118, 49]

  function PutOutcome(campaign: Bytes, o: Outcome, rest: Bytes): Bytes {
    PutBytes(campaign, PutBytes(o.identity, PutU64(o.amount, PutBytes(o.recipient, rest))))
  }

  /** Two fixed domains, network, payer, then the approval message with every field length-prefixed. */
  function Binding(journal: Bytes, approval: Bytes, c: Config, rest: Bytes): Bytes {
    journal + (c.network + (c.payer + (approval + PutOutcome(c.campaign, c.outcome, rest))))
  }

  /** What the fixed-width and length-prefixed fields can hold. */
  predicate ConfigFits(c: Config) {
    |c.network| == 32 && |c.payer| == 32 && ShortBytes(c.campaign) && ShortBytes(c.outcome.recipient)
  }

  lemma BindingAppend(journal: Bytes, approval: Bytes, c: Config, rest: Bytes, tail: Bytes)
    ensures Binding(journal, approval, c, rest) + tail == Binding(journal, approval, c, rest + tail)
  {
  }

  lemma OutcomePeel(m: Bytes, o: Outcome, x: Bytes, n: Bytes, q: Outcome, y: Bytes)
    requires ShortBytes(m) && ShortBytes(o.recipient) && ShortBytes(n) && ShortBytes(q.recipient)
    requires PutOutcome(m, o, x) == PutOutcome(n, q, y)
    ensures m == n && o == q && x == y
  {
    var o3, q3 := PutBytes(o.recipient, x), PutBytes(q.recipient, y);
    var o2, q2 := PutU64(o.amount, o3), PutU64(q.amount, q3);
    BytesPeel(m, PutBytes(o.identity, o2), n, PutBytes(q.identity, q2));
    BytesPeel(o.identity, o2, q.identity, q2);
    U64Peel(o.amount, o3, q.amount, q3);
    BytesPeel(o.recipient, x, q.recipient, y);
  }

  /** Bindings are prefix-free: a file starting with one binding starts with no other. */
  lemma BindingPrefixFree(journal: Bytes, approval: Bytes, c: Config, x: Bytes, d: Config, y: Bytes)
    requires ConfigFits(c) && ConfigFits(d) && Binding(journal, approval, c, x) == Binding(journal, approval, d, y)
    ensures c == d && x == y
  {
    var c3, d3 := PutOutcome(c.campaign, c.outcome, x), PutOutcome(d.campaign, d.outcome, y);
    SplitEqual(journal, c.network + (c.payer + (approval + c3)), journal, d.network + (d.payer + (approval + d3)));
    SplitEqual(c.network, c.payer + (approval + c3), d.network, d.payer + (approval + d3));
    SplitEqual(c.payer, approval + c3, d.payer, approval + d3);
    SplitEqual(approval, c3, approval, d3);
    OutcomePeel(c.campaign, c.outcome, x, d.campaign, d.outcome, y);
  }

  /* ---- the file ---- */

  /** The claim's own wire form, and the checksum. */
  datatype Wire = Wire(put: Claim -> Option<Bytes>, get: Bytes -> Option<Claim>, hash: Bytes -> Bytes)

  ghost predicate WireSound(w: Wire) {
    && (forall c: Claim :: w.put(c).Some? ==> w.put(c).value != [] && w.get(w.put(c).value) == Some(c))
    && (forall b: Bytes :: |w.hash(b)| == 32)
  }

  function PhaseAt(tag: byte): Option<Phase> {
    if tag == 0 then Some(Pending) else if tag == 1 then Some(Authorized)
    else if tag == 2 then Some(Submitted) else if tag == 3 then Some(Finalized) else None
  }

  function Fields(phase: Phase, wire: Bytes): Bytes { [Rank(phase)] + (Be(|wire| % U32_LIMIT, 4) + wire) }

  /** `bind` is the binding, with what follows it. */
  function WriteFile(w: Wire, bind: (Config, Bytes) -> Bytes, c: Config, phase: Phase,
                     claim: Option<Claim>): Option<Bytes> {
    if !ConfigFits(c) then None else
    var wire := if claim.None? then Some([]) else w.put(claim.value);
    if wire.None? then None else
      var body := bind(c, Fields(phase, wire.value));
      Some(body + w.hash(body))
  }

  function ReadFile(w: Wire, bind: (Config, Bytes) -> Bytes, claimOk: (Config, Claim) -> bool, c: Config, b: Bytes)
    : Reply<(Phase, Option<Claim>)>
  {
    var start := |bind(c, [])|;
    if !ConfigFits(c) || |b| > 32768 || |b| < start + 37 || b[..start] != bind(c, []) then Err(CorruptRecord) else
    var phase := PhaseAt(b[start]);
    var len := FromBe(b[start + 1..start + 5]);
    if phase.None? || len > 16384 || |b| != start + 5 + len + 32 || w.hash(b[..|b| - 32]) != b[|b| - 32..]
      || (Rank(phase.value) >= 2) != (len != 0) then Err(CorruptRecord)
    else if len == 0 then Ok((phase.value, None))
    else
      var claim := w.get(b[start + 5..start + 5 + len]);
      if claim.None? || !claimOk(c, claim.value) then Err(CorruptRecord) else Ok((phase.value, claim))
  }

  /** What a binding must satisfy for the file to be safe. */
  ghost predicate BindSound(bind: (Config, Bytes) -> Bytes) {
    && (forall c: Config, x: Bytes, y: Bytes :: bind(c, x) + y == bind(c, x + y))
    && (forall c: Config, d: Config, x: Bytes, y: Bytes ::
          ConfigFits(c) && ConfigFits(d) && bind(c, x) == bind(d, y) ==> c == d && x == y)
  }

  lemma BindingSound(journal: Bytes, approval: Bytes)
    ensures BindSound((c, rest) => Binding(journal, approval, c, rest))
  {
    forall c: Config, x: Bytes, y: Bytes
      ensures Binding(journal, approval, c, x) + y == Binding(journal, approval, c, x + y)
    {
      BindingAppend(journal, approval, c, x, y);
    }
    forall c: Config, d: Config, x: Bytes, y: Bytes
      | ConfigFits(c) && ConfigFits(d) && Binding(journal, approval, c, x) == Binding(journal, approval, d, y)
      ensures c == d && x == y
    {
      BindingPrefixFree(journal, approval, c, x, d, y);
    }
  }

  lemma FieldsAt(start: Bytes, phase: Phase, wire: Bytes, tail: Bytes)
    ensures var b := start + (Fields(phase, wire) + tail); var n := |start|;
      && |b| == n + 5 + |wire| + |tail| && b[n] == Rank(phase)
      && b[n + 1..n + 5] == Be(|wire| % U32_LIMIT, 4) && b[n + 5..n + 5 + |wire|] == wire
  {
  }

  /** A readable file was written under the reader's own configuration and reads back as written. */
  lemma FileReadsBack(w: Wire, bind: (Config, Bytes) -> Bytes, claimOk: (Config, Claim) -> bool,
                      c: Config, phase: Phase, claim: Option<Claim>, d: Config)
    requires WireSound(w) && BindSound(bind) && WriteFile(w, bind, c, phase, claim).Some?
    requires ReadFile(w, bind, claimOk, d, WriteFile(w, bind, c, phase, claim).value).Ok?
    ensures d == c && (claim.Some? <==> Rank(phase) >= 2)
    ensures ReadFile(w, bind, claimOk, d, WriteFile(w, bind, c, phase, claim).value) == Ok((phase, claim))
  {
    var b := WriteFile(w, bind, c, phase, claim).value;
    var wire := if claim.None? then [] else w.put(claim.value).value;
    var body := bind(c, Fields(phase, wire));
    var start := bind(d, []);
    SameBinding(bind, c, Fields(phase, wire), w.hash(body), d, b);
    FieldsAt(start, phase, wire, w.hash(body));
  }

  lemma SameBinding(bind: (Config, Bytes) -> Bytes, c: Config, fields: Bytes, hash: Bytes, d: Config, b: Bytes)
    requires BindSound(bind) && ConfigFits(c) && ConfigFits(d)
    requires b == bind(c, fields) + hash && |b| >= |bind(d, [])| && b[..|bind(d, [])|] == bind(d, [])
    ensures c == d && b == bind(d, []) + (fields + hash)
  {
    var start := bind(d, []);
    var rest := b[|start|..];
    assert b == start + rest;
    assert [] + rest == rest;
    assert start + rest == bind(d, [] + rest);
    assert bind(c, fields + hash) == bind(d, rest);
  }

  lemma FileLayout(w: Wire, start: Bytes, phase: Phase, wire: Bytes)
    requires WireSound(w)
    ensures var body := start + Fields(phase, wire); var b := body + w.hash(body); var n := |start|;
      && |b| == n + 5 + |wire| + 32 && b[..n] == start && b[n] == Rank(phase)
      && b[..|b| - 32] == body && b[|b| - 32..] == w.hash(body) && b[n + 5..n + 5 + |wire|] == wire
      && (|wire| <= 16384 ==> FromBe(b[n + 1..n + 5]) == |wire|)
  {
    var body := start + Fields(phase, wire);
    var b := body + w.hash(body);
    AppendParts(body, w.hash(body));
    AppendParts(start, Fields(phase, wire) + w.hash(body));
    assert b == start + (Fields(phase, wire) + w.hash(body));
    FieldsAt(start, phase, wire, w.hash(body));
    if |wire| <= 16384 {
      SmallMod(|wire|, U32_LIMIT);
      Pow256Values();
      FromBeInverse(|wire|, 4);
    }
  }

  /** Exactly the records within the size limits, with a valid claim in the phases that need one, can be read. */
  lemma FileReadable(w: Wire, bind: (Config, Bytes) -> Bytes, claimOk: (Config, Claim) -> bool,
                     c: Config, phase: Phase, claim: Option<Claim>)
    requires WireSound(w) && WriteFile(w, bind, c, phase, claim).Some?
    requires forall x: Bytes :: bind(c, x) == bind(c, []) + x
    ensures var b := WriteFile(w, bind, c, phase, claim).value;
      ReadFile(w, bind, claimOk, c, b).Ok? <==>
        && |b| <= 32768 && (claim.Some? <==> Rank(phase) >= 2)
        && (claim.Some? ==> |w.put(claim.value).value| <= 16384 && claimOk(c, claim.value))
  {
    var wire := if claim.None? then [] else w.put(claim.value).value;
    assert bind(c, Fields(phase, wire)) == bind(c, []) + Fields(phase, wire);
    FileLayout(w, bind(c, []), phase, wire);
  }

  /** What the claim codec accepts is what it would write. */
  ghost predicate WireCanonical(w: Wire) {
    forall b: Bytes :: w.get(b).Some? ==> w.put(w.get(b).value) == Some(b)
  }

  lemma FieldsCanonical(b: Bytes, phase: Phase)
    requires |b| >= 5 && PhaseAt(b[0]) == Some(phase) && FromBe(b[1..5]) == |b| - 5
    ensures b == Fields(phase, b[5..])
  {
    BeInverse(b[1..5]);
    Pow256Values();
    SmallMod(|b| - 5, U32_LIMIT);
    assert b == [b[0]] + (b[1..5] + b[5..]);
  }

  /** Any file that reads is, byte for byte, what writing its content under this configuration produces. */
  lemma FileCanonical(w: Wire, bind: (Config, Bytes) -> Bytes, claimOk: (Config, Claim) -> bool, c: Config, b: Bytes)
    requires WireCanonical(w) && ReadFile(w, bind, claimOk, c, b).Ok?
    requires forall x: Bytes :: bind(c, x) == bind(c, []) + x
    ensures var (phase, claim) := ReadFile(w, bind, claimOk, c, b).value;
      WriteFile(w, bind, c, phase, claim) == Some(b) && (claim.Some? ==> claimOk(c, claim.value))
  {
    var (phase, claim) := ReadFile(w, bind, claimOk, c, b).value;
    var start, end := |bind(c, [])|, |b| - 32;
    var fields := b[start..end];
    assert fields[1..5] == b[start + 1..start + 5] && fields[5..] == b[start + 5..end];
    FieldsCanonical(fields, phase);
    assert b[..end] == b[..start] + fields;
    assert b == b[..end] + b[end..];
  }

  function FileEnv(env: Env, w: Wire): Env {
    var bind := (c, rest) => Binding(JOURNAL_DOMAIN, APPROVAL_DOMAIN, c, rest);
    env.(write := (c, phase, claim) => WriteFile(w, bind, c, phase, claim),
         read := (c, b) => ReadFile(w, bind, (d, claim) => ClaimOk(env, d, claim), c, b))
  }

  /** So the journal theorems hold of the real file format. */
  lemma FileEnvSound(env: Env, w: Wire)
    requires WireSound(w)
    ensures EnvSound(FileEnv(env, w))
  {
    var bind := (c, rest) => Binding(JOURNAL_DOMAIN, APPROVAL_DOMAIN, c, rest);
    var claimOk := (d, claim) => ClaimOk(env, d, claim);
    BindingSound(JOURNAL_DOMAIN, APPROVAL_DOMAIN);
    forall c: Config, phase: Phase, claim: Option<Claim>, d: Config
      | WriteFile(w, bind, c, phase, claim).Some?
        && ReadFile(w, bind, claimOk, d, WriteFile(w, bind, c, phase, claim).value).Ok?
      ensures d == c && (claim.Some? <==> Rank(phase) >= 2)
              && ReadFile(w, bind, claimOk, d, WriteFile(w, bind, c, phase, claim).value) == Ok((phase, claim))
    {
      FileReadsBack(w, bind, claimOk, c, phase, claim, d);
    }
  }
}
