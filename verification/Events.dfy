/** Key events: their values, their byte form, and the laws of that byte form. */
module Events {
  import opened Prelude
  import opened Codec

  datatype VerifyingKey = VerifyingKey(suite: byte, bytes: Bytes)

  datatype SigningKey = SigningKey(suite: byte, seed: Bytes)

  datatype Signature = Signature(suite: byte, bytes: Bytes)

  datatype IndexedSig = IndexedSig(index: nat, signature: Signature)

  /** A capability bit set; `from_bits` admits exactly the eight known bits. */
  type Capabilities = c: nat | c < 256

  datatype Seal =
    | Delegate(device: Bytes, capabilities: Capabilities)
    | Revoke(device: Bytes)

  type Anchor = b: Bytes | |b| == 32 witness seq(32, _ => 0)

  datatype Establishment = Establishment(
    keys: seq<VerifyingKey>, threshold: nat,
    next: seq<Bytes>, nextThreshold: nat,
    witnesses: seq<Bytes>, witnessThreshold: nat)

  datatype EventKind =
    | Inception(est: Establishment)
    | DelegatedInception(est: Establishment, delegator: Bytes)
    | Rotation(est: Establishment)
    | Interaction(anchors: seq<Anchor>)
    | SealEvent(seals: seq<Seal>)

  /** Text fields are held as their UTF-8 bytes. */
  datatype Event = Event(
    suite: byte, scid: Bytes, sn: nat, prior: Bytes, kind: EventKind, signatures: seq<IndexedSig>)

  /**
   What a decoder admits: size caps, item-count caps and the value checks.  The protocol's
   decoder is one grammar; the grammar with no caps below 2^32 and no value checks describes
   everything the encoder's fixed-width fields can represent.
   */
  datatype Grammar = Grammar(
    maxScid: nat, maxDid: nat, maxPrior: nat, maxMultihash: nat, maxKey: nat, maxSig: nat,
    maxKeys: nat, maxNext: nat, maxWitnesses: nat, maxSigs: nat, maxAnchors: nat, maxSeals: nat,
    suiteOk: byte -> bool,
    keyOk: VerifyingKey -> bool,
    sigOk: Signature -> bool,
    multihashOk: Bytes -> bool,
    textOk: Bytes -> bool,
    didOk: Bytes -> Option<IdentityError>,
    estOk: Establishment -> Option<IdentityError>)

  function LaxGrammar(): Grammar {
    Grammar(U32_LIMIT, U32_LIMIT, U32_LIMIT, U32_LIMIT, U32_LIMIT, U32_LIMIT,
            U32_LIMIT, U32_LIMIT, U32_LIMIT, U32_LIMIT, U32_LIMIT, U32_LIMIT,
            _ => true, _ => true, _ => true, _ => true, _ => true, _ => None, _ => None)
  }

  function Check(ok: bool, e: IdentityError): Result<(), IdentityError> {
    if ok then Ok(()) else Err(e)
  }

  function Checked(failure: Option<IdentityError>): Result<(), IdentityError> {
    if failure.Some? then Err(failure.value) else Ok(())
  }

  /* ---- item formats ---- */

  function PutKey(k: VerifyingKey, rest: Bytes): Bytes { PutU8(k.suite, PutBytes(k.bytes, rest)) }

  function GetKey(g: Grammar, b: Bytes): Parsed<VerifyingKey> {
    var (suite, b1) :- GetU8(b);
    var _ :- Check(g.suiteOk(suite), Crypto);
    var (raw, b2) :- GetBytes(g.maxKey, b1);
    var _ :- Check(g.keyOk(VerifyingKey(suite, raw)), Crypto);
    Ok((VerifyingKey(suite, raw), b2))
  }

  predicate KeyFits(g: Grammar, k: VerifyingKey) {
    g.suiteOk(k.suite) && g.keyOk(k) && |k.bytes| <= g.maxKey && |k.bytes| < U32_LIMIT
  }

  function KeyFormat(g: Grammar): Format<VerifyingKey> {
    Format(PutKey, b => GetKey(g, b), k => KeyFits(g, k))
  }

  function GetCommitment(g: Grammar, b: Bytes): Parsed<Bytes> {
    var (raw, b1) :- GetBytes(g.maxMultihash, b);
    var _ :- Check(g.multihashOk(raw), Crypto);
    Ok((raw, b1))
  }

  predicate CommitmentFits(g: Grammar, c: Bytes) {
    g.multihashOk(c) && |c| <= g.maxMultihash && |c| < U32_LIMIT
  }

  function CommitmentFormat(g: Grammar): Format<Bytes> {
    Format(PutBytes, b => GetCommitment(g, b), c => CommitmentFits(g, c))
  }

  function WitnessFormat(g: Grammar): Format<Bytes> {
    Format(PutBytes, b => GetBytes(g.maxDid, b), w => |w| <= g.maxDid && |w| < U32_LIMIT)
  }

  function GetAnchor(b: Bytes): Parsed<Anchor> {
    var (raw, b1) :- GetBytes(32, b);
    if |raw| != 32 then Err(BadEvent) else Ok((raw, b1))
  }

  function PutAnchor(a: Anchor, rest: Bytes): Bytes { PutBytes(a, rest) }

  function AnchorFormat(): Format<Anchor> { Format(PutAnchor, GetAnchor, _ => true) }

  const SEAL_DELEGATE: byte := 1
  const SEAL_REVOKE: byte := 2

  function PutSeal(s: Seal, rest: Bytes): Bytes {
    match s
    case Delegate(device, caps) => PutU8(SEAL_DELEGATE, PutBytes(device, PutU32(caps, rest)))
    case Revoke(device) => PutU8(SEAL_REVOKE, PutBytes(device, rest))
  }

  /** A device string: bounded, textual, and a well-formed DID. */
  function GetDidText(g: Grammar, b: Bytes): Parsed<Bytes> {
    var (raw, b1) :- GetBytes(g.maxDid, b);
    var _ :- Check(g.textOk(raw), BadEvent);
    var _ :- Checked(g.didOk(raw));
    Ok((raw, b1))
  }

  predicate DidTextFits(g: Grammar, d: Bytes) {
    g.textOk(d) && g.didOk(d).None? && |d| <= g.maxDid && |d| < U32_LIMIT
  }

  function GetSeal(g: Grammar, b: Bytes): Parsed<Seal> {
    var (tag, b1) :- GetU8(b);
    if tag == SEAL_DELEGATE then
      var (device, b2) :- GetDidText(g, b1);
      var (bits, b3) :- GetU32(b2);
      var _ :- Check(bits < 256, BadEvent);
      Ok((Delegate(device, bits), b3))
    else if tag == SEAL_REVOKE then
      var (device, b2) :- GetDidText(g, b1);
      Ok((Revoke(device), b2))
    else Err(BadEvent)
  }

  function SealFormat(g: Grammar): Format<Seal> {
    Format(PutSeal, b => GetSeal(g, b), (s: Seal) => DidTextFits(g, s.device))
  }

  function PutSig(s: IndexedSig, rest: Bytes): Bytes {
    PutU32(s.index, PutU8(s.signature.suite, PutBytes(s.signature.bytes, rest)))
  }

  function GetSig(g: Grammar, b: Bytes): Parsed<IndexedSig> {
    var (index, b1) :- GetU32(b);
    var (suite, b2) :- GetU8(b1);
    var _ :- Check(g.suiteOk(suite), Crypto);
    var (raw, b3) :- GetBytes(g.maxSig, b2);
    var _ :- Check(g.sigOk(Signature(suite, raw)), Crypto);
    Ok((IndexedSig(index, Signature(suite, raw)), b3))
  }

  predicate SigFits(g: Grammar, s: IndexedSig) {
    && s.index < U32_LIMIT && g.suiteOk(s.signature.suite) && g.sigOk(s.signature)
    && |s.signature.bytes| <= g.maxSig && |s.signature.bytes| < U32_LIMIT
  }

  function SigFormat(g: Grammar): Format<IndexedSig> {
    Format(PutSig, b => GetSig(g, b), s => SigFits(g, s))
  }

  lemma KeyLawful(g: Grammar)
    ensures Lawful(KeyFormat(g))
  {
    var f := KeyFormat(g);
    forall x: VerifyingKey, rest: Bytes | f.fits(x) ensures f.get(f.put(x, rest)) == Ok((x, rest)) {
      BytesLaws(g.maxKey, x.bytes, rest);
    }
    forall b: Bytes | f.get(b).Ok?
      ensures f.fits(f.get(b).value.0) && b == f.put(f.get(b).value.0, f.get(b).value.1)
    {
      BytesCanonical(g.maxKey, b[1..]);
    }
  }

  lemma CommitmentLawful(g: Grammar)
    ensures Lawful(CommitmentFormat(g)) && Lawful(WitnessFormat(g))
  {
    forall x: Bytes, rest: Bytes, max: nat | |x| <= max && |x| < U32_LIMIT
      ensures GetBytes(max, PutBytes(x, rest)) == Ok((x, rest))
    {
      BytesLaws(max, x, rest);
    }
    forall b: Bytes, max: nat | GetBytes(max, b).Ok?
      ensures var (v, rest) := GetBytes(max, b).value;
        |v| <= max && |v| < U32_LIMIT && b == PutBytes(v, rest)
    {
      BytesCanonical(max, b);
    }
  }

  lemma AnchorLawful()
    ensures Lawful(AnchorFormat())
  {
    forall x: Anchor, rest: Bytes ensures GetAnchor(PutAnchor(x, rest)) == Ok((x, rest)) {
      BytesLaws(32, x, rest);
    }
    forall b: Bytes | GetAnchor(b).Ok?
      ensures b == PutAnchor(GetAnchor(b).value.0, GetAnchor(b).value.1)
    {
      BytesCanonical(32, b);
    }
  }

  lemma SealLawful(g: Grammar)
    ensures Lawful(SealFormat(g))
  {
    var f := SealFormat(g);
    forall x: Seal, rest: Bytes | f.fits(x) ensures f.get(f.put(x, rest)) == Ok((x, rest)) {
      match x {
        case Delegate(device, caps) =>
          BytesLaws(g.maxDid, device, PutU32(caps, rest));
          U32Laws(caps, rest);
        case Revoke(device) => BytesLaws(g.maxDid, device, rest);
      }
    }
    forall b: Bytes | f.get(b).Ok?
      ensures f.fits(f.get(b).value.0) && b == f.put(f.get(b).value.0, f.get(b).value.1)
    {
      BytesCanonical(g.maxDid, b[1..]);
      if b[0] == SEAL_DELEGATE {
        U32Canonical(GetBytes(g.maxDid, b[1..]).value.1);
      }
    }
  }

  lemma SigLawful(g: Grammar)
    ensures Lawful(SigFormat(g))
  {
    var f := SigFormat(g);
    forall x: IndexedSig, rest: Bytes | f.fits(x) ensures f.get(f.put(x, rest)) == Ok((x, rest)) {
      U32Laws(x.index, PutU8(x.signature.suite, PutBytes(x.signature.bytes, rest)));
      BytesLaws(g.maxSig, x.signature.bytes, rest);
    }
    forall b: Bytes | f.get(b).Ok?
      ensures f.fits(f.get(b).value.0) && b == f.put(f.get(b).value.0, f.get(b).value.1)
    {
      U32Canonical(b);
      BytesCanonical(g.maxSig, GetU32(b).value.1[1..]);
    }
  }

  /* ---- establishment ---- */

  /** The witness threshold is written only beside a non-empty witness set. */
  function PutWitnessThreshold(est: Establishment, rest: Bytes): Bytes {
    if est.witnesses == [] then rest else PutU32(est.witnessThreshold, rest)
  }

  function GetWitnessThreshold(witnesses: seq<Bytes>, b: Bytes): Parsed<nat> {
    if witnesses == [] then Ok((0, b)) else GetU32(b)
  }

  function PutEstablishment(est: Establishment, rest: Bytes): Bytes {
    PutList(PutKey, est.keys,
      PutU32(est.threshold,
        PutList(PutBytes, est.next,
          PutU32(est.nextThreshold,
            PutList(PutBytes, est.witnesses,
              PutWitnessThreshold(est, rest))))))
  }

  function GetEstablishment(g: Grammar, b: Bytes): Parsed<Establishment> {
    var (keys, b1) :- GetList(KeyFormat(g), g.maxKeys, b);
    var (threshold, b2) :- GetU32(b1);
    var (next, b3) :- GetList(CommitmentFormat(g), g.maxNext, b2);
    var (nextThreshold, b4) :- GetU32(b3);
    var (witnesses, b5) :- GetList(WitnessFormat(g), g.maxWitnesses, b4);
    var (witnessThreshold, b6) :- GetWitnessThreshold(witnesses, b5);
    var est := Establishment(keys, threshold, next, nextThreshold, witnesses, witnessThreshold);
    var _ :- Checked(g.estOk(est));
    Ok((est, b6))
  }

  predicate EstablishmentFits(g: Grammar, est: Establishment) {
    && ListFits(KeyFormat(g), g.maxKeys, est.keys)
    && est.threshold < U32_LIMIT
    && ListFits(CommitmentFormat(g), g.maxNext, est.next)
    && est.nextThreshold < U32_LIMIT
    && ListFits(WitnessFormat(g), g.maxWitnesses, est.witnesses)
    && est.witnessThreshold < U32_LIMIT
    && (est.witnesses == [] ==> est.witnessThreshold == 0)
    && g.estOk(est).None?
  }

  lemma EstablishmentLaws(g: Grammar, est: Establishment, rest: Bytes)
    requires EstablishmentFits(g, est)
    ensures GetEstablishment(g, PutEstablishment(est, rest)) == Ok((est, rest))
  {
    var p6 := PutWitnessThreshold(est, rest);
    var p5 := PutList(PutBytes, est.witnesses, p6);
    var p4 := PutU32(est.nextThreshold, p5);
    var p3 := PutList(PutBytes, est.next, p4);
    var p2 := PutU32(est.threshold, p3);
    KeyLawful(g); CommitmentLawful(g);
    ListLaws(KeyFormat(g), g.maxKeys, est.keys, p2);
    U32Laws(est.threshold, p3);
    ListLaws(CommitmentFormat(g), g.maxNext, est.next, p4);
    U32Laws(est.nextThreshold, p5);
    ListLaws(WitnessFormat(g), g.maxWitnesses, est.witnesses, p6);
    U32Laws(est.witnessThreshold, rest);
  }

  lemma EstablishmentCanonical(g: Grammar, b: Bytes)
    requires GetEstablishment(g, b).Ok?
    ensures var (est, rest) := GetEstablishment(g, b).value;
      EstablishmentFits(g, est) && b == PutEstablishment(est, rest)
  {
    KeyLawful(g); CommitmentLawful(g);
    ListCanonical(KeyFormat(g), g.maxKeys, b);
    var (keys, b1) := GetList(KeyFormat(g), g.maxKeys, b).value;
    U32Canonical(b1);
    var (_, b2) := GetU32(b1).value;
    ListCanonical(CommitmentFormat(g), g.maxNext, b2);
    var (_, b3) := GetList(CommitmentFormat(g), g.maxNext, b2).value;
    U32Canonical(b3);
    var (_, b4) := GetU32(b3).value;
    ListCanonical(WitnessFormat(g), g.maxWitnesses, b4);
    U32Canonical(GetList(WitnessFormat(g), g.maxWitnesses, b4).value.1);
  }

  /* ---- events ---- */

  const TAG_ICP: byte := 1
  const TAG_ROT: byte := 2
  const TAG_IXN: byte := 3
  const TAG_SEAL: byte := 4
  const TAG_DIP: byte := 5

  function Tag(kind: EventKind): byte {
    match kind
    case Inception(_) => TAG_ICP
    case DelegatedInception(_, _) => TAG_DIP
    case Rotation(_) => TAG_ROT
    case Interaction(_) => TAG_IXN
    case SealEvent(_) => TAG_SEAL
  }

  function PutKind(kind: EventKind, rest: Bytes): Bytes {
    match kind
    case Inception(est) => PutEstablishment(est, rest)
    case Rotation(est) => PutEstablishment(est, rest)
    case DelegatedInception(est, delegator) => PutEstablishment(est, PutBytes(delegator, rest))
    case Interaction(anchors) => PutList(PutAnchor, anchors, rest)
    case SealEvent(seals) => PutList(PutSeal, seals, rest)
  }

  function GetKind(g: Grammar, tag: byte, b: Bytes): Parsed<EventKind> {
    if tag == TAG_ICP then
      var (est, b1) :- GetEstablishment(g, b);
      Ok((Inception(est), b1))
    else if tag == TAG_DIP then
      var (est, b1) :- GetEstablishment(g, b);
      var (delegator, b2) :- GetDidText(g, b1);
      Ok((DelegatedInception(est, delegator), b2))
    else if tag == TAG_ROT then
      var (est, b1) :- GetEstablishment(g, b);
      Ok((Rotation(est), b1))
    else if tag == TAG_IXN then
      var (anchors, b1) :- GetList(AnchorFormat(), g.maxAnchors, b);
      Ok((Interaction(anchors), b1))
    else if tag == TAG_SEAL then
      var (seals, b1) :- GetList(SealFormat(g), g.maxSeals, b);
      Ok((SealEvent(seals), b1))
    else Err(UnknownEventTag)
  }

  predicate KindFits(g: Grammar, kind: EventKind) {
    match kind
    case Inception(est) => EstablishmentFits(g, est)
    case Rotation(est) => EstablishmentFits(g, est)
    case DelegatedInception(est, delegator) => EstablishmentFits(g, est) && DidTextFits(g, delegator)
    case Interaction(anchors) => ListFits(AnchorFormat(), g.maxAnchors, anchors)
    case SealEvent(seals) => ListFits(SealFormat(g), g.maxSeals, seals)
  }

  lemma DelegatedLaws(g: Grammar, est: Establishment, delegator: Bytes, rest: Bytes)
    requires EstablishmentFits(g, est) && DidTextFits(g, delegator)
    ensures GetEstablishment(g, PutEstablishment(est, PutBytes(delegator, rest)))
      == Ok((est, PutBytes(delegator, rest)))
    ensures GetDidText(g, PutBytes(delegator, rest)) == Ok((delegator, rest))
  {
    EstablishmentLaws(g, est, PutBytes(delegator, rest));
    BytesLaws(g.maxDid, delegator, rest);
  }

  lemma KindLaws(g: Grammar, kind: EventKind, rest: Bytes)
    requires KindFits(g, kind)
    ensures GetKind(g, Tag(kind), PutKind(kind, rest)) == Ok((kind, rest))
  {
    match kind {
      case Inception(est) => EstablishmentLaws(g, est, rest);
      case Rotation(est) => EstablishmentLaws(g, est, rest);
      case DelegatedInception(est, delegator) => DelegatedLaws(g, est, delegator, rest);
      case Interaction(anchors) =>
        assert GetList(AnchorFormat(), g.maxAnchors, PutList(PutAnchor, anchors, rest)) == Ok((anchors, rest)) by {
          AnchorLawful();
          ListLaws(AnchorFormat(), g.maxAnchors, anchors, rest);
        }
      case SealEvent(seals) =>
        assert GetList(SealFormat(g), g.maxSeals, PutList(PutSeal, seals, rest)) == Ok((seals, rest)) by {
          SealLawful(g);
          ListLaws(SealFormat(g), g.maxSeals, seals, rest);
        }
    }
  }

  lemma AnchorsCanonical(g: Grammar, b: Bytes)
    requires GetList(AnchorFormat(), g.maxAnchors, b).Ok?
    ensures var (xs, rest) := GetList(AnchorFormat(), g.maxAnchors, b).value;
      ListFits(AnchorFormat(), g.maxAnchors, xs) && b == PutList(PutAnchor, xs, rest)
  {
    AnchorLawful();
    ListCanonical(AnchorFormat(), g.maxAnchors, b);
  }

  lemma SealsCanonical(g: Grammar, b: Bytes)
    requires GetList(SealFormat(g), g.maxSeals, b).Ok?
    ensures var (xs, rest) := GetList(SealFormat(g), g.maxSeals, b).value;
      ListFits(SealFormat(g), g.maxSeals, xs) && b == PutList(PutSeal, xs, rest)
  {
    SealLawful(g);
    ListCanonical(SealFormat(g), g.maxSeals, b);
  }

  lemma KindCanonical(g: Grammar, tag: byte, b: Bytes)
    requires GetKind(g, tag, b).Ok?
    ensures var (kind, rest) := GetKind(g, tag, b).value;
      KindFits(g, kind) && Tag(kind) == tag && b == PutKind(kind, rest)
  {
    if tag == TAG_IXN {
      AnchorsCanonical(g, b);
    } else if tag == TAG_SEAL {
      SealsCanonical(g, b);
    } else if tag == TAG_DIP {
      DelegatedCanonical(g, b);
    } else {
      EstablishmentCanonical(g, b);
    }
  }

  lemma DelegatedCanonical(g: Grammar, b: Bytes)
    requires GetKind(g, TAG_DIP, b).Ok?
    ensures var (kind, rest) := GetKind(g, TAG_DIP, b).value;
      KindFits(g, kind) && Tag(kind) == TAG_DIP && b == PutKind(kind, rest)
  {
    EstablishmentCanonical(g, b);
    BytesCanonical(g.maxDid, GetEstablishment(g, b).value.1);
  }

  /** Everything but the signatures. */
  function PutUnsigned(e: Event, rest: Bytes): Bytes {
    PutU8(Tag(e.kind), PutU8(e.suite, PutBytes(e.scid, PutU64(e.sn, PutBytes(e.prior,
      PutKind(e.kind, rest))))))
  }

  function GetUnsigned(g: Grammar, b: Bytes): Parsed<Event> {
    var (tag, b1) :- GetU8(b);
    var (suite, b2) :- GetU8(b1);
    var _ :- Check(g.suiteOk(suite), Crypto);
    var (scid, b3) :- GetBytes(g.maxScid, b2);
    var _ :- Check(g.textOk(scid), BadEvent);
    var (sn, b4) :- GetU64(b3);
    var (prior, b5) :- GetBytes(g.maxPrior, b4);
    var (kind, b6) :- GetKind(g, tag, b5);
    Ok((Event(suite, scid, sn, prior, kind, []), b6))
  }

  predicate UnsignedFits(g: Grammar, e: Event) {
    && g.suiteOk(e.suite)
    && g.textOk(e.scid) && |e.scid| <= g.maxScid && |e.scid| < U32_LIMIT
    && e.sn < U64_LIMIT
    && |e.prior| <= g.maxPrior && |e.prior| < U32_LIMIT
    && KindFits(g, e.kind)
  }

  lemma UnsignedLaws(g: Grammar, e: Event, rest: Bytes)
    requires UnsignedFits(g, e)
    ensures GetUnsigned(g, PutUnsigned(e, rest)) == Ok((e.(signatures := []), rest))
  {
    var p5 := PutKind(e.kind, rest);
    var p4 := PutBytes(e.prior, p5);
    var p3 := PutU64(e.sn, p4);
    var p2 := PutBytes(e.scid, p3);
    U8Laws(Tag(e.kind), PutU8(e.suite, p2));
    U8Laws(e.suite, p2);
    BytesLaws(g.maxScid, e.scid, p3);
    U64Laws(e.sn, p4);
    BytesLaws(g.maxPrior, e.prior, p5);
    KindLaws(g, e.kind, rest);
  }

  lemma UnsignedCanonical(g: Grammar, b: Bytes)
    requires GetUnsigned(g, b).Ok?
    ensures var (e, rest) := GetUnsigned(g, b).value;
      UnsignedFits(g, e) && b == PutUnsigned(e, rest)
  {
    var (tag, b1) := GetU8(b).value;
    var (suite, b2) := GetU8(b1).value;
    U8Canonical(b); U8Canonical(b1);
    BytesCanonical(g.maxScid, b2);
    var (_, b3) := GetBytes(g.maxScid, b2).value;
    U64Canonical(b3);
    var (_, b4) := GetU64(b3).value;
    BytesCanonical(g.maxPrior, b4);
    KindCanonical(g, tag, GetBytes(g.maxPrior, b4).value.1);
  }

  function PutEvent(e: Event, rest: Bytes): Bytes {
    PutUnsigned(e, PutList(PutSig, e.signatures, rest))
  }

  function GetEvent(g: Grammar, b: Bytes): Parsed<Event> {
    var (e, b1) :- GetUnsigned(g, b);
    var (signatures, b2) :- GetList(SigFormat(g), g.maxSigs, b1);
    Ok((e.(signatures := signatures), b2))
  }

  predicate EventFits(g: Grammar, e: Event) {
    UnsignedFits(g, e) && ListFits(SigFormat(g), g.maxSigs, e.signatures)
  }

  /** Decoding the encoding of an admissible event returns that event and what followed it. */
  lemma EventLaws(g: Grammar, e: Event, rest: Bytes)
    requires EventFits(g, e)
    ensures GetEvent(g, PutEvent(e, rest)) == Ok((e, rest))
  {
    SigLawful(g);
    UnsignedLaws(g, e, PutList(PutSig, e.signatures, rest));
    ListLaws(SigFormat(g), g.maxSigs, e.signatures, rest);
  }

  /** Every accepted byte string is the one canonical encoding of an admissible event. */
  lemma EventCanonical(g: Grammar, b: Bytes)
    requires GetEvent(g, b).Ok?
    ensures var (e, rest) := GetEvent(g, b).value;
      EventFits(g, e) && b == PutEvent(e, rest)
  {
    SigLawful(g);
    UnsignedCanonical(g, b);
    ListCanonical(SigFormat(g), g.maxSigs, GetUnsigned(g, b).value.1);
  }
}
