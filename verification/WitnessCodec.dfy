/** Byte forms of receipts and certificates: strict, canonical, and never cut off by their own size caps. */
module WitnessCodecs {
  import opened Prelude
  import opened Codec
  import opened Events
  import opened Identity
  import opened KeyEventLog
  import opened Witnesses

  const MAX_MULTIHASH_BYTES := 128
  const MAX_STATEMENT_BYTES := 2 * MAX_DID_BYTES + 2 * MAX_MULTIHASH_BYTES + 64
  const MAX_SIGNATURE_BYTES := 4096
  const MAX_RECEIPT_BYTES := MAX_STATEMENT_BYTES + MAX_SIGNATURE_BYTES + 64
  const CERTIFICATE_V1: byte := 1

  /* ---- statements ---- */

  function GetDid(p: Primitives, b: Bytes): Parsed<Bytes> {
    var (raw, rest) :- GetBytes(MAX_DID_BYTES, b);
    var _ :- Check(p.utf8(raw), DidFormat);
    var _ :- Checked(DidFailure(p, raw));
    Ok((raw, rest))
  }

  predicate DidFits(p: Primitives, d: Bytes) { p.utf8(d) && IsDid(p, d) && |d| <= MAX_DID_BYTES }

  function KindAt(tag: byte): Option<KeyEventKind> {
    if tag == 1 then Some(KInception) else if tag == 2 then Some(KDelegatedInception)
    else if tag == 3 then Some(KRotation)
    else if tag == 4 then Some(KInteraction) else if tag == 5 then Some(KSeal) else None
  }

  function GetPrior(b: Bytes): Parsed<Option<Bytes>> {
    var (flag, b1) :- GetU8(b);
    if flag == 0 then Ok((None, b1))
    else if flag == 1 then
      var (d, b2) :- GetBytes(MAX_MULTIHASH_BYTES, b1);
      Ok((Some(d), b2))
    else Err(BadEvent)
  }

  function GetKindTag(b: Bytes): Parsed<KeyEventKind> {
    var (tag, b1) :- GetU8(b);
    if KindAt(tag).None? then Err(UnknownKindTag) else Ok((KindAt(tag).value, b1))
  }

  /** Everything up to and including the prior digest. */
  function GetSubject(p: Primitives, b: Bytes): Parsed<(Bytes, nat, Bytes, Option<Bytes>)> {
    var (version, b1) :- GetU8(b);
    var _ :- Check(version == RECEIPT_V1, UnknownReceiptVersion);
    var (identity, b2) :- GetDid(p, b1);
    var (sequence, b3) :- GetU64(b2);
    var (eventDigest, b4) :- GetBytes(MAX_MULTIHASH_BYTES, b3);
    var (prior, b5) :- GetPrior(b4);
    Ok(((identity, sequence, eventDigest, prior), b5))
  }

  /** The rest: kind, generation, witness, epoch. */
  function GetObserver(p: Primitives, b: Bytes): Parsed<(KeyEventKind, nat, Bytes, nat)> {
    var (kind, b1) :- GetKindTag(b);
    var (generation, b2) :- GetU64(b1);
    var (signer, b3) :- GetDid(p, b2);
    var (epoch, b4) :- GetU64(b3);
    Ok(((kind, generation, signer, epoch), b4))
  }

  function DecodeStatement(p: Primitives, b: Bytes): Verdict<Statement> {
    var (subject, b1) :- GetSubject(p, b);
    var (observer, b2) :- GetObserver(p, b1);
    if b2 != [] then Err(TrailingBytes) else
      Ok(Statement(subject.0, subject.1, subject.2, subject.3, observer.0, observer.1, observer.2, observer.3))
  }

  predicate StatementValid(p: Primitives, s: Statement) {
    && DidFits(p, s.identity) && s.sequence < U64_LIMIT && |s.eventDigest| <= MAX_MULTIHASH_BYTES
    && (s.priorDigest.Some? ==> |s.priorDigest.value| <= MAX_MULTIHASH_BYTES)
    && s.generation < U64_LIMIT && DidFits(p, s.signer) && s.epoch < U64_LIMIT
  }

  function PutObserver(s: Statement, rest: Bytes): Bytes {
    PutU8(KindTag(s.kind), PutU64(s.generation, PutBytes(s.signer, PutU64(s.epoch, rest))))
  }

  /** The ceiling on a whole statement is never the limit that rejects a valid one. */
  lemma StatementWithinCap(p: Primitives, s: Statement)
    requires StatementValid(p, s)
    ensures |PutStatement(s, [])| <= MAX_STATEMENT_BYTES
  {
  }

  lemma DidLaws(p: Primitives, d: Bytes, rest: Bytes)
    requires DidFits(p, d)
    ensures GetDid(p, PutBytes(d, rest)) == Ok((d, rest))
  {
    BytesLaws(MAX_DID_BYTES, d, rest);
  }

  lemma PriorLaws(d: Option<Bytes>, rest: Bytes)
    requires d.Some? ==> |d.value| <= MAX_MULTIHASH_BYTES
    ensures GetPrior(PutPrior(d, rest)) == Ok((d, rest))
  {
    if d.Some? { BytesLaws(MAX_MULTIHASH_BYTES, d.value, rest); }
  }

  lemma ObserverLaws(p: Primitives, s: Statement, rest: Bytes)
    requires StatementValid(p, s)
    ensures GetObserver(p, PutObserver(s, rest)) == Ok(((s.kind, s.generation, s.signer, s.epoch), rest))
  {
    var b3 := PutU64(s.epoch, rest);
    var b2 := PutBytes(s.signer, b3);
    U8Laws(KindTag(s.kind), PutU64(s.generation, b2));
    U64Laws(s.generation, b2);
    DidLaws(p, s.signer, b3);
    U64Laws(s.epoch, rest);
  }

  lemma StatementLaws(p: Primitives, s: Statement)
    requires StatementValid(p, s)
    ensures DecodeStatement(p, PutStatement(s, [])) == Ok(s)
  {
    var b5 := PutObserver(s, []);
    var b4 := PutPrior(s.priorDigest, b5);
    var b3 := PutBytes(s.eventDigest, b4);
    var b2 := PutU64(s.sequence, b3);
    U8Laws(RECEIPT_V1, PutBytes(s.identity, b2));
    DidLaws(p, s.identity, b2);
    U64Laws(s.sequence, b3);
    BytesLaws(MAX_MULTIHASH_BYTES, s.eventDigest, b4);
    PriorLaws(s.priorDigest, b5);
    ObserverLaws(p, s, []);
  }

  lemma ObserverCanonical(p: Primitives, b: Bytes)
    requires GetObserver(p, b).Ok?
    ensures var ((kind, generation, signer, epoch), rest) := GetObserver(p, b).value;
      && generation < U64_LIMIT && epoch < U64_LIMIT && DidFits(p, signer)
      && b == PutU8(KindTag(kind), PutU64(generation, PutBytes(signer, PutU64(epoch, rest))))
  {
    U8Canonical(b);
    var b1 := GetU8(b).value.1;
    U64Canonical(b1);
    var b2 := GetU64(b1).value.1;
    BytesCanonical(MAX_DID_BYTES, b2);
    U64Canonical(GetBytes(MAX_DID_BYTES, b2).value.1);
  }

  lemma PriorCanonical(b: Bytes)
    requires GetPrior(b).Ok?
    ensures var (d, rest) := GetPrior(b).value;
      (d.Some? ==> |d.value| <= MAX_MULTIHASH_BYTES) && b == PutPrior(d, rest)
  {
    U8Canonical(b);
    if b[0] == 1 { BytesCanonical(MAX_MULTIHASH_BYTES, b[1..]); }
  }

  lemma SubjectCanonical(p: Primitives, b: Bytes)
    requires GetSubject(p, b).Ok?
    ensures var ((identity, sequence, eventDigest, prior), rest) := GetSubject(p, b).value;
      && DidFits(p, identity) && sequence < U64_LIMIT && |eventDigest| <= MAX_MULTIHASH_BYTES
      && (prior.Some? ==> |prior.value| <= MAX_MULTIHASH_BYTES)
      && b == PutU8(RECEIPT_V1, PutBytes(identity, PutU64(sequence, PutBytes(eventDigest, PutPrior(prior, rest)))))
  {
    U8Canonical(b);
    var b1 := GetU8(b).value.1;
    BytesCanonical(MAX_DID_BYTES, b1);
    var b2 := GetBytes(MAX_DID_BYTES, b1).value.1;
    U64Canonical(b2);
    var b3 := GetU64(b2).value.1;
    BytesCanonical(MAX_MULTIHASH_BYTES, b3);
    PriorCanonical(GetBytes(MAX_MULTIHASH_BYTES, b3).value.1);
  }

  /** Every accepted statement is valid and is the one encoding of itself. */
  lemma StatementCanonical(p: Primitives, b: Bytes)
    requires DecodeStatement(p, b).Ok?
    ensures StatementValid(p, DecodeStatement(p, b).value) && b == PutStatement(DecodeStatement(p, b).value, [])
  {
    SubjectCanonical(p, b);
    ObserverCanonical(p, GetSubject(p, b).value.1);
  }

  /* ---- receipts ---- */

  function PutReceipt(r: Receipt): Bytes {
    PutBytes(PutStatement(r.statement, []), PutU8(r.signature.suite, PutBytes(r.signature.bytes, [])))
  }

  function DecodeReceipt(p: Primitives, b: Bytes): Verdict<Receipt> {
    var (inner, b1) :- GetBytes(MAX_STATEMENT_BYTES, b);
    var statement :- DecodeStatement(p, inner);
    var (suite, b2) :- GetU8(b1);
    var _ :- Check(p.suiteOk(suite), Crypto);
    var (raw, b3) :- GetBytes(MAX_SIGNATURE_BYTES, b2);
    var _ :- Check(p.sigOk(Signature(suite, raw)), Crypto);
    if b3 != [] then Err(TrailingBytes) else Ok(Receipt(statement, Signature(suite, raw)))
  }

  predicate ReceiptValid(p: Primitives, r: Receipt) {
    && StatementValid(p, r.statement) && p.suiteOk(r.signature.suite) && p.sigOk(r.signature)
    && |r.signature.bytes| <= MAX_SIGNATURE_BYTES
  }

  lemma ReceiptWithinCap(p: Primitives, r: Receipt)
    requires ReceiptValid(p, r)
    ensures |PutReceipt(r)| <= MAX_RECEIPT_BYTES
  {
  }

  lemma ReceiptLaws(p: Primitives, r: Receipt)
    requires ReceiptValid(p, r)
    ensures DecodeReceipt(p, PutReceipt(r)) == Ok(r)
  {
    var b2 := PutBytes(r.signature.bytes, []);
    StatementWithinCap(p, r.statement);
    StatementLaws(p, r.statement);
    BytesLaws(MAX_STATEMENT_BYTES, PutStatement(r.statement, []), PutU8(r.signature.suite, b2));
    U8Laws(r.signature.suite, b2);
    BytesLaws(MAX_SIGNATURE_BYTES, r.signature.bytes, []);
  }

  lemma ReceiptCanonical(p: Primitives, b: Bytes)
    requires DecodeReceipt(p, b).Ok?
    ensures ReceiptValid(p, DecodeReceipt(p, b).value) && b == PutReceipt(DecodeReceipt(p, b).value)
  {
    BytesCanonical(MAX_STATEMENT_BYTES, b);
    var (inner, b1) := GetBytes(MAX_STATEMENT_BYTES, b).value;
    StatementCanonical(p, inner);
    U8Canonical(b1);
    BytesCanonical(MAX_SIGNATURE_BYTES, GetU8(b1).value.1);
  }

  /* ---- certificates ---- */

  function PutFramedReceipt(r: Receipt, rest: Bytes): Bytes { PutBytes(PutReceipt(r), rest) }

  function GetFramedReceipt(p: Primitives, b: Bytes): Parsed<Receipt> {
    var (frame, rest) :- GetBytes(MAX_RECEIPT_BYTES, b);
    var r :- DecodeReceipt(p, frame);
    Ok((r, rest))
  }

  function ReceiptFormat(p: Primitives): Format<Receipt> {
    Format(PutFramedReceipt, b => GetFramedReceipt(p, b), r => ReceiptValid(p, r))
  }

  lemma ReceiptFormatLawful(p: Primitives)
    ensures Lawful(ReceiptFormat(p))
  {
    var f := ReceiptFormat(p);
    forall r: Receipt, rest: Bytes | f.fits(r) ensures f.get(f.put(r, rest)) == Ok((r, rest)) {
      ReceiptWithinCap(p, r);
      BytesLaws(MAX_RECEIPT_BYTES, PutReceipt(r), rest);
      ReceiptLaws(p, r);
    }
    forall b: Bytes | f.get(b).Ok?
      ensures f.fits(f.get(b).value.0) && b == f.put(f.get(b).value.0, f.get(b).value.1)
    {
      BytesCanonical(MAX_RECEIPT_BYTES, b);
      ReceiptCanonical(p, GetBytes(MAX_RECEIPT_BYTES, b).value.0);
    }
  }

  function EncodeCertificate(c: Certificate): Bytes {
    PutU8(CERTIFICATE_V1, PutBytes(c.identity, PutU64(c.sequence, PutBytes(c.eventDigest, PutU64(c.generation,
      PutList(PutFramedReceipt, c.receipts, []))))))
  }

  function DecodeCertificate(p: Primitives, b: Bytes): Verdict<Certificate> {
    var (version, b1) :- GetU8(b);
    var _ :- Check(version == CERTIFICATE_V1, UnknownCertificateVersion);
    var (identity, b2) :- GetDid(p, b1);
    var (sequence, b3) :- GetU64(b2);
    var (eventDigest, b4) :- GetBytes(MAX_MULTIHASH_BYTES, b3);
    var (generation, b5) :- GetU64(b4);
    var (receipts, b6) :- GetList(ReceiptFormat(p), MAX_WITNESSES, b5);
    if b6 != [] then Err(TrailingBytes)
    else if receipts == [] then Err(EmptyWitnessSet)
    else Ok(Certificate(identity, sequence, eventDigest, generation, receipts))
  }

  predicate CertificateFits(p: Primitives, c: Certificate) {
    && DidFits(p, c.identity) && c.sequence < U64_LIMIT && |c.eventDigest| <= MAX_MULTIHASH_BYTES
    && c.generation < U64_LIMIT && c.receipts != [] && ListFits(ReceiptFormat(p), MAX_WITNESSES, c.receipts)
  }

  /** Every accepted byte string is the one encoding of the certificate it decodes to. */
  lemma CertificateCanonical(p: Primitives, b: Bytes)
    requires DecodeCertificate(p, b).Ok?
    ensures CertificateFits(p, DecodeCertificate(p, b).value) && b == EncodeCertificate(DecodeCertificate(p, b).value)
  {
    U8Canonical(b);
    var b1 := GetU8(b).value.1;
    BytesCanonical(MAX_DID_BYTES, b1);
    var b2 := GetBytes(MAX_DID_BYTES, b1).value.1;
    U64Canonical(b2);
    var b3 := GetU64(b2).value.1;
    BytesCanonical(MAX_MULTIHASH_BYTES, b3);
    var b4 := GetBytes(MAX_MULTIHASH_BYTES, b3).value.1;
    U64Canonical(b4);
    ReceiptFormatLawful(p);
    ListCanonical(ReceiptFormat(p), MAX_WITNESSES, GetU64(b4).value.1);
  }

  lemma FittingRoundTrips(p: Primitives, c: Certificate)
    requires CertificateFits(p, c)
    ensures DecodeCertificate(p, EncodeCertificate(c)) == Ok(c)
  {
    var b5 := PutList(PutFramedReceipt, c.receipts, []);
    var b4 := PutU64(c.generation, b5);
    var b3 := PutBytes(c.eventDigest, b4);
    var b2 := PutU64(c.sequence, b3);
    U8Laws(CERTIFICATE_V1, PutBytes(c.identity, b2));
    DidLaws(p, c.identity, b2);
    U64Laws(c.sequence, b3);
    BytesLaws(MAX_MULTIHASH_BYTES, c.eventDigest, b4);
    U64Laws(c.generation, b5);
    ReceiptFormatLawful(p);
    ListLaws(ReceiptFormat(p), MAX_WITNESSES, c.receipts, []);
  }

  /** Decoding undoes encoding exactly on the well-formed certificates: no nested size cap ever interferes. */
  lemma CertificateRoundTrip(p: Primitives, c: Certificate)
    ensures DecodeCertificate(p, EncodeCertificate(c)) == Ok(c) <==> CertificateFits(p, c)
  {
    if CertificateFits(p, c) { FittingRoundTrips(p, c); }
    if DecodeCertificate(p, EncodeCertificate(c)) == Ok(c) { CertificateCanonical(p, EncodeCertificate(c)); }
  }
}
