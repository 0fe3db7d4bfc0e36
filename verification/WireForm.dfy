/** The byte forms of events and logs, and the identity primitives built on them. */
module WireForm {
  import opened Prelude
  import opened Codec
  import opened Events
  import opened Identity
  import opened KeyEventLog

  /* ---- byte forms that are hashed or signed ---- */

  function FullBytes(e: Event): Bytes { PutEvent(e, []) }

  function SigningBytes(e: Event): Bytes { PutUnsigned(e, []) }

  /** The identifier is blanked so that it does not depend on itself; signatures are left out. */
  function ScidInput(e: Event): Bytes { PutUnsigned(e.(scid := []), []) }

  function Fingerprint(k: VerifyingKey): Bytes { [k.suite] + k.bytes }

  /** Primitives whose digests, identifiers and commitments hash the byte forms above. */
  function Hashed(p: Primitives, hash: Bytes -> Bytes, text: Bytes -> Bytes): Primitives {
    p.(digest := e => hash(FullBytes(e)),
       signingBytes := SigningBytes,
       scidOf := e => text(hash(ScidInput(e))),
       commitment := k => hash(Fingerprint(k)))
  }

  lemma FingerprintInjective(a: VerifyingKey, b: VerifyingKey)
    requires Fingerprint(a) == Fingerprint(b)
    ensures a == b
  {
    assert a.bytes == Fingerprint(a)[1..] && b.bytes == Fingerprint(b)[1..];
    assert Fingerprint(a)[0] == a.suite && Fingerprint(b)[0] == b.suite;
  }

  /** Two representable events with the same bytes are the same event. */
  lemma FullBytesInjective(a: Event, b: Event)
    requires EventFits(LaxGrammar(), a) && EventFits(LaxGrammar(), b)
    requires FullBytes(a) == FullBytes(b)
    ensures a == b
  {
    EventLaws(LaxGrammar(), a, []);
    EventLaws(LaxGrammar(), b, []);
  }

  /** The identifier input fixes everything except the identifier field and the signatures. */
  lemma ScidInputInjective(a: Event, b: Event)
    requires UnsignedFits(LaxGrammar(), a) && UnsignedFits(LaxGrammar(), b)
    requires ScidInput(a) == ScidInput(b)
    ensures a.(scid := [], signatures := []) == b.(scid := [], signatures := [])
  {
    UnsignedLaws(LaxGrammar(), a.(scid := []), []);
    UnsignedLaws(LaxGrammar(), b.(scid := []), []);
  }

  /* ---- wire form ---- */

  const MAX_KEL_EVENTS := 1024
  const MAX_EVENT_BYTES := 64 * 1024

  /** The protocol's decoder: wire limits, primitive checks and establishment validation. */
  function WireGrammar(p: Primitives): Grammar {
    Grammar(128, 256, 128, 128, 256, 4096, 32, 32, 64, 64, 128, 128,
            p.suiteOk, p.keyOk, p.sigOk, p.multihashOk, p.utf8,
            d => DidFailure(p, d), est => EstablishmentFailure(p, est))
  }

  /** An event inside a log is length-prefixed and must fill its frame exactly. */
  function PutFramed(e: Event, rest: Bytes): Bytes { PutBytes(FullBytes(e), rest) }

  function GetFramed(p: Primitives, b: Bytes): Parsed<Event> {
    var (frame, rest) :- GetBytes(MAX_EVENT_BYTES, b);
    var (e, left) :- GetEvent(WireGrammar(p), frame);
    if left != [] then Err(TrailingBytes) else Ok((e, rest))
  }

  predicate FrameFits(p: Primitives, e: Event) {
    EventFits(WireGrammar(p), e) && |FullBytes(e)| <= MAX_EVENT_BYTES
  }

  function FrameFormat(p: Primitives): Format<Event> {
    Format(PutFramed, b => GetFramed(p, b), e => FrameFits(p, e))
  }

  lemma FrameLawful(p: Primitives)
    ensures Lawful(FrameFormat(p))
  {
    var f := FrameFormat(p);
    forall e: Event, rest: Bytes | f.fits(e) ensures f.get(f.put(e, rest)) == Ok((e, rest)) {
      BytesLaws(MAX_EVENT_BYTES, FullBytes(e), rest);
      EventLaws(WireGrammar(p), e, []);
    }
    forall b: Bytes | f.get(b).Ok?
      ensures f.fits(f.get(b).value.0) && b == f.put(f.get(b).value.0, f.get(b).value.1)
    {
      BytesCanonical(MAX_EVENT_BYTES, b);
      EventCanonical(WireGrammar(p), GetBytes(MAX_EVENT_BYTES, b).value.0);
    }
  }

  function ToBytes(k: Kel): Bytes { PutBytes(k.scid, PutList(PutFramed, k.events, [])) }

  function FromBytes(p: Primitives, b: Bytes): Verdict<Kel> {
    var (scid, b1) :- GetBytes(128, b);
    var _ :- Check(p.utf8(scid), BadEvent);
    var _ :- Checked(DidFailure(p, DidOf(scid)));
    var (events, b2) :- GetList(FrameFormat(p), MAX_KEL_EVENTS, b1);
    if b2 != [] then Err(TrailingBytes) else Ok(Kel(scid, events))
  }

  predicate KelFits(p: Primitives, k: Kel) {
    && |k.scid| <= 128 && p.utf8(k.scid) && IsDid(p, DidOf(k.scid))
    && ListFits(FrameFormat(p), MAX_KEL_EVENTS, k.events)
  }

  /** `from_bytes` undoes `to_bytes` exactly on the logs within the wire limits. */
  lemma KelRoundTrip(p: Primitives, k: Kel)
    ensures KelFits(p, k) ==> FromBytes(p, ToBytes(k)) == Ok(k)
    ensures FromBytes(p, ToBytes(k)) == Ok(k) ==> KelFits(p, k)
  {
    if KelFits(p, k) {
      FrameLawful(p);
      BytesLaws(128, k.scid, PutList(PutFramed, k.events, []));
      ListLaws(FrameFormat(p), MAX_KEL_EVENTS, k.events, []);
    }
    if FromBytes(p, ToBytes(k)) == Ok(k) { KelCanonical(p, ToBytes(k)); }
  }

  /** Every accepted byte string is the one encoding of the log it decodes to. */
  lemma KelCanonical(p: Primitives, b: Bytes)
    requires FromBytes(p, b).Ok?
    ensures KelFits(p, FromBytes(p, b).value) && b == ToBytes(FromBytes(p, b).value)
  {
    FrameLawful(p);
    BytesCanonical(128, b);
    ListCanonical(FrameFormat(p), MAX_KEL_EVENTS, GetBytes(128, b).value.1);
  }

  /** Distinct logs within the limits never share a byte form. */
  lemma KelBytesInjective(p: Primitives, a: Kel, b: Kel)
    requires KelFits(p, a) && KelFits(p, b) && ToBytes(a) == ToBytes(b)
    ensures a == b
  {
    KelRoundTrip(p, a);
    KelRoundTrip(p, b);
  }
}
