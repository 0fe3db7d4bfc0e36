/** The event and log codecs as the program runs them: one writer or one reader, item by item. */
module EventCodecs {
  import opened Prelude
  import opened Codec
  import opened Events
  import opened Identity
  import opened KeyEventLog
  import opened WireForm
  import opened Buffers

  /* ---- encoding ---- */

  method EncodeKey(w: Writer, k: VerifyingKey)
    modifies w
    ensures forall rest: Bytes {:trigger w.buf + rest} :: w.buf + rest == old(w.buf) + PutKey(k, rest)
  {
    w.U8(k.suite);
    w.ByteString(k.bytes);
  }

  method EncodeSeal(w: Writer, s: Seal)
    modifies w
    ensures forall rest: Bytes {:trigger w.buf + rest} :: w.buf + rest == old(w.buf) + PutSeal(s, rest)
  {
    match s {
      case Delegate(device, capabilities) =>
        w.U8(SEAL_DELEGATE);
        w.ByteString(device);
        w.U32(capabilities);
      case Revoke(device) =>
        w.U8(SEAL_REVOKE);
        w.ByteString(device);
    }
  }

  method EncodeSig(w: Writer, s: IndexedSig)
    modifies w
    ensures forall rest: Bytes {:trigger w.buf + rest} :: w.buf + rest == old(w.buf) + PutSig(s, rest)
  {
    w.U32(s.index);
    w.U8(s.signature.suite);
    w.ByteString(s.signature.bytes);
  }

  /** The first `i` items are in the buffer: writing the others after it completes the list. */
  ghost predicate Written<T>(put: (T, Bytes) -> Bytes, xs: seq<T>, i: nat, counted: Bytes, buf: Bytes)
    requires i <= |xs|
  {
    forall rest: Bytes :: buf + PutAll(put, xs[i..], rest) == counted + PutAll(put, xs, rest)
  }

  lemma OneMoreWritten<T>(put: (T, Bytes) -> Bytes, xs: seq<T>, i: nat, counted: Bytes, before: Bytes, buf: Bytes)
    requires i < |xs| && Written(put, xs, i, counted, before)
    requires forall rest: Bytes {:trigger buf + rest} :: buf + rest == before + put(xs[i], rest)
    ensures Written(put, xs, i + 1, counted, buf)
  {
    forall rest: Bytes ensures buf + PutAll(put, xs[i + 1..], rest) == counted + PutAll(put, xs, rest) {
      PutAllStep(put, xs, i, rest);
    }
  }

  lemma AllWritten<T>(put: (T, Bytes) -> Bytes, xs: seq<T>, counted: Bytes, buf: Bytes)
    requires Written(put, xs, |xs|, counted, buf)
    ensures forall rest: Bytes {:trigger buf + rest} :: buf + rest == counted + PutAll(put, xs, rest)
  {
    forall rest: Bytes ensures buf + rest == counted + PutAll(put, xs, rest) {
      assert PutAll(put, xs[|xs|..], rest) == rest;
    }
  }

  method EncodeKeys(w: Writer, xs: seq<VerifyingKey>)
    modifies w
    ensures forall rest: Bytes {:trigger w.buf + rest} :: w.buf + rest == old(w.buf) + PutList(PutKey, xs, rest)
  {
    w.U32(|xs|);
    ghost var counted := w.buf;
    for i := 0 to |xs|
      invariant Written(PutKey, xs, i, counted, w.buf)
    {
      ghost var before := w.buf;
      EncodeKey(w, xs[i]);
      OneMoreWritten(PutKey, xs, i, counted, before, w.buf);
    }
    AllWritten(PutKey, xs, counted, w.buf);
  }

  method EncodeByteStrings(w: Writer, xs: seq<Bytes>)
    modifies w
    ensures forall rest: Bytes {:trigger w.buf + rest} :: w.buf + rest == old(w.buf) + PutList(PutBytes, xs, rest)
  {
    w.U32(|xs|);
    ghost var counted := w.buf;
    for i := 0 to |xs|
      invariant Written(PutBytes, xs, i, counted, w.buf)
    {
      ghost var before := w.buf;
      w.ByteString(xs[i]);
      OneMoreWritten(PutBytes, xs, i, counted, before, w.buf);
    }
    AllWritten(PutBytes, xs, counted, w.buf);
  }

  method EncodeAnchors(w: Writer, xs: seq<Anchor>)
    modifies w
    ensures forall rest: Bytes {:trigger w.buf + rest} :: w.buf + rest == old(w.buf) + PutList(PutAnchor, xs, rest)
  {
    w.U32(|xs|);
    ghost var counted := w.buf;
    for i := 0 to |xs|
      invariant Written(PutAnchor, xs, i, counted, w.buf)
    {
      ghost var before := w.buf;
      w.ByteString(xs[i]);
      OneMoreWritten(PutAnchor, xs, i, counted, before, w.buf);
    }
    AllWritten(PutAnchor, xs, counted, w.buf);
  }

  method EncodeSeals(w: Writer, xs: seq<Seal>)
    modifies w
    ensures forall rest: Bytes {:trigger w.buf + rest} :: w.buf + rest == old(w.buf) + PutList(PutSeal, xs, rest)
  {
    w.U32(|xs|);
    ghost var counted := w.buf;
    for i := 0 to |xs|
      invariant Written(PutSeal, xs, i, counted, w.buf)
    {
      ghost var before := w.buf;
      EncodeSeal(w, xs[i]);
      OneMoreWritten(PutSeal, xs, i, counted, before, w.buf);
    }
    AllWritten(PutSeal, xs, counted, w.buf);
  }

  method EncodeSigs(w: Writer, xs: seq<IndexedSig>)
    modifies w
    ensures forall rest: Bytes {:trigger w.buf + rest} :: w.buf + rest == old(w.buf) + PutList(PutSig, xs, rest)
  {
    w.U32(|xs|);
    ghost var counted := w.buf;
    for i := 0 to |xs|
      invariant Written(PutSig, xs, i, counted, w.buf)
    {
      ghost var before := w.buf;
      EncodeSig(w, xs[i]);
      OneMoreWritten(PutSig, xs, i, counted, before, w.buf);
    }
    AllWritten(PutSig, xs, counted, w.buf);
  }

  method EncodeEstablishment(w: Writer, est: Establishment)
    modifies w
    ensures forall rest: Bytes {:trigger w.buf + rest} :: w.buf + rest == old(w.buf) + PutEstablishment(est, rest)
  {
    EncodeKeys(w, est.keys);
    w.U32(est.threshold);
    EncodeByteStrings(w, est.next);
    w.U32(est.nextThreshold);
    EncodeByteStrings(w, est.witnesses);
    if est.witnesses != [] {
      w.U32(est.witnessThreshold);
    }
  }

  method EncodeKind(w: Writer, kind: EventKind)
    modifies w
    ensures forall rest: Bytes {:trigger w.buf + rest} :: w.buf + rest == old(w.buf) + PutKind(kind, rest)
  {
    match kind {
      case Inception(est) => EncodeEstablishment(w, est);
      case Rotation(est) => EncodeEstablishment(w, est);
      case DelegatedInception(est, delegator) =>
        EncodeEstablishment(w, est);
        w.ByteString(delegator);
      case Interaction(anchors) => EncodeAnchors(w, anchors);
      case SealEvent(seals) => EncodeSeals(w, seals);
    }
  }

  method EncodeUnsigned(w: Writer, e: Event)
    modifies w
    ensures forall rest: Bytes {:trigger w.buf + rest} :: w.buf + rest == old(w.buf) + PutUnsigned(e, rest)
  {
    w.U8(Tag(e.kind));
    w.U8(e.suite);
    w.ByteString(e.scid);
    w.U64(e.sn);
    w.ByteString(e.prior);
    EncodeKind(w, e.kind);
  }

  datatype Mode = ForScid | ForSigning | Full

  function EncodedAs(e: Event, mode: Mode): Bytes {
    match mode
    case ForScid => ScidInput(e)
    case ForSigning => SigningBytes(e)
    case Full => FullBytes(e)
  }

  /** What follows the unsigned part: the signatures, or nothing. */
  function Tail(sigs: Option<seq<IndexedSig>>): Bytes { if sigs.None? then [] else PutList(PutSig, sigs.value, []) }

  method EncodeParts(e: Event, sigs: Option<seq<IndexedSig>>) returns (bytes: Bytes)
    ensures bytes == PutUnsigned(e, Tail(sigs))
  {
    var w := new Writer();
    EncodeUnsigned(w, e);
    ghost var unsigned := w.buf;
    assert unsigned + Tail(sigs) == [] + PutUnsigned(e, Tail(sigs));
    if sigs.Some? {
      EncodeSigs(w, sigs.value);
    }
    assert w.buf + [] == w.buf;
    return w.buf;
  }

  lemma FormsOf(e: Event, mode: Mode)
    ensures var shown := if mode == ForScid then e.(scid := []) else e;
      EncodedAs(e, mode) == PutUnsigned(shown, Tail(if mode == Full then Some(e.signatures) else None))
  {
  }

  /** The three byte forms come out of one pass over the event. */
  method EncodeEvent(e: Event, mode: Mode) returns (bytes: Bytes)
    ensures bytes == EncodedAs(e, mode)
  {
    FormsOf(e, mode);
    bytes := EncodeParts(if mode == ForScid then e.(scid := []) else e,
                         if mode == Full then Some(e.signatures) else None);
  }

  method EncodeFrames(w: Writer, xs: seq<Event>)
    modifies w
    ensures forall rest: Bytes {:trigger w.buf + rest} :: w.buf + rest == old(w.buf) + PutList(PutFramed, xs, rest)
  {
    w.U32(|xs|);
    ghost var counted := w.buf;
    for i := 0 to |xs|
      invariant Written(PutFramed, xs, i, counted, w.buf)
    {
      ghost var before := w.buf;
      var bytes := EncodeEvent(xs[i], Full);
      w.ByteString(bytes);
      OneMoreWritten(PutFramed, xs, i, counted, before, w.buf);
    }
    AllWritten(PutFramed, xs, counted, w.buf);
  }

  method EncodeKel(k: Kel) returns (bytes: Bytes)
    ensures bytes == ToBytes(k)
  {
    var w := new Writer();
    w.ByteString(k.scid);
    EncodeFrames(w, k.events);
    assert w.buf + [] == w.buf;
    return w.buf;
  }

  /* ---- decoding ---- */

  method DecodeKey(r: Reader, g: Grammar, ghost f: Format<VerifyingKey>) returns (res: Verdict<VerifyingKey>)
    requires r.Valid() && forall b: Bytes {:trigger GetKey(g, b)} :: f.get(b) == GetKey(g, b)
    modifies r
    ensures r.Valid() && Agrees(r.Rest(), res, f.get(old(r.Rest())))
  {
    ghost var parsed := GetKey(g, r.Rest());
    assert f.get(r.Rest()) == parsed;
    var suite :- r.U8();
    if !g.suiteOk(suite) { return Err(Crypto); }
    var raw :- r.BytesLimited(g.maxKey);
    if !g.keyOk(VerifyingKey(suite, raw)) { return Err(Crypto); }
    return Ok(VerifyingKey(suite, raw));
  }

  method DecodeCommitment(r: Reader, g: Grammar) returns (res: Verdict<Bytes>)
    requires r.Valid()
    modifies r
    ensures r.Valid() && Agrees(r.Rest(), res, GetCommitment(g, old(r.Rest())))
  {
    var raw :- r.BytesLimited(g.maxMultihash);
    if !g.multihashOk(raw) { return Err(Crypto); }
    return Ok(raw);
  }

  method DecodeAnchor(r: Reader) returns (res: Verdict<Anchor>)
    requires r.Valid()
    modifies r
    ensures r.Valid() && Agrees(r.Rest(), res, GetAnchor(old(r.Rest())))
  {
    var raw :- r.BytesLimited(32);
    if |raw| != 32 { return Err(BadEvent); }
    return Ok(raw);
  }

  method DecodeDidText(r: Reader, g: Grammar) returns (res: Verdict<Bytes>)
    requires r.Valid()
    modifies r
    ensures r.Valid() && Agrees(r.Rest(), res, GetDidText(g, old(r.Rest())))
  {
    var raw :- r.BytesLimited(g.maxDid);
    if !g.textOk(raw) { return Err(BadEvent); }
    var failure := g.didOk(raw);
    if failure.Some? { return Err(failure.value); }
    return Ok(raw);
  }

  method DecodeSeal(r: Reader, g: Grammar, ghost f: Format<Seal>) returns (res: Verdict<Seal>)
    requires r.Valid() && forall b: Bytes {:trigger GetSeal(g, b)} :: f.get(b) == GetSeal(g, b)
    modifies r
    ensures r.Valid() && Agrees(r.Rest(), res, f.get(old(r.Rest())))
  {
    ghost var parsed := GetSeal(g, r.Rest());
    assert f.get(r.Rest()) == parsed;
    var tag :- r.U8();
    if tag == SEAL_DELEGATE {
      var device :- DecodeDidText(r, g);
      var bits :- r.U32();
      if bits >= 256 { return Err(BadEvent); }
      return Ok(Delegate(device, bits));
    } else if tag == SEAL_REVOKE {
      var device :- DecodeDidText(r, g);
      return Ok(Revoke(device));
    } else {
      return Err(BadEvent);
    }
  }

  method DecodeSig(r: Reader, g: Grammar, ghost f: Format<IndexedSig>) returns (res: Verdict<IndexedSig>)
    requires r.Valid() && forall b: Bytes {:trigger GetSig(g, b)} :: f.get(b) == GetSig(g, b)
    modifies r
    ensures r.Valid() && Agrees(r.Rest(), res, f.get(old(r.Rest())))
  {
    ghost var parsed := GetSig(g, r.Rest());
    assert f.get(r.Rest()) == parsed;
    var index :- r.U32();
    var suite :- r.U8();
    if !g.suiteOk(suite) { return Err(Crypto); }
    var raw :- r.BytesLimited(g.maxSig);
    if !g.sigOk(Signature(suite, raw)) { return Err(Crypto); }
    return Ok(IndexedSig(index, Signature(suite, raw)));
  }

  /* List readers take the list's format as a ghost argument; its item parser is the one the loop runs. */

  method DecodeKeys(r: Reader, g: Grammar, max: nat, ghost f: Format<VerifyingKey>)
    returns (res: Verdict<seq<VerifyingKey>>)
    requires r.Valid() && forall b: Bytes {:trigger GetKey(g, b)} :: f.get(b) == GetKey(g, b)
    modifies r
    ensures r.Valid() && Agrees(r.Rest(), res, GetList(f, max, old(r.Rest())))
  {
    var n :- r.Count(max);
    ghost var whole := GetAll(f, n, r.Rest());
    ResumeStart(f, n, r.Rest());
    var xs: seq<VerifyingKey> := [];
    for i := 0 to n
      invariant r.Valid() && Resume(f, xs, n - i, r.Rest()) == whole
    {
      ResumeStep(f, xs, n - i, r.Rest());
      var x :- DecodeKey(r, g, f);
      xs := xs + [x];
    }
    assert Resume(f, xs, 0, r.Rest()) == Ok((xs + [], r.Rest())) && xs + [] == xs;
    return Ok(xs);
  }

  method DecodeCommitments(r: Reader, g: Grammar, max: nat, ghost f: Format<Bytes>) returns (res: Verdict<seq<Bytes>>)
    requires r.Valid() && forall b: Bytes {:trigger GetCommitment(g, b)} :: f.get(b) == GetCommitment(g, b)
    modifies r
    ensures r.Valid() && Agrees(r.Rest(), res, GetList(f, max, old(r.Rest())))
  {
    var n :- r.Count(max);
    ghost var whole := GetAll(f, n, r.Rest());
    ResumeStart(f, n, r.Rest());
    var xs: seq<Bytes> := [];
    for i := 0 to n
      invariant r.Valid() && Resume(f, xs, n - i, r.Rest()) == whole
    {
      ResumeStep(f, xs, n - i, r.Rest());
      var x :- DecodeCommitment(r, g);
      xs := xs + [x];
    }
    assert Resume(f, xs, 0, r.Rest()) == Ok((xs + [], r.Rest())) && xs + [] == xs;
    return Ok(xs);
  }

  method DecodeWitnesses(r: Reader, g: Grammar, max: nat, ghost f: Format<Bytes>) returns (res: Verdict<seq<Bytes>>)
    requires r.Valid() && forall b: Bytes {:trigger GetBytes(g.maxDid, b)} :: f.get(b) == GetBytes(g.maxDid, b)
    modifies r
    ensures r.Valid() && Agrees(r.Rest(), res, GetList(f, max, old(r.Rest())))
  {
    var n :- r.Count(max);
    ghost var whole := GetAll(f, n, r.Rest());
    ResumeStart(f, n, r.Rest());
    var xs: seq<Bytes> := [];
    for i := 0 to n
      invariant r.Valid() && Resume(f, xs, n - i, r.Rest()) == whole
    {
      ResumeStep(f, xs, n - i, r.Rest());
      var x :- r.BytesLimited(g.maxDid);
      xs := xs + [x];
    }
    assert Resume(f, xs, 0, r.Rest()) == Ok((xs + [], r.Rest())) && xs + [] == xs;
    return Ok(xs);
  }

  method DecodeAnchors(r: Reader, max: nat, ghost f: Format<Anchor>) returns (res: Verdict<seq<Anchor>>)
    requires r.Valid() && forall b: Bytes {:trigger GetAnchor(b)} :: f.get(b) == GetAnchor(b)
    modifies r
    ensures r.Valid() && Agrees(r.Rest(), res, GetList(f, max, old(r.Rest())))
  {
    var n :- r.Count(max);
    ghost var whole := GetAll(f, n, r.Rest());
    ResumeStart(f, n, r.Rest());
    var xs: seq<Anchor> := [];
    for i := 0 to n
      invariant r.Valid() && Resume(f, xs, n - i, r.Rest()) == whole
    {
      ResumeStep(f, xs, n - i, r.Rest());
      var x :- DecodeAnchor(r);
      xs := xs + [x];
    }
    assert Resume(f, xs, 0, r.Rest()) == Ok((xs + [], r.Rest())) && xs + [] == xs;
    return Ok(xs);
  }

  method DecodeSeals(r: Reader, g: Grammar, max: nat, ghost f: Format<Seal>) returns (res: Verdict<seq<Seal>>)
    requires r.Valid() && forall b: Bytes {:trigger GetSeal(g, b)} :: f.get(b) == GetSeal(g, b)
    modifies r
    ensures r.Valid() && Agrees(r.Rest(), res, GetList(f, max, old(r.Rest())))
  {
    var n :- r.Count(max);
    ghost var whole := GetAll(f, n, r.Rest());
    ResumeStart(f, n, r.Rest());
    var xs: seq<Seal> := [];
    for i := 0 to n
      invariant r.Valid() && Resume(f, xs, n - i, r.Rest()) == whole
    {
      ResumeStep(f, xs, n - i, r.Rest());
      var x :- DecodeSeal(r, g, f);
      xs := xs + [x];
    }
    assert Resume(f, xs, 0, r.Rest()) == Ok((xs + [], r.Rest())) && xs + [] == xs;
    return Ok(xs);
  }

  method DecodeSigs(r: Reader, g: Grammar, max: nat, ghost f: Format<IndexedSig>)
    returns (res: Verdict<seq<IndexedSig>>)
    requires r.Valid() && forall b: Bytes {:trigger GetSig(g, b)} :: f.get(b) == GetSig(g, b)
    modifies r
    ensures r.Valid() && Agrees(r.Rest(), res, GetList(f, max, old(r.Rest())))
  {
    var n :- r.Count(max);
    ghost var whole := GetAll(f, n, r.Rest());
    ResumeStart(f, n, r.Rest());
    var xs: seq<IndexedSig> := [];
    for i := 0 to n
      invariant r.Valid() && Resume(f, xs, n - i, r.Rest()) == whole
    {
      ResumeStep(f, xs, n - i, r.Rest());
      var x :- DecodeSig(r, g, f);
      xs := xs + [x];
    }
    assert Resume(f, xs, 0, r.Rest()) == Ok((xs + [], r.Rest())) && xs + [] == xs;
    return Ok(xs);
  }

  /** The establishment check runs after every field has been read. */
  method DecodeEstablishment(r: Reader, g: Grammar) returns (res: Verdict<Establishment>)
    requires r.Valid()
    modifies r
    ensures r.Valid() && Agrees(r.Rest(), res, GetEstablishment(g, old(r.Rest())))
  {
    var keys :- DecodeKeys(r, g, g.maxKeys, KeyFormat(g));
    var threshold :- r.U32();
    var next :- DecodeCommitments(r, g, g.maxNext, CommitmentFormat(g));
    var nextThreshold :- r.U32();
    var witnesses :- DecodeWitnesses(r, g, g.maxWitnesses, WitnessFormat(g));
    var witnessThreshold := 0;
    if witnesses != [] {
      witnessThreshold :- r.U32();
    }
    var est := Establishment(keys, threshold, next, nextThreshold, witnesses, witnessThreshold);
    var failure := g.estOk(est);
    if failure.Some? { return Err(failure.value); }
    return Ok(est);
  }

  method DecodeKind(r: Reader, g: Grammar, tag: byte) returns (res: Verdict<EventKind>)
    requires r.Valid()
    modifies r
    ensures r.Valid() && Agrees(r.Rest(), res, GetKind(g, tag, old(r.Rest())))
  {
    if tag == TAG_ICP {
      var est :- DecodeEstablishment(r, g);
      return Ok(Inception(est));
    } else if tag == TAG_DIP {
      var est :- DecodeEstablishment(r, g);
      var delegator :- DecodeDidText(r, g);
      return Ok(DelegatedInception(est, delegator));
    } else if tag == TAG_ROT {
      var est :- DecodeEstablishment(r, g);
      return Ok(Rotation(est));
    } else if tag == TAG_IXN {
      var anchors :- DecodeAnchors(r, g.maxAnchors, AnchorFormat());
      return Ok(Interaction(anchors));
    } else if tag == TAG_SEAL {
      var seals :- DecodeSeals(r, g, g.maxSeals, SealFormat(g));
      return Ok(SealEvent(seals));
    } else {
      return Err(UnknownEventTag);
    }
  }

  method DecodeEvent(r: Reader, g: Grammar) returns (res: Verdict<Event>)
    requires r.Valid()
    modifies r
    ensures r.Valid() && Agrees(r.Rest(), res, GetEvent(g, old(r.Rest())))
  {
    var tag :- r.U8();
    var suite :- r.U8();
    if !g.suiteOk(suite) { return Err(Crypto); }
    var scid :- r.BytesLimited(g.maxScid);
    if !g.textOk(scid) { return Err(BadEvent); }
    var sn :- r.U64();
    var prior :- r.BytesLimited(g.maxPrior);
    var kind :- DecodeKind(r, g, tag);
    var signatures :- DecodeSigs(r, g, g.maxSigs, SigFormat(g));
    return Ok(Event(suite, scid, sn, prior, kind, signatures));
  }

  method DecodeFrame(r: Reader, p: Primitives, ghost f: Format<Event>) returns (res: Verdict<Event>)
    requires r.Valid() && forall b: Bytes {:trigger GetFramed(p, b)} :: f.get(b) == GetFramed(p, b)
    modifies r
    ensures r.Valid() && Agrees(r.Rest(), res, f.get(old(r.Rest())))
  {
    ghost var parsed := GetFramed(p, r.Rest());
    assert f.get(r.Rest()) == parsed;
    var frame :- r.BytesLimited(MAX_EVENT_BYTES);
    var inner := new Reader(frame);
    var e :- DecodeEvent(inner, WireGrammar(p));
    if !inner.Finished() { return Err(TrailingBytes); }
    return Ok(e);
  }

  method DecodeFrames(r: Reader, p: Primitives, max: nat, ghost f: Format<Event>) returns (res: Verdict<seq<Event>>)
    requires r.Valid() && forall b: Bytes {:trigger GetFramed(p, b)} :: f.get(b) == GetFramed(p, b)
    modifies r
    ensures r.Valid() && Agrees(r.Rest(), res, GetList(f, max, old(r.Rest())))
  {
    var n :- r.Count(max);
    ghost var whole := GetAll(f, n, r.Rest());
    ResumeStart(f, n, r.Rest());
    var xs: seq<Event> := [];
    for i := 0 to n
      invariant r.Valid() && Resume(f, xs, n - i, r.Rest()) == whole
    {
      ResumeStep(f, xs, n - i, r.Rest());
      var x :- DecodeFrame(r, p, f);
      xs := xs + [x];
    }
    assert Resume(f, xs, 0, r.Rest()) == Ok((xs + [], r.Rest())) && xs + [] == xs;
    return Ok(xs);
  }

  /** Parsing a log: what it accepts is fixed by `KelRoundTrip` and `KelCanonical`. */
  method DecodeKel(p: Primitives, bytes: Bytes) returns (res: Verdict<Kel>)
    ensures res == FromBytes(p, bytes)
  {
    var r := new Reader(bytes);
    var scid :- r.BytesLimited(128);
    if !p.utf8(scid) { return Err(BadEvent); }
    var failure := DidFailure(p, DidOf(scid));
    if failure.Some? { return Err(failure.value); }
    var events :- DecodeFrames(r, p, MAX_KEL_EVENTS, FrameFormat(p));
    if !r.Finished() { return Err(TrailingBytes); }
    return Ok(Kel(scid, events));
  }
}
