/** What two verified logs of one identity can look like: prefixes, or one provable fork. */
module Fork {
  import opened Prelude
  import opened Codec
  import opened Events
  import opened Identity
  import opened KeyEventLog
  import opened WireForm

  /* ---- the controller duplicity proof ---- */

  datatype DuplicityProof = DuplicityProof(identity: Bytes, sequence: nat, eventA: Event, eventB: Event)

  function AssembleDuplicity(p: Primitives, identity: Bytes, a: Event, b: Event): Verdict<DuplicityProof>
    requires METHOD <= identity
  {
    if a.scid != ScidPart(identity) || b.scid != ScidPart(identity) || a.sn != b.sn
       || p.digest(a) == p.digest(b)
    then Err(ControllerDuplicityMismatch)
    else Ok(DuplicityProof(identity, a.sn, a, b))
  }

  /* ---- what hashing must not do ---- */

  function LogKeys(k: Kel): set<VerifyingKey> {
    set e, v | e in k.events && (e.kind.Inception? || e.kind.DelegatedInception? || e.kind.Rotation?)
               && v in e.kind.est.keys :: v
  }

  predicate SameUpToSignatures(a: Event, b: Event) {
    a.(signatures := []) == b.(signatures := [])
  }

  /** No hash collision among the events, revealed keys and inceptions of these two logs. */
  ghost predicate NoCollision(p: Primitives, a: Kel, b: Kel) {
    && InjectiveOn(p.digest, Elements(a.events) + Elements(b.events))
    && InjectiveOn(p.commitment, LogKeys(a) + LogKeys(b))
    && (a.events != [] && b.events != [] && p.scidOf(a.events[0]) == p.scidOf(b.events[0])
        ==> a.events[0].(scid := [], signatures := []) == b.events[0].(scid := [], signatures := []))
  }

  /* ---- one digest pins a whole history ---- */

  lemma {:induction false} DigestPinsHistory(p: Primitives, a: Kel, b: Kel, i: nat, j: nat)
    requires Verified(p, a) && Verified(p, b) && NoCollision(p, a, b)
    requires i < |a.events| && j < |b.events| && p.digest(a.events[i]) == p.digest(b.events[j])
    ensures i == j && a.scid == b.scid && a.events[..i + 1] == b.events[..i + 1]
  {
    assert a.events[i] in Elements(a.events) && b.events[j] in Elements(b.events);
    VerifiedShape(p, a, i);
    VerifiedShape(p, b, j);
    if i > 0 {
      DigestPinsHistory(p, a, b, i - 1, i - 1);
    }
    TakeOneMore(a.events, i);
    TakeOneMore(b.events, i);
  }

  /* ---- the fork theorem ---- */

  /**
   The logs agree before `k` and part there: the same keys and next commitments govern both
   events, rival rotations reveal the same keys, rival inceptions differ only in signatures,
   the branches never meet again, and the two events assemble into a duplicity proof.
   */
  ghost predicate ForkAt(p: Primitives, a: Kel, b: Kel, k: nat) {
    && k < |a.events| && k < |b.events|
    && a.events[..k] == b.events[..k] && a.events[k] != b.events[k]
    && (k > 0 ==> Replay(p, a.scid, a.events, k - 1) == Replay(p, b.scid, b.events, k - 1))
    && (k == 0 ==> SameUpToSignatures(a.events[0], b.events[0]))
    && (a.events[k].kind.Rotation? && b.events[k].kind.Rotation? ==>
          && a.events[k].kind.est.keys == b.events[k].kind.est.keys
          && a.events[k].kind.est.threshold == b.events[k].kind.est.threshold)
    && (forall i, j :: k <= i < |a.events| && k <= j < |b.events| ==>
          p.digest(a.events[i]) != p.digest(b.events[j]))
    && AssembleDuplicity(p, DidOf(a.scid), a.events[k], b.events[k]).Ok?
  }

  /** The first index at which two sequences differ, when neither is a prefix of the other. */
  lemma FirstDifference<T>(s: seq<T>, t: seq<T>) returns (k: nat)
    requires !(s <= t) && !(t <= s)
    ensures k < |s| && k < |t| && s[..k] == t[..k] && s[k] != t[k]
  {
    k := 0;
    while k < |s| && k < |t| && s[k] == t[k]
      invariant k <= |s| && k <= |t| && s[..k] == t[..k]
    {
      k := k + 1;
    }
  }

  lemma SameControlBefore(p: Primitives, a: Kel, b: Kel, k: nat)
    requires 0 < k <= |a.events| && k <= |b.events| && a.events[..k] == b.events[..k] && a.scid == b.scid
    ensures Replay(p, a.scid, a.events, k - 1) == Replay(p, b.scid, b.events, k - 1)
  {
    ReplayLocal(p, a.scid, a.events, b.events, k - 1);
  }

  lemma RotationsRevealSameKeys(p: Primitives, a: Kel, b: Kel, k: nat)
    requires Verified(p, a) && Verified(p, b) && NoCollision(p, a, b) && a.scid == b.scid
    requires 0 < k < |a.events| && k < |b.events| && a.events[..k] == b.events[..k]
    requires a.events[k].kind.Rotation? && b.events[k].kind.Rotation?
    ensures a.events[k].kind.est.keys == b.events[k].kind.est.keys
    ensures a.events[k].kind.est.threshold == b.events[k].kind.est.threshold
  {
    SameControlBefore(p, a, b, k);
    RotationRevealed(p, a, k);
    RotationRevealed(p, b, k);
    var c := Replay(p, a.scid, a.events, k - 1).value;
    KeysOfLog(a, k);
    KeysOfLog(b, k);
    RevealedKeysAgree(p, a.events[k].kind.est.keys, b.events[k].kind.est.keys,
                      c.next, LogKeys(a) + LogKeys(b));
  }

  lemma KeysOfLog(a: Kel, k: nat)
    requires k < |a.events| && a.events[k].kind.Rotation?
    ensures Elements(a.events[k].kind.est.keys) <= LogKeys(a)
  {
  }

  lemma RevealedKeysAgree(p: Primitives, ka: seq<VerifyingKey>, kb: seq<VerifyingKey>, next: seq<Bytes>,
                          known: set<VerifyingKey>)
    requires Reveals(p, ka, next) && Reveals(p, kb, next) && InjectiveOn(p.commitment, known)
    requires Elements(ka) <= known && Elements(kb) <= known
    ensures ka == kb
  {
  }

  lemma BranchesNeverMeet(p: Primitives, a: Kel, b: Kel, k: nat)
    requires Verified(p, a) && Verified(p, b) && NoCollision(p, a, b)
    requires k < |a.events| && k < |b.events| && a.events[k] != b.events[k]
    ensures forall i, j :: k <= i < |a.events| && k <= j < |b.events| ==>
      p.digest(a.events[i]) != p.digest(b.events[j])
  {
    forall i, j | k <= i < |a.events| && k <= j < |b.events|
      ensures p.digest(a.events[i]) != p.digest(b.events[j])
    {
      if p.digest(a.events[i]) == p.digest(b.events[j]) {
        DigestPinsHistory(p, a, b, i, j);
      }
    }
  }

  lemma ForkAssembles(p: Primitives, a: Kel, b: Kel, k: nat)
    requires Verified(p, a) && Verified(p, b) && a.scid == b.scid && k < |a.events| && k < |b.events|
    requires p.digest(a.events[k]) != p.digest(b.events[k])
    ensures AssembleDuplicity(p, DidOf(a.scid), a.events[k], b.events[k]).Ok?
  {
    VerifiedShape(p, a, k);
    VerifiedShape(p, b, k);
    DidOfInverse(a.scid);
  }

  lemma ForkedInceptions(p: Primitives, a: Kel, b: Kel)
    requires Verified(p, a) && Verified(p, b) && NoCollision(p, a, b) && a.scid == b.scid
    ensures a.events != [] && b.events != [] && SameUpToSignatures(a.events[0], b.events[0])
    ensures !a.events[0].kind.Rotation?
  {
    VerifiedShape(p, a, 0);
    VerifiedShape(p, b, 0);
  }

  lemma ForkedAt(p: Primitives, a: Kel, b: Kel, k: nat)
    requires Verified(p, a) && Verified(p, b) && NoCollision(p, a, b) && a.scid == b.scid
    requires k < |a.events| && k < |b.events| && a.events[..k] == b.events[..k] && a.events[k] != b.events[k]
    ensures ForkAt(p, a, b, k)
  {
    BranchesNeverMeet(p, a, b, k);
    assert AssembleDuplicity(p, DidOf(a.scid), a.events[k], b.events[k]).Ok? by { ForkAssembles(p, a, b, k); }
    if k == 0 {
      ForkedInceptions(p, a, b);
    } else {
      assert Replay(p, a.scid, a.events, k - 1) == Replay(p, b.scid, b.events, k - 1) by {
        SameControlBefore(p, a, b, k);
      }
      if a.events[k].kind.Rotation? && b.events[k].kind.Rotation? {
        RotationsRevealSameKeys(p, a, b, k);
      }
    }
  }

  /** Two verified logs with one identifier are prefix-comparable or fork exactly once. */
  lemma ForkTheorem(p: Primitives, a: Kel, b: Kel)
    requires Verified(p, a) && Verified(p, b) && NoCollision(p, a, b) && a.scid == b.scid
    ensures a.events <= b.events || b.events <= a.events || exists k: nat :: ForkAt(p, a, b, k)
  {
    if !(a.events <= b.events) && !(b.events <= a.events) {
      var k := FirstDifference(a.events, b.events);
      ForkedAt(p, a, b, k);
    }
  }

  /* ---- discharging NoCollision from the byte encodings ---- */

  predicate LogRepresentable(k: Kel) {
    forall e :: e in k.events ==> EventFits(LaxGrammar(), e)
  }

  function HashedMessages(k: Kel): set<Bytes> {
    (set e | e in k.events :: FullBytes(e))
    + (set v | v in LogKeys(k) :: Fingerprint(v))
    + (if k.events == [] then {} else {ScidInput(k.events[0])})
  }

  function HashValues(hash: Bytes -> Bytes, a: Kel, b: Kel): set<Bytes> {
    set m | m in HashedMessages(a) + HashedMessages(b) :: hash(m)
  }

  /** Byte forms are injective, so a collision-free hash leaves no collision between two logs. */
  lemma HashedHasNoCollision(q: Primitives, hash: Bytes -> Bytes, text: Bytes -> Bytes, a: Kel, b: Kel)
    requires LogRepresentable(a) && LogRepresentable(b)
    requires InjectiveOn(hash, HashedMessages(a) + HashedMessages(b))
    requires InjectiveOn(text, HashValues(hash, a, b))
    ensures NoCollision(Hashed(q, hash, text), a, b)
  {
    DigestsInjective(q, hash, text, a, b);
    CommitmentsInjective(q, hash, text, a, b);
    var p := Hashed(q, hash, text);
    if a.events != [] && b.events != [] && p.scidOf(a.events[0]) == p.scidOf(b.events[0]) {
      ScidsInjective(q, hash, text, a, b);
    }
  }

  lemma EventHashed(a: Kel, b: Kel, x: Event)
    requires x in a.events || x in b.events
    ensures FullBytes(x) in HashedMessages(a) + HashedMessages(b)
  {
  }

  lemma EventPinned(hash: Bytes -> Bytes, x: Event, y: Event, ms: set<Bytes>)
    requires EventFits(LaxGrammar(), x) && EventFits(LaxGrammar(), y)
    requires FullBytes(x) in ms && FullBytes(y) in ms && InjectiveOn(hash, ms)
    requires hash(FullBytes(x)) == hash(FullBytes(y))
    ensures x == y
  {
    FullBytesInjective(x, y);
  }

  lemma DigestsInjective(q: Primitives, hash: Bytes -> Bytes, text: Bytes -> Bytes, a: Kel, b: Kel)
    requires LogRepresentable(a) && LogRepresentable(b)
    requires InjectiveOn(hash, HashedMessages(a) + HashedMessages(b))
    ensures InjectiveOn(Hashed(q, hash, text).digest, Elements(a.events) + Elements(b.events))
  {
    var s := Elements(a.events) + Elements(b.events);
    forall x, y | x in s && y in s && hash(FullBytes(x)) == hash(FullBytes(y)) ensures x == y {
      EventHashed(a, b, x);
      EventHashed(a, b, y);
      EventPinned(hash, x, y, HashedMessages(a) + HashedMessages(b));
    }
  }

  lemma CommitmentsInjective(q: Primitives, hash: Bytes -> Bytes, text: Bytes -> Bytes, a: Kel, b: Kel)
    requires InjectiveOn(hash, HashedMessages(a) + HashedMessages(b))
    ensures InjectiveOn(Hashed(q, hash, text).commitment, LogKeys(a) + LogKeys(b))
  {
    var s := LogKeys(a) + LogKeys(b);
    forall x, y | x in s && y in s && hash(Fingerprint(x)) == hash(Fingerprint(y)) ensures x == y {
      FingerprintInjective(x, y);
    }
  }

  lemma ScidsInjective(q: Primitives, hash: Bytes -> Bytes, text: Bytes -> Bytes, a: Kel, b: Kel)
    requires LogRepresentable(a) && LogRepresentable(b) && a.events != [] && b.events != []
    requires InjectiveOn(hash, HashedMessages(a) + HashedMessages(b))
    requires InjectiveOn(text, HashValues(hash, a, b))
    requires Hashed(q, hash, text).scidOf(a.events[0]) == Hashed(q, hash, text).scidOf(b.events[0])
    ensures a.events[0].(scid := [], signatures := []) == b.events[0].(scid := [], signatures := [])
  {
    assert a.events[0] in a.events && b.events[0] in b.events;
    assert ScidInput(a.events[0]) in HashedMessages(a) && ScidInput(b.events[0]) in HashedMessages(b);
    InceptionPinned(hash, text, a.events[0], b.events[0], HashedMessages(a) + HashedMessages(b));
  }

  lemma InceptionPinned(hash: Bytes -> Bytes, text: Bytes -> Bytes, x: Event, y: Event, ms: set<Bytes>)
    requires UnsignedFits(LaxGrammar(), x) && UnsignedFits(LaxGrammar(), y)
    requires ScidInput(x) in ms && ScidInput(y) in ms && InjectiveOn(hash, ms)
    requires InjectiveOn(text, set m | m in ms :: hash(m))
    requires text(hash(ScidInput(x))) == text(hash(ScidInput(y)))
    ensures x.(scid := [], signatures := []) == y.(scid := [], signatures := [])
  {
    var images := set m | m in ms :: hash(m);
    assert hash(ScidInput(x)) in images && hash(ScidInput(y)) in images;
    ScidInputInjective(x, y);
  }
}
