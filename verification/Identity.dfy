/** Identifiers, cryptographic primitives, establishment validation and signature thresholds. */
module Identity {
  import opened Prelude
  import opened Codec
  import opened Events

  /**
   What the identity layer asks of hashing, signing and text checks.  Every result about logs
   holds for every choice of these functions, except where a law is named as a precondition;
   module WireForm builds them from the byte encodings and a hash function.
   */
  datatype Primitives = Primitives(
    digest: Event -> Bytes,
    signingBytes: Event -> Bytes,
    scidOf: Event -> Bytes,
    commitment: VerifyingKey -> Bytes,
    scidOk: Bytes -> bool,
    multihashOk: Bytes -> bool,
    utf8: Bytes -> bool,
    suiteOk: byte -> bool,
    keyOk: VerifyingKey -> bool,
    sigOk: Signature -> bool,
    checkSig: (VerifyingKey, Bytes, Signature) -> bool,
    publicKey: SigningKey -> VerifyingKey,
    sign: (SigningKey, Bytes) -> Signature)

  /**
   A signature verifies under the signer's own public key; what is signed does not depend on
   the signatures, nor the identifier on itself; commitments and identifiers are well formed.
   */
  ghost predicate Sound(p: Primitives) {
    && (forall sk: SigningKey, m: Bytes :: p.checkSig(p.publicKey(sk), m, p.sign(sk, m)))
    && (forall e: Event, s: seq<IndexedSig> :: p.signingBytes(e.(signatures := s)) == p.signingBytes(e))
    && (forall e: Event, d: Bytes, s: seq<IndexedSig> ::
          p.scidOf(e.(scid := d, signatures := s)) == p.scidOf(e))
    && (forall k: VerifyingKey :: p.multihashOk(p.commitment(k)))
    && (forall e: Event :: p.scidOf(e) != [] && p.scidOk(p.scidOf(e)))
  }

  /** `did:mini:` */
  const METHOD: Bytes := [100, 105, 100, 58, 109, 105, 110, 105, 58]

  function DidOf(scid: Bytes): Bytes { METHOD + scid }

  /** `Did::parse`: `None` when `s` is a `did:mini`, otherwise why not. */
  function DidFailure(p: Primitives, s: Bytes): Option<IdentityError> {
    if METHOD <= s && s != METHOD then
      if p.scidOk(s[|METHOD|..]) then None else Some(Crypto)
    else Some(DidFormat)
  }

  predicate IsDid(p: Primitives, s: Bytes) { DidFailure(p, s).None? }

  function ScidPart(did: Bytes): Bytes
    requires METHOD <= did
  {
    did[|METHOD|..]
  }

  lemma DidOfInverse(scid: Bytes)
    ensures METHOD <= DidOf(scid) && ScidPart(DidOf(scid)) == scid
  {
  }

  /** A DID is the method prefix and a non-empty, canonical identifier. */
  lemma IsDidIff(p: Primitives, s: Bytes)
    ensures IsDid(p, s) <==> exists scid: Bytes :: scid != [] && s == DidOf(scid) && p.scidOk(scid)
  {
    if METHOD <= s { assert s == DidOf(s[|METHOD|..]); }
    if scid: Bytes :| scid != [] && s == DidOf(scid) && p.scidOk(scid) { DidOfInverse(scid); }
  }

  lemma DidOfInjective(a: Bytes, b: Bytes)
    requires DidOf(a) == DidOf(b)
    ensures a == b
  {
    DidOfInverse(a);
    DidOfInverse(b);
  }

  /* ---- establishment validation ---- */

  /** The first malformed or repeated commitment among the first `n`. */
  function NextFailure(p: Primitives, next: seq<Bytes>, n: nat): Option<IdentityError>
    requires n <= |next|
  {
    if n == 0 then None
    else if NextFailure(p, next, n - 1).Some? then NextFailure(p, next, n - 1)
    else if !p.multihashOk(next[n - 1]) then Some(Crypto)
    else if next[n - 1] in next[..n - 1] then Some(BadEvent)
    else None
  }

  function EstablishmentFailure(p: Primitives, est: Establishment): Option<IdentityError> {
    if est.keys == [] then Some(EmptyKeySet)
    else if est.witnesses == [] && est.witnessThreshold != 0 then Some(InvalidWitnessThreshold)
    else if est.witnesses != [] && !(1 <= est.witnessThreshold <= |est.witnesses|) then
      Some(InvalidWitnessThreshold)
    else if !NoDup(est.witnesses) then Some(DuplicateWitness)
    else if !(1 <= est.threshold <= |est.keys|) then Some(InvalidThreshold)
    else if !NoDup(est.keys) then Some(DuplicateKey)
    else if !(1 <= est.nextThreshold <= |est.next|) then Some(InvalidNextThreshold)
    else NextFailure(p, est.next, |est.next|)
  }

  predicate ValidEstablishment(p: Primitives, est: Establishment) {
    EstablishmentFailure(p, est).None?
  }

  lemma {:induction false} NextFailureMeaning(p: Primitives, next: seq<Bytes>, n: nat)
    requires n <= |next|
    ensures NextFailure(p, next, n).None? <==>
      NoDup(next[..n]) && forall i :: 0 <= i < n ==> p.multihashOk(next[i])
  {
    if n > 0 {
      NextFailureMeaning(p, next, n - 1);
      var shorter := next[..n - 1];
      assert next[..n] == shorter + [next[n - 1]];
      if next[n - 1] in shorter {
        var i :| 0 <= i < n - 1 && shorter[i] == next[n - 1];
        assert next[..n][i] == next[..n][n - 1];
      }
      if !NoDup(shorter) {
        var i, j :| 0 <= i < j < n - 1 && shorter[i] == shorter[j];
        assert next[..n][i] == next[..n][j];
      }
    }
  }

  /** The seven conditions an accepted establishment meets, as one statement. */
  lemma ValidEstablishmentMeaning(p: Primitives, est: Establishment)
    ensures ValidEstablishment(p, est) <==>
      && NoDup(est.keys) && 1 <= est.threshold <= |est.keys|
      && NoDup(est.next) && 1 <= est.nextThreshold <= |est.next|
      && (forall i :: 0 <= i < |est.next| ==> p.multihashOk(est.next[i]))
      && NoDup(est.witnesses)
      && (if est.witnesses == [] then est.witnessThreshold == 0
          else 1 <= est.witnessThreshold <= |est.witnesses|)
  {
    NextFailureMeaning(p, est.next, |est.next|);
    assert est.next[..|est.next|] == est.next;
  }

  /** Whether some element of `s` repeats an earlier one; the scan keeps a list of those seen. */
  method HasRepeat<T(==)>(s: seq<T>) returns (repeated: bool)
    ensures repeated <==> !NoDup(s)
  {
    var seen: seq<T> := [];
    for i := 0 to |s|
      invariant seen == s[..i] && NoDup(s[..i])
    {
      if s[i] in seen {
        var j :| 0 <= j < i && s[..i][j] == s[i];
        assert s[j] == s[i];
        return true;
      }
      seen := seen + [s[i]];
    }
    assert s[..|s|] == s;
    return false;
  }

  method ValidateEstablishment(p: Primitives, est: Establishment)
    returns (failure: Option<IdentityError>)
    ensures failure == EstablishmentFailure(p, est)
  {
    if est.keys == [] { return Some(EmptyKeySet); }
    if est.witnesses == [] {
      if est.witnessThreshold != 0 { return Some(InvalidWitnessThreshold); }
    } else {
      if est.witnessThreshold == 0 || est.witnessThreshold > |est.witnesses| {
        return Some(InvalidWitnessThreshold);
      }
      var repeated := HasRepeat(est.witnesses);
      if repeated { return Some(DuplicateWitness); }
    }
    if est.threshold == 0 || est.threshold > |est.keys| { return Some(InvalidThreshold); }
    var repeated := HasRepeat(est.keys);
    if repeated { return Some(DuplicateKey); }
    if est.next == [] || est.nextThreshold == 0 || est.nextThreshold > |est.next| {
      return Some(InvalidNextThreshold);
    }
    var seen: seq<Bytes> := [];
    for i := 0 to |est.next|
      invariant seen == est.next[..i] && NextFailure(p, est.next, i).None?
    {
      if !p.multihashOk(est.next[i]) || est.next[i] in seen {
        NextFailureSticks(p, est.next, i + 1, |est.next|);
        return NextFailure(p, est.next, i + 1);
      }
      seen := seen + [est.next[i]];
    }
    return None;
  }

  lemma {:induction false} NextFailureSticks(p: Primitives, next: seq<Bytes>, i: nat, n: nat)
    requires i <= n <= |next| && NextFailure(p, next, i).Some?
    ensures NextFailure(p, next, n) == NextFailure(p, next, i)
  {
    if i < n { NextFailureSticks(p, next, i, n - 1); }
  }

  /* ---- signature thresholds ---- */

  predicate SignedBy(p: Primitives, msg: Bytes, keys: seq<VerifyingKey>, s: IndexedSig) {
    s.index < |keys| && p.checkSig(keys[s.index], msg, s.signature)
  }

  /** The distinct keys of `keys` that validly signed `msg`, whatever the order or repetition. */
  function Signers(p: Primitives, msg: Bytes, keys: seq<VerifyingKey>, sigs: seq<IndexedSig>)
    : set<VerifyingKey>
  {
    set s | s in sigs && SignedBy(p, msg, keys, s) :: keys[s.index]
  }

  /** One signature more adds its key, unless that key was counted already or the signature is bad. */
  lemma SignersOneMore(p: Primitives, msg: Bytes, keys: seq<VerifyingKey>, sigs: seq<IndexedSig>, i: nat,
                       seen: set<VerifyingKey>)
    requires i < |sigs| && seen == Signers(p, msg, keys, sigs[..i])
    ensures SignedBy(p, msg, keys, sigs[i]) && keys[sigs[i].index] !in seen ==>
      Signers(p, msg, keys, sigs[..i + 1]) == seen + {keys[sigs[i].index]}
    ensures !SignedBy(p, msg, keys, sigs[i]) || keys[sigs[i].index] in seen ==>
      Signers(p, msg, keys, sigs[..i + 1]) == seen
  {
    assert sigs[..i + 1] == sigs[..i] + [sigs[i]];
  }

  predicate AllSeen(keys: seq<VerifyingKey>, indices: set<nat>, seen: set<VerifyingKey>) {
    forall n :: n in indices ==> n < |keys| && keys[n] in seen
  }

  /** The counting loop skips indices and keys already counted; it counts each signer once. */
  method CountValidSigners(p: Primitives, msg: Bytes, keys: seq<VerifyingKey>, sigs: seq<IndexedSig>)
    returns (count: nat)
    ensures count == |Signers(p, msg, keys, sigs)|
  {
    var seenIndices: set<nat> := {};
    var seenKeys: set<VerifyingKey> := {};
    count := 0;
    for i := 0 to |sigs|
      invariant seenKeys == Signers(p, msg, keys, sigs[..i]) && count == |seenKeys|
      invariant AllSeen(keys, seenIndices, seenKeys)
    {
      var s := sigs[i];
      SignersOneMore(p, msg, keys, sigs, i, seenKeys);
      if s.index < |keys| && s.index !in seenIndices && keys[s.index] !in seenKeys
         && p.checkSig(keys[s.index], msg, s.signature) {
        seenIndices := seenIndices + {s.index};
        seenKeys := seenKeys + {keys[s.index]};
        count := count + 1;
      }
    }
    assert sigs[..|sigs|] == sigs;
  }

  /** A threshold is met when it is positive and that many distinct keys signed the event. */
  predicate MeetsThreshold(p: Primitives, e: Event, keys: seq<VerifyingKey>, threshold: nat) {
    threshold > 0 && |Signers(p, p.signingBytes(e), keys, e.signatures)| >= threshold
  }

  /** `sign_event`: one signature per signer, at that signer's position. */
  function SignAll(p: Primitives, signers: seq<SigningKey>, msg: Bytes): (sigs: seq<IndexedSig>)
    ensures |sigs| == |signers|
  {
    seq(|signers|, i requires 0 <= i < |signers| => IndexedSig(i, p.sign(signers[i], msg)))
  }

  function PublicKeys(p: Primitives, signers: seq<SigningKey>): (keys: seq<VerifyingKey>)
    ensures |keys| == |signers|
  {
    seq(|signers|, i requires 0 <= i < |signers| => p.publicKey(signers[i]))
  }

  function Commitments(p: Primitives, keys: seq<SigningKey>): (cs: seq<Bytes>)
    ensures |cs| == |keys|
  {
    seq(|keys|, i requires 0 <= i < |keys| => p.commitment(p.publicKey(keys[i])))
  }

  /** A full set of signers with distinct keys meets every reachable threshold. */
  lemma SignAllMeets(p: Primitives, signers: seq<SigningKey>, msg: Bytes)
    requires Sound(p) && NoDup(PublicKeys(p, signers))
    ensures |Signers(p, msg, PublicKeys(p, signers), SignAll(p, signers, msg))| == |signers|
  {
    var keys := PublicKeys(p, signers);
    var sigs := SignAll(p, signers, msg);
    forall i | 0 <= i < |signers| ensures keys[i] in Signers(p, msg, keys, sigs) {
      assert sigs[i] in sigs && SignedBy(p, msg, keys, sigs[i]);
    }
    assert Signers(p, msg, keys, sigs) == Elements(keys);
    NoDupCard(keys);
  }
}
