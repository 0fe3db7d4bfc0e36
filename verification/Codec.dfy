/**
 The length-prefixed big-endian codec.

 Specifications are written in "prepend" form: `PutX(x, rest)` is the encoding of `x`
 followed by `rest`, and `GetX(b)` yields the value and the bytes after it.  Composite
 formats are then plain function composition, so their laws need no reasoning about
 re-associated concatenations.
 */
module Codec {
  import opened Prelude

  /** The failures of the identity layer, without their payloads. */
  datatype IdentityError =
    | Truncated | FieldTooLarge | TooManyItems | TrailingBytes | BadEvent | UnknownEventTag
    | DidFormat | Crypto | EmptyKel | NotInception | ScidMismatch | WrongSequence | BrokenChain
    | PreRotationMismatch | ThresholdNotMet | SignatureThresholdNotMet | UnknownSequence
    | EmptyKeySet | InvalidThreshold | InvalidNextThreshold | DuplicateKey
    | InvalidWitnessThreshold | DuplicateWitness | EmptyWitnessSet
    | RecoveryKeysMismatch | RestoreKeysMismatch | RootIsDelegated | NotDelegated
    | WitnessNotInPolicy | WitnessConflictingDescendant | NoWitnessPolicyDeclared
    | NoRetainedWitnessState | NotAWitnessPolicyChange | ConflictingPolicyTransitionCertification
    | WitnessReceiptMismatch | WitnessPolicyGenerationMismatch | UnresolvedWitnessKey
    | WitnessThresholdNotMet | ControllerDuplicityMismatch | WitnessEquivocationMismatch
    | RecoveryWaitingPeriodNotMet | InsufficientUnavailabilityEvidence
    | UnknownReceiptVersion | UnknownCertificateVersion | UnknownKindTag

  type Parsed<T> = Result<(T, Bytes), IdentityError>

  /* ---- fixed-width big-endian integers ---- */

  function Pow256(k: nat): (p: nat)
    ensures p > 0
  {
    if k == 0 then 1 else 256 * Pow256(k - 1)
  }

  lemma Pow256Values()
    ensures Pow256(2) == U16_LIMIT && Pow256(4) == U32_LIMIT && Pow256(8) == U64_LIMIT
  {
  }

  /** The low `k` bytes of `n`, most significant first. */
  function Be(n: nat, k: nat): (b: Bytes)
    ensures |b| == k
  {
    if k == 0 then [] else Be(n / 256, k - 1) + [n % 256]
  }

  function FromBe(b: Bytes): nat {
    if b == [] then 0 else FromBe(b[..|b| - 1]) * 256 + b[|b| - 1]
  }

  lemma {:induction false} FromBeInverse(n: nat, k: nat)
    requires n < Pow256(k)
    ensures FromBe(Be(n, k)) == n
  {
    if k > 0 {
      assert Be(n, k)[..k - 1] == Be(n / 256, k - 1);
      FromBeInverse(n / 256, k - 1);
    }
  }

  lemma {:induction false} BeInverse(b: Bytes)
    ensures FromBe(b) < Pow256(|b|) && Be(FromBe(b), |b|) == b
  {
    if b != [] {
      BeInverse(b[..|b| - 1]);
      assert (FromBe(b[..|b| - 1]) * 256 + b[|b| - 1]) / 256 == FromBe(b[..|b| - 1]);
      assert b == b[..|b| - 1] + [b[|b| - 1]];
    }
  }

  function PutU(k: nat, n: nat, rest: Bytes): Bytes { Be(n, k) + rest }

  function GetU(k: nat, b: Bytes): Parsed<nat> {
    if |b| < k then Err(Truncated) else Ok((FromBe(b[..k]), b[k..]))
  }

  lemma GetPutU(k: nat, n: nat, rest: Bytes)
    requires n < Pow256(k)
    ensures GetU(k, PutU(k, n, rest)) == Ok((n, rest))
  {
    assert PutU(k, n, rest)[..k] == Be(n, k);
    FromBeInverse(n, k);
  }

  lemma PutGetU(k: nat, b: Bytes)
    requires GetU(k, b).Ok?
    ensures var (n, rest) := GetU(k, b).value; n < Pow256(k) && b == PutU(k, n, rest)
  {
    BeInverse(b[..k]);
    assert b == b[..k] + b[k..];
  }

  /* ---- u8, u32, u64 ---- */

  function PutU8(v: byte, rest: Bytes): Bytes { [v] + rest }

  function GetU8(b: Bytes): Parsed<byte> {
    if b == [] then Err(Truncated) else Ok((b[0], b[1..]))
  }

  /** Writing a count uses Rust's truncating `as u32` cast. */
  function PutU32(n: nat, rest: Bytes): Bytes { PutU(4, n % U32_LIMIT, rest) }

  function GetU32(b: Bytes): Parsed<nat> { GetU(4, b) }

  function PutU64(n: nat, rest: Bytes): Bytes { PutU(8, n % U64_LIMIT, rest) }

  function GetU64(b: Bytes): Parsed<nat> { GetU(8, b) }

  lemma U64Bound(b: Bytes)
    requires |b| == 8
    ensures FromBe(b) < U64_LIMIT
  {
    BeInverse(b);
    Pow256Values();
  }

  lemma SmallMod(n: nat, limit: nat)
    requires n < limit
    ensures n % limit == n
  {
  }

  lemma U8Laws(v: byte, rest: Bytes)
    ensures GetU8(PutU8(v, rest)) == Ok((v, rest))
  {
  }

  lemma U8Canonical(b: Bytes)
    ensures GetU8(b).Ok? ==> b == PutU8(GetU8(b).value.0, GetU8(b).value.1)
  {
  }

  lemma U32Laws(n: nat, rest: Bytes)
    requires n < U32_LIMIT
    ensures GetU32(PutU32(n, rest)) == Ok((n, rest))
  {
    Pow256Values();
    SmallMod(n, U32_LIMIT);
    GetPutU(4, n, rest);
  }

  lemma U32Canonical(b: Bytes)
    ensures GetU32(b).Ok? ==>
      GetU32(b).value.0 < U32_LIMIT && b == PutU32(GetU32(b).value.0, GetU32(b).value.1)
  {
    Pow256Values();
    if GetU32(b).Ok? {
      PutGetU(4, b);
      SmallMod(GetU32(b).value.0, U32_LIMIT);
    }
  }

  lemma U64Laws(n: nat, rest: Bytes)
    requires n < U64_LIMIT
    ensures GetU64(PutU64(n, rest)) == Ok((n, rest))
  {
    Pow256Values();
    SmallMod(n, U64_LIMIT);
    GetPutU(8, n, rest);
  }

  lemma U64Canonical(b: Bytes)
    ensures GetU64(b).Ok? ==>
      GetU64(b).value.0 < U64_LIMIT && b == PutU64(GetU64(b).value.0, GetU64(b).value.1)
  {
    Pow256Values();
    if GetU64(b).Ok? {
      PutGetU(8, b);
      SmallMod(GetU64(b).value.0, U64_LIMIT);
    }
  }

  /* ---- byte strings ---- */

  function PutBytes(v: Bytes, rest: Bytes): Bytes { PutU32(|v|, v + rest) }

  function GetBytes(max: nat, b: Bytes): Parsed<Bytes> {
    var (len, tail) :- GetU32(b);
    if len > max then Err(FieldTooLarge)
    else if |tail| < len then Err(Truncated)
    else Ok((tail[..len], tail[len..]))
  }

  lemma BytesLaws(max: nat, v: Bytes, rest: Bytes)
    requires |v| <= max && |v| < U32_LIMIT
    ensures GetBytes(max, PutBytes(v, rest)) == Ok((v, rest))
  {
    U32Laws(|v|, v + rest);
    assert (v + rest)[..|v|] == v && (v + rest)[|v|..] == rest;
  }

  lemma BytesCanonical(max: nat, b: Bytes)
    ensures GetBytes(max, b).Ok? ==>
      var (v, rest) := GetBytes(max, b).value;
      |v| <= max && |v| < U32_LIMIT && b == PutBytes(v, rest)
  {
    if GetBytes(max, b).Ok? {
      U32Canonical(b);
      var (len, tail) := GetU32(b).value;
      assert tail == tail[..len] + tail[len..];
    }
  }

  lemma SplitEqual(a: Bytes, x: Bytes, b: Bytes, y: Bytes)
    requires a + x == b + y && |a| == |b|
    ensures a == b && x == y
  {
    assert a == (a + x)[..|a|] && b == (b + y)[..|b|];
    assert x == (a + x)[|a|..] && y == (b + y)[|b|..];
  }

  /* ---- lists of items sharing one format ---- */

  /** An item format: how to prepend a value, how to read one, which values it represents. */
  datatype Format<!T> = Format(put: (T, Bytes) -> Bytes, get: Bytes -> Parsed<T>, fits: T -> bool)

  /** Reading undoes writing on representable values, and only canonical bytes are readable. */
  ghost predicate Lawful<T(!new)>(f: Format<T>) {
    && (forall x: T, rest: Bytes :: f.fits(x) ==> f.get(f.put(x, rest)) == Ok((x, rest)))
    && (forall b: Bytes :: f.get(b).Ok? ==>
          f.fits(f.get(b).value.0) && b == f.put(f.get(b).value.0, f.get(b).value.1))
  }

  function PutAll<T>(put: (T, Bytes) -> Bytes, xs: seq<T>, rest: Bytes): Bytes {
    if xs == [] then rest else put(xs[0], PutAll(put, xs[1..], rest))
  }

  function GetAll<T>(f: Format<T>, n: nat, b: Bytes): Parsed<seq<T>> {
    if n == 0 then Ok(([], b)) else
      var (x, tail) :- f.get(b);
      var (xs, rest) :- GetAll(f, n - 1, tail);
      Ok(([x] + xs, rest))
  }

  function PutList<T>(put: (T, Bytes) -> Bytes, xs: seq<T>, rest: Bytes): Bytes {
    PutU32(|xs|, PutAll(put, xs, rest))
  }

  function GetList<T>(f: Format<T>, max: nat, b: Bytes): Parsed<seq<T>> {
    var (n, tail) :- GetU32(b);
    if n > max then Err(TooManyItems) else GetAll(f, n, tail)
  }

  predicate ListFits<T>(f: Format<T>, max: nat, xs: seq<T>) {
    |xs| <= max && |xs| < U32_LIMIT && forall i :: 0 <= i < |xs| ==> f.fits(xs[i])
  }

  lemma {:induction false} AllLaws<T(!new)>(f: Format<T>, xs: seq<T>, rest: Bytes)
    requires Lawful(f) && forall i :: 0 <= i < |xs| ==> f.fits(xs[i])
    ensures GetAll(f, |xs|, PutAll(f.put, xs, rest)) == Ok((xs, rest))
  {
    if xs != [] {
      AllLaws(f, xs[1..], rest);
      assert f.get(PutAll(f.put, xs, rest)) == Ok((xs[0], PutAll(f.put, xs[1..], rest)));
      assert xs == [xs[0]] + xs[1..];
    }
  }

  lemma {:induction false} AllCanonical<T(!new)>(f: Format<T>, n: nat, b: Bytes)
    requires Lawful(f) && GetAll(f, n, b).Ok?
    ensures var (xs, rest) := GetAll(f, n, b).value;
      |xs| == n && b == PutAll(f.put, xs, rest) && forall i :: 0 <= i < n ==> f.fits(xs[i])
  {
    if n > 0 {
      var (x, tail) := f.get(b).value;
      AllCanonical(f, n - 1, tail);
      var (xs, rest) := GetAll(f, n - 1, tail).value;
      assert ([x] + xs)[1..] == xs;
    }
  }

  lemma ListLaws<T(!new)>(f: Format<T>, max: nat, xs: seq<T>, rest: Bytes)
    requires Lawful(f) && ListFits(f, max, xs)
    ensures GetList(f, max, PutList(f.put, xs, rest)) == Ok((xs, rest))
  {
    U32Laws(|xs|, PutAll(f.put, xs, rest));
    AllLaws(f, xs, rest);
  }

  lemma ListCanonical<T(!new)>(f: Format<T>, max: nat, b: Bytes)
    requires Lawful(f) && GetList(f, max, b).Ok?
    ensures var (xs, rest) := GetList(f, max, b).value;
      ListFits(f, max, xs) && b == PutList(f.put, xs, rest)
  {
    U32Canonical(b);
    AllCanonical(f, GetU32(b).value.0, GetU32(b).value.1);
  }
}
