/** The reservation record file, byte for byte. */
module ClaimRecords {
  import opened Prelude
  import opened Codec
  import opened AirdropTypes
  import opened ClaimRegistries

  /** The bytes of `mini-airdrop/claim-reservation-record/v2`. */
  const RECORD_DOMAIN: Bytes :=
    [109, 105, 110, 105, 45, 97, 105, 114, 100, 114, 111, 112, 47, 99, 108, 97, 105, 109, 45, 114, 101, 115, 101, 114,
     118, 97, 116, 105, 111, 110, 45, 114, 101, 99, 111, 114, 100, 47, 118, 50]
  const MAX_RECORD_BYTES := 2048

  /** Campaign and identity, each behind a 64-bit length. */
  function Binding(k: Key): (b: Bytes)
    ensures |b| == 16 + |k.campaign| + |k.identity|
  {
    Be(|k.campaign| % U64_LIMIT, 8) + k.campaign + Be(|k.identity| % U64_LIMIT, 8) + k.identity
  }

  function Unsealed(domain: Bytes, k: Key, digest: Bytes32, at: U64): Bytes {
    domain + Binding(k) + digest + Be(at, 8)
  }

  function EncodeRecord(domain: Bytes, hash: Bytes -> Bytes32, k: Key, digest: Bytes32, at: U64): Bytes {
    var out := Unsealed(domain, k, digest, at);
    out + hash(out)
  }

  function DecodeRecord(domain: Bytes, hash: Bytes -> Bytes32, k: Key, b: Bytes): Option<(Bytes32, U64)> {
    var prefix := domain + Binding(k);
    var end := |prefix| + 40;
    if |b| != end + 32 || |b| > MAX_RECORD_BYTES || b[..|prefix|] != prefix || hash(b[..end]) != b[end..] then None
    else
      U64Bound(b[|prefix| + 32..end]);
      Some((b[|prefix|..|prefix| + 32], FromBe(b[|prefix| + 32..end])))
  }

  predicate RecordFits(domain: Bytes, k: Key) { |domain| + |Binding(k)| + 72 <= MAX_RECORD_BYTES }

  lemma FieldPeel(v: Bytes, x: Bytes, w: Bytes, y: Bytes)
    requires |v| < U64_LIMIT && |w| < U64_LIMIT && Be(|v|, 8) + (v + x) == Be(|w|, 8) + (w + y)
    ensures v == w && x == y
  {
    SplitEqual(Be(|v|, 8), v + x, Be(|w|, 8), w + y);
    Pow256Values();
    FromBeInverse(|v|, 8);
    FromBeInverse(|w|, 8);
    SplitEqual(v, x, w, y);
  }

  lemma BindingFields(k: Key, x: Bytes)
    requires |k.campaign| < U64_LIMIT && |k.identity| < U64_LIMIT
    ensures Binding(k) + x == Be(|k.campaign|, 8) + (k.campaign + (Be(|k.identity|, 8) + (k.identity + x)))
  {
    SmallMod(|k.campaign|, U64_LIMIT);
    SmallMod(|k.identity|, U64_LIMIT);
    Regroup(Be(|k.campaign|, 8), k.campaign, Be(|k.identity|, 8), k.identity, x);
  }

  lemma Regroup<T>(a: seq<T>, b: seq<T>, c: seq<T>, d: seq<T>, e: seq<T>)
    ensures a + b + c + d + e == a + (b + (c + (d + e)))
  {
  }

  /** Every record the registry can write is far below the limit. */
  lemma RecordAlwaysFits(k: Key)
    requires |k.campaign| <= MAX_CAMPAIGN_ID_BYTES
    ensures RecordFits(RECORD_DOMAIN, k)
  {
  }

  /** One binding is never the start of another's record. */
  lemma BindingPeel(k: Key, x: Bytes, j: Key, y: Bytes)
    requires |k.campaign| < U64_LIMIT && |k.identity| < U64_LIMIT && |j.campaign| < U64_LIMIT
      && |j.identity| < U64_LIMIT
    requires Binding(k) + x == Binding(j) + y
    ensures k == j && x == y
  {
    BindingFields(k, x);
    BindingFields(j, y);
    FieldPeel(k.campaign, Be(|k.identity|, 8) + (k.identity + x), j.campaign, Be(|j.identity|, 8) + (j.identity + y));
    FieldPeel(k.identity, x, j.identity, y);
  }

  lemma RecordLayout(domain: Bytes, hash: Bytes -> Bytes32, k: Key, digest: Bytes32, at: U64)
    ensures var b := EncodeRecord(domain, hash, k, digest, at); var n := |domain + Binding(k)|;
      && |b| == n + 72 && b[..n] == domain + Binding(k) && b[n..n + 32] == digest && FromBe(b[n + 32..n + 40]) == at
      && b[..n + 40] == Unsealed(domain, k, digest, at) && b[n + 40..] == hash(Unsealed(domain, k, digest, at))
  {
    var b := EncodeRecord(domain, hash, k, digest, at);
    var n := |domain + Binding(k)|;
    assert b[n + 32..n + 40] == Be(at, 8);
    Pow256Values();
    FromBeInverse(at, 8);
  }

  /** A record is read exactly by its own key, when it fits, and as it was written. */
  lemma RecordReadsBack(domain: Bytes, hash: Bytes -> Bytes32, k: Key, digest: Bytes32, at: U64, j: Key)
    ensures var r := DecodeRecord(domain, hash, j, EncodeRecord(domain, hash, k, digest, at));
      && (r.Some? <==> j == k && RecordFits(domain, k)) && (r.Some? ==> r == Some((digest, at)))
  {
    var b := EncodeRecord(domain, hash, k, digest, at);
    RecordLayout(domain, hash, k, digest, at);
    if DecodeRecord(domain, hash, j, b).Some? { SamePrefix(domain, k, j, b); }
  }

  /** Any file that reads as a reservation is, byte for byte, the record of that reservation. */
  lemma RecordCanonical(domain: Bytes, hash: Bytes -> Bytes32, k: Key, b: Bytes)
    requires DecodeRecord(domain, hash, k, b).Some?
    ensures var (digest, at) := DecodeRecord(domain, hash, k, b).value; b == EncodeRecord(domain, hash, k, digest, at)
  {
    var n := |domain + Binding(k)|;
    BeInverse(b[n + 32..n + 40]);
    Rejoin(b, n, n + 32, n + 40);
  }

  lemma Rejoin<T>(b: seq<T>, i: nat, j: nat, k: nat)
    requires i <= j <= k <= |b|
    ensures b[..k] == b[..i] + b[i..j] + b[j..k] && b == b[..k] + b[k..]
  {
  }

  lemma SamePrefix(domain: Bytes, k: Key, j: Key, b: Bytes)
    requires |b| <= MAX_RECORD_BYTES && domain + Binding(k) <= b && domain + Binding(j) <= b
    ensures k == j
  {
    AfterDomain(domain, Binding(k), b);
    AfterDomain(domain, Binding(j), b);
    BindingPeel(k, b[|domain| + |Binding(k)|..], j, b[|domain| + |Binding(j)|..]);
  }

  lemma AfterDomain<T>(domain: seq<T>, binding: seq<T>, b: seq<T>)
    requires domain + binding <= b
    ensures b[|domain|..] == binding + b[|domain| + |binding|..]
  {
    assert b == domain + (binding + b[|domain| + |binding|..]);
  }

  function RecordEnv(path: Key -> Bytes, hash: Bytes -> Bytes32): Env {
    Env(path, (k, digest, at) => EncodeRecord(RECORD_DOMAIN, hash, k, digest, at),
        (k, b) => DecodeRecord(RECORD_DOMAIN, hash, k, b))
  }

  /** So the refinement holds of the real files, whatever the path and checksum functions do. */
  lemma RecordEnvSound(path: Key -> Bytes, hash: Bytes -> Bytes32)
    ensures EnvSound(RecordEnv(path, hash))
  {
    forall k: Key, digest: Bytes32, at: U64, j: Key
      ensures var r := DecodeRecord(RECORD_DOMAIN, hash, j, EncodeRecord(RECORD_DOMAIN, hash, k, digest, at));
        (r.Some? <==> j == k && RecordFits(RECORD_DOMAIN, k)) && (r.Some? ==> r == Some((digest, at)))
    {
      RecordReadsBack(RECORD_DOMAIN, hash, k, digest, at, j);
    }
    forall k: Key | |k.campaign| <= MAX_CAMPAIGN_ID_BYTES ensures RecordFits(RECORD_DOMAIN, k) { RecordAlwaysFits(k); }
  }
}
