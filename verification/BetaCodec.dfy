/** The journal's record and receipt files, byte for byte. */
module BetaCodecs {
  import opened Prelude
  import opened Codec
  import opened BetaJournals

  /** The bytes of `MBETAOP2` and `MBETARC2`. */
  const PENDING_MAGIC: Bytes := [77, 66, 69, 84, 65, 79, 80, 50]
  const RECEIPT_MAGIC: Bytes := [77, 66, 69, 84, 65, 82, 67, 50]
  const PENDING_HEADER := 93
  const RECEIPT_FIXED := 91
  const MAX_SIGNED_OBJECT_BYTES := 128 * 1024
  const MAX_OBJECT_ID_LEN := 256

  predicate ValidKind(k: byte) { 1 <= k <= 5 }

  /** Magic, kind, digest, account, amount, change: the 89 bytes both files share. */
  function Head(magic: Bytes, kind: Kind, digest: Bytes32, account: Bytes32, amount: U64, change: U64): Bytes {
    magic + [kind] + digest + account + Be(amount, 8) + Be(change, 8)
  }

  function EncodePending(r: Record): Option<Bytes> {
    if |r.body| > MAX_SIGNED_OBJECT_BYTES then None
    else Some(Head(PENDING_MAGIC, r.kind, r.digest, r.account, r.amount, r.change) + Be(|r.body|, 4) + r.body)
  }

  function DecodePending(b: Bytes): Option<Record> {
    if |b| < PENDING_HEADER || b[..8] != PENDING_MAGIC || !ValidKind(b[8]) then None else
    var len := FromBe(b[89..93]);
    if len > MAX_SIGNED_OBJECT_BYTES || |b| != PENDING_HEADER + len then None else
      U64Bound(b[73..81]); U64Bound(b[81..89]);
      Some(Record(b[8], b[9..41], b[41..73], FromBe(b[73..81]), FromBe(b[81..89]), b[93..]))
  }

  function EncodeReceipt(r: Receipt): Option<Bytes> {
    if |r.objectId| > MAX_OBJECT_ID_LEN then None
    else Some(Head(RECEIPT_MAGIC, r.kind, r.digest, r.account, r.amount, r.change) + Be(|r.objectId|, 2) + r.objectId)
  }

  function DecodeReceipt(text: Bytes -> bool, b: Bytes): Option<Receipt> {
    if |b| < RECEIPT_FIXED || b[..8] != RECEIPT_MAGIC || !ValidKind(b[8]) then None else
    var len := FromBe(b[89..91]);
    if len > MAX_OBJECT_ID_LEN || |b| != RECEIPT_FIXED + len || !text(b[91..]) then None else
      U64Bound(b[73..81]); U64Bound(b[81..89]);
      Some(Receipt(b[8], b[9..41], b[41..73], FromBe(b[73..81]), FromBe(b[81..89]), b[91..]))
  }

  /** Each field sits at its offset. */
  lemma HeadFields(magic: Bytes, kind: Kind, digest: Bytes32, account: Bytes32, amount: U64, change: U64, tail: Bytes)
    requires |magic| == 8
    ensures var b := Head(magic, kind, digest, account, amount, change) + tail;
      && |b| == 89 + |tail| && b[..8] == magic && b[8] == kind && b[9..41] == digest && b[41..73] == account
      && FromBe(b[73..81]) == amount && FromBe(b[81..89]) == change && b[89..] == tail
  {
    var b := Head(magic, kind, digest, account, amount, change) + tail;
    assert b[73..81] == Be(amount, 8) && b[81..89] == Be(change, 8);
    Pow256Values();
    FromBeInverse(amount, 8);
    FromBeInverse(change, 8);
  }

  /** And the fields at their offsets are all there is. */
  lemma HeadRebuilt(b: Bytes)
    requires |b| >= 89 && ValidKind(b[8]) && FromBe(b[73..81]) < U64_LIMIT && FromBe(b[81..89]) < U64_LIMIT
    ensures b == Head(b[..8], b[8], b[9..41], b[41..73], FromBe(b[73..81]), FromBe(b[81..89])) + b[89..]
  {
    BeInverse(b[73..81]);
    BeInverse(b[81..89]);
  }

  lemma LengthField(tail: Bytes, width: nat, content: Bytes)
    requires tail == Be(|content|, width) + content && |content| < Pow256(width)
    ensures |tail| == width + |content| && FromBe(tail[..width]) == |content| && tail[width..] == content
  {
    assert tail[..width] == Be(|content|, width);
    FromBeInverse(|content|, width);
  }

  lemma LengthRebuilt(tail: Bytes, width: nat)
    requires |tail| >= width && FromBe(tail[..width]) == |tail| - width
    ensures tail == Be(|tail[width..]|, width) + tail[width..]
  {
    BeInverse(tail[..width]);
  }

  lemma PendingRoundTrip(r: Record)
    ensures EncodePending(r).Some? ==> DecodePending(EncodePending(r).value) == Some(r)
  {
    if EncodePending(r).Some? {
      var b := EncodePending(r).value;
      var tail := Be(|r.body|, 4) + r.body;
      assert b == Head(PENDING_MAGIC, r.kind, r.digest, r.account, r.amount, r.change) + tail;
      HeadFields(PENDING_MAGIC, r.kind, r.digest, r.account, r.amount, r.change, tail);
      Pow256Values();
      LengthField(tail, 4, r.body);
      assert b[89..93] == b[89..][..4] && b[93..] == b[89..][4..];
    }
  }

  lemma PendingCanonical(b: Bytes)
    requires DecodePending(b).Some?
    ensures EncodePending(DecodePending(b).value) == Some(b)
  {
    U64Bound(b[73..81]);
    U64Bound(b[81..89]);
    HeadRebuilt(b);
    assert b[89..93] == b[89..][..4] && b[93..] == b[89..][4..];
    LengthRebuilt(b[89..], 4);
    var r := DecodePending(b).value;
    var head := Head(PENDING_MAGIC, r.kind, r.digest, r.account, r.amount, r.change);
    assert head + (Be(|r.body|, 4) + r.body) == head + Be(|r.body|, 4) + r.body;
  }

  lemma ReceiptRoundTrip(text: Bytes -> bool, r: Receipt)
    ensures EncodeReceipt(r).Some? && text(r.objectId) ==> DecodeReceipt(text, EncodeReceipt(r).value) == Some(r)
  {
    if EncodeReceipt(r).Some? && text(r.objectId) {
      var b := EncodeReceipt(r).value;
      var tail := Be(|r.objectId|, 2) + r.objectId;
      assert b == Head(RECEIPT_MAGIC, r.kind, r.digest, r.account, r.amount, r.change) + tail;
      HeadFields(RECEIPT_MAGIC, r.kind, r.digest, r.account, r.amount, r.change, tail);
      Pow256Values();
      LengthField(tail, 2, r.objectId);
      assert b[89..91] == b[89..][..2] && b[91..] == b[89..][2..];
    }
  }

  lemma ReceiptCanonical(text: Bytes -> bool, b: Bytes)
    requires DecodeReceipt(text, b).Some?
    ensures EncodeReceipt(DecodeReceipt(text, b).value) == Some(b)
  {
    U64Bound(b[73..81]);
    U64Bound(b[81..89]);
    HeadRebuilt(b);
    assert b[89..91] == b[89..][..2] && b[91..] == b[89..][2..];
    LengthRebuilt(b[89..], 2);
    var r := DecodeReceipt(text, b).value;
    var head := Head(RECEIPT_MAGIC, r.kind, r.digest, r.account, r.amount, r.change);
    assert head + (Be(|r.objectId|, 2) + r.objectId) == head + Be(|r.objectId|, 2) + r.objectId;
  }

  /** The journal's environment with these codecs; object identifiers are text. */
  function WithCodecs(env: Env, text: Bytes -> bool): Env {
    env.(putPending := EncodePending, getPending := DecodePending,
         putReceipt := (r: Receipt) => if text(r.objectId) then EncodeReceipt(r) else None,
         getReceipt := b => DecodeReceipt(text, b))
  }

  /** So the journal theorems hold of the real files. */
  lemma CodecsAreSound(env: Env, text: Bytes -> bool)
    ensures EnvSound(WithCodecs(env, text))
  {
    forall r: Record ensures EncodePending(r).Some? ==> DecodePending(EncodePending(r).value) == Some(r) {
      PendingRoundTrip(r);
    }
    forall r: Receipt
      ensures EncodeReceipt(r).Some? && text(r.objectId) ==> DecodeReceipt(text, EncodeReceipt(r).value) == Some(r)
    {
      ReceiptRoundTrip(text, r);
    }
  }
}
