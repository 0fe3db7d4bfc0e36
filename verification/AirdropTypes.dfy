/** What the claim registry, the snapshot and the payout journal share. */
module AirdropTypes {
  import opened Prelude

  const MAX_CAMPAIGN_ID_BYTES := 128
  const MAX_RECIPIENT_BYTES := 256

  /** The text of a `Did`: `did:mini:` and a multibase multihash, or a decoded log's capped identifier. */
  type DidText = b: Bytes | |b| <= MAX_DID_BYTES

  /** What a claim resolves to and a payout pays. */
  datatype Outcome = Outcome(identity: DidText, amount: U64, recipient: Bytes)
}
