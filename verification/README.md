# Mininet core protocols, modelled and verified in Dafny

This project models the stateful core of Mininet and proves what it promises over every input,
every run and every reachable state.

- **Key Event Logs (`did:mini`).** Events, their byte form, the verifier, the controller that
  produces logs, delegation seals, and the theorem that two verified logs of one identity are
  prefixes of each other or fork at exactly one provable place.
- **Witnesses.** A witness's journal, the receipts it signs, threshold certificates, witness-set
  rotation and dead-witness recovery; no honest journal equivocates, so quorums agree.
- **F5 settlement.** The claim state machine with all its rejection branches, value conservation,
  at-most-once payment, order-free batches, and the fixed-point audit probability.
- **Crash-safe stores.** The peer book, the wallet's operation journal, the payout journal and the
  claim registry, with a failure allowed before or after every durable step and any number of
  reopenings.
- **Airdrop to payout.** Claims resolved against a snapshot, reserved once and paid through payout
  journals: everything one campaign ever dispatches sums to no more than its snapshot allocates.
- **Two algorithms.** Cache eviction as a greatest fixpoint, and largest-first input selection behind
  the resolver's balances.

`dafny verify dfyconfig.toml` checks the whole project.

## How the model is built

Pure code is modelled by datatypes and functions. Code that changes state is modelled twice: by a
step function on values, about which runs and invariants are proved, and by a class or a method
with loops whose postcondition is that step function. The files ending in `Object.dfy`, `Buffers.dfy`
and `EventCodec.dfy` hold the second kind, as do the loop methods beside the functions they compute.

Cryptography, clocks, randomness and the file system enter as parameters. `Identity.Primitives` is a
record of functions (digest, signing bytes, identifier derivation, key commitment, signature check,
text and multihash checks); a theorem that needs hashing to be collision free asks for it only on the
finitely many messages of the logs at hand (`Fork.NoCollision`), and `Fork.HashedHasNoCollision`
reduces that to the hash alone by proving every byte form injective. Other components take an `Env`
or `Trust` record in the same way, and a lemma shows that the real byte formats satisfy what is
asked of it (`PeerBooks.TrustOfIsSound`, `BetaCodecs.CodecsAreSound`, `PayoutFiles.FileEnvSound`,
`ClaimRecords.RecordEnvSound`).

An identity in the airdrop modules is a `Did`, whose text never exceeds 256 bytes: a parsed one is
`did:mini:` and the multibase form of a 34-byte multihash (crates/did-mini/src/lib.rs:126-161), and a
decoded log's identifier is capped at 128 bytes (crates/did-mini/src/limits.rs:18-21).

A durable replace either happens wholly or not at all, and may report an error in both cases. Integers
are unbounded; every place where the program's width matters is written out (`as u32` and `as u16`
casts, the `u64` successor in the witness journal, saturating and checked additions).

A specification function is in turn pinned by what it means: the modules `KelMeaning`,
`ControllerMeaning`, `WitnessMeaning` and `SettlementMeaning`, and the lemmas ending in `Exactly` or
`Iff` elsewhere, state when each operation succeeds and what it then leaves behind, as conditions on
its arguments and on single events, fields and accounts.

## Properties that do not hold as stated

- *A witness journal never signs two events for one sequence.* In a build without overflow checks
  `accepted_sequence + 1` wraps, and a journal that first sees sequence 2^64 - 1 and then follows the
  chain all the way round equivocates (`WitnessOverflow.FullLapEquivocates`). Two exact conditions: runs
  that present sequence numbers up to a bound never equivocate if and only if the bound is below
  2^64 - 1 (`WitnessOverflow.SequenceBoundIsExact`), and runs of at most n calls, whatever they present,
  never equivocate if and only if n is at most 2^64 (`WitnessLaps.LengthBoundIsExact`).
- *Certificate verification does not depend on receipt order*
  (crates/did-mini/src/witness.rs:417-422). A witness already counted is skipped before its signature
  is looked at, so a genuine receipt followed by a forged repeat verifies and the reverse fails
  (`WitnessAssembly.RepeatedReceiptOrderMatters`). A verified certificate verifies in every order if
  and only if every receipt in it is genuine (`WitnessAssembly.OrderIrrelevantIffGenuine`).
- *Canonicalizing a signature list loses no signer.* It keeps the first signature of each index, valid
  or not, so a forged signature in front of a genuine one hides its signer
  (`SignatureOrder.ForgedFirstHidesSigner`); the signers survive if and only if those first signatures
  decide (`SignatureOrder.SignersSurviveIffFirstDecides`).

## What is left to a caller

- A delegated inception verifies unless it derives the very identifier it names as its delegator
  (`Controllers.InceptGood`). The delegator is part of the hashed event, so with a real hash this asks
  for a fixpoint of the hash; that derivation alone prevents it is shown by a constant one
  (`Controllers.ConstantIdentifierFails`).
- A dead-witness recovery is checked against the earlier policy its caller names. Unlike a policy
  transition it does not compare that policy with the one the log's prefix declares
  (`WitnessRecovery.RecoveryTrustsItsCaller`).

## Model

| member | source | states |
|---|---|---|
| Identity.ValidateEstablishment | crates/did-mini/src/event.rs:346-418 | the loops of the establishment check return the first failure of its ordered conditions, or none |
| Identity.ValidEstablishmentMeaning | crates/did-mini/src/event.rs:346-418 | an accepted establishment has distinct keys, commitments and witnesses and thresholds within 1..n; a witness threshold stands only beside witnesses |
| Identity.CountValidSigners | crates/did-mini/src/event.rs:477-497 | the counting loop returns the number of distinct keys that validly signed, whatever the order, repetition or bad indices in the list |
| Identity.SignAllMeets | crates/did-mini/src/controller.rs:695-706 | a full set of signers with distinct keys is counted completely by the verifier |
| KeyEventLog.RunVerifyThrough | crates/did-mini/src/kel.rs:330-424 | the verification loop with its mutable keys, thresholds, commitments and chain tip returns exactly the replayed key state or the first failure |
| KeyEventLog.CheckFirst | crates/did-mini/src/kel.rs:331-358 | the inception checks, in their order, fail exactly where the specification fails |
| KeyEventLog.CheckNext | crates/did-mini/src/kel.rs:366-412 | the checks on a later event, in their order, fail exactly where the specification fails |
| KeyEventLog.CheckRevealed | crates/did-mini/src/kel.rs:391-398 | the pre-rotation loop accepts exactly the keys whose commitments were published before |
| KeyEventLog.VerifiedShape | crates/did-mini/src/kel.rs:330-424 | in a verified log every event carries the log's identifier, its own index and its predecessor's digest, and only the first is an inception, self-certifying |
| KeyEventLog.RotationRevealed | crates/did-mini/src/kel.rs:387-398 | every rotation in a verified log reveals exactly the keys and threshold committed before it |
| KeyEventLog.PrefixVerified | crates/did-mini/src/kel.rs:291-299 | every prefix of a verified log verifies, to the historical key state of the whole |
| KeyEventLog.HistoryIsStable | crates/did-mini/src/kel.rs:268-299 | extending a log never changes an earlier key state, so detached signatures checked at an earlier sequence keep their verdict |
| KelMeaning.VerifiedIff | crates/did-mini/src/kel.rs:330-424 | a log verifies if and only if it is non-empty and each event by itself is in order: identifier, index, link to its predecessor, kind, admissible establishment, opened commitments, and enough signatures of the keys that govern it |
| KelMeaning.EveryEventSigned | crates/did-mini/src/kel.rs:354-411 | every event of a verified log is signed, to the threshold, by distinct keys of the last inception or rotation up to it |
| KelMeaning.StateIsGovernors | crates/did-mini/src/kel.rs:268-299 | the key state reported at any event is that of the last inception or rotation up to it |
| KelMeaning.MessageIff | crates/did-mini/src/kel.rs:244-299 | detached signatures pass at a sequence if and only if the log verifies, the sequence exists, and the keys governing it signed the message to their threshold |
| Events.EventLaws | crates/did-mini/src/event.rs:132-344 | decoding the encoding of any event within a grammar returns that event and the bytes after it |
| Events.EventCanonical | crates/did-mini/src/event.rs:248-344 | every accepted byte string is within the grammar and is the one encoding of what it decodes to |
| Events.EstablishmentLaws | crates/did-mini/src/event.rs:213-344 | the establishment codec round-trips, with the witness threshold present only beside witnesses |
| Events.SealLawful | crates/did-mini/src/delegation.rs:238-276 | the seal codec is a lawful format: round trip on valid seals, only canonical bytes accepted |
| WireForm.KelRoundTrip | crates/did-mini/src/kel.rs:194-233 | parsing a log's bytes returns the log if and only if the log is within the wire limits |
| WireForm.KelCanonical | crates/did-mini/src/kel.rs:206-233 | every accepted byte string re-encodes to itself |
| WireForm.KelBytesInjective | crates/did-mini/src/kel.rs:194-202 | distinct logs within the limits never share a byte form |
| WireForm.FullBytesInjective | crates/did-mini/src/event.rs:196-210 | the digest input determines the event, signatures included |
| WireForm.ScidInputInjective | crates/did-mini/src/event.rs:444-448 | the identifier input determines everything but the identifier field and the signatures |
| Buffers.Writer.ByteString | crates/did-mini/src/codec.rs:45-48 | appending a byte string puts its length-prefixed form between what was written and whatever follows |
| Buffers.Writer.U32 | crates/did-mini/src/codec.rs:36-38 | appending a number puts its four big-endian bytes between what was written and whatever follows |
| Buffers.Writer.U64 | crates/did-mini/src/codec.rs:40-42 | the same with eight bytes |
| Buffers.Reader.BytesLimited | crates/did-mini/src/codec.rs:96-113 | the cursor read agrees with the functional parser: same bytes, same rest, same error, length cap checked before anything is taken |
| Buffers.Reader.U32 | crates/did-mini/src/codec.rs:74-83 | reading four bytes agrees with the functional parser and moves the cursor past them |
| Buffers.Reader.U64 | crates/did-mini/src/codec.rs:85-94 | reading eight bytes agrees with the functional parser and moves the cursor past them |
| EventCodecs.EncodeEvent | crates/did-mini/src/event.rs:132-178 | one pass over the writer produces the signing, identifier or full byte form, according to the mode |
| EventCodecs.EncodeEstablishment | crates/did-mini/src/event.rs:213-245 | the writer loops append exactly the establishment's byte form |
| EventCodecs.EncodeKel | crates/did-mini/src/kel.rs:194-202 | the log encoder produces the byte form whose round trip is proved |
| EventCodecs.DecodeEvent | crates/did-mini/src/event.rs:248-308 | the cursor decoder agrees with the functional event parser on value, rest and error |
| EventCodecs.DecodeEstablishment | crates/did-mini/src/event.rs:310-344 | the cursor loops agree with the functional establishment parser |
| EventCodecs.DecodeSeal | crates/did-mini/src/delegation.rs:255-276 | the cursor decoder agrees with the functional seal parser |
| EventCodecs.DecodeKel | crates/did-mini/src/kel.rs:206-233 | the log parser, nested readers included, returns exactly the functional parser's verdict |
| SignatureOrder.CanonicalizeMeaning | crates/did-mini/src/event.rs:526-530 | sorting and dropping repeats gives strictly ascending indices with exactly the first signature of each index |
| SignatureOrder.CanonicalizeFixesExactlyCanonical | crates/did-mini/src/event.rs:514-530 | a list is unchanged by canonicalization if and only if it passes the canonical test |
| SignatureOrder.ForgedFirstHidesSigner | crates/did-mini/src/event.rs:477-530 | a forged signature in front of a genuine one for the same key leaves no signer after canonicalization, where there was one |
| SignatureOrder.SignersSurviveIffFirstDecides | crates/did-mini/src/event.rs:477-530 | the counted signers survive canonicalization if and only if each index with a valid signature has a valid first one |
| Fork.DigestPinsHistory | crates/did-mini/src/kel.rs:378-414 | one equal digest forces equal positions, equal identifiers and an equal history up to there |
| Fork.ForkTheorem | crates/did-mini/src/kel.rs:330-424 | two verified logs with one identifier are prefix-comparable, or part at one index where the same control governed both events, rotations reveal the same keys, inceptions differ only in signatures, the branches never meet again and a duplicity proof assembles |
| Fork.ForkAssembles | crates/did-mini/src/witness_state.rs:430-445 | the two parting events of verified logs always assemble into a duplicity proof |
| Fork.RotationsRevealSameKeys | crates/did-mini/src/kel.rs:387-398 | rival rotations after one shared history reveal the same keys and threshold |
| Fork.BranchesNeverMeet | crates/did-mini/src/kel.rs:378-414 | no event after a fork has the digest of any event on the other branch |
| Fork.HashedHasNoCollision | crates/did-mini/src/event.rs:436-448 | a hash injective on the finitely many messages of two logs leaves no collision between their digests, commitments or identifiers |
| Delegation.RunDelegatedDevices | crates/did-mini/src/kel.rs:168-191 | the in-place accumulator over all seals computes the specified grant list |
| Delegation.DelegatedIffLastSealGrants | crates/did-mini/src/kel.rs:168-191 | a device is delegated with capabilities c if and only if the last seal naming it delegates c and its name parses |
| Delegation.LastSealInLog | crates/did-mini/src/kel.rs:156-191 | that last seal is the last in log order, within an event as across events, and there is none exactly if no seal names the device |
| Delegation.DelegatorExactly | crates/did-mini/src/kel.rs:148-153 | a log's delegator is what its delegated inception names, if that is a DID, and otherwise there is none |
| Delegation.DelegationIsMutual | crates/did-mini/src/kel.rs:449-473 | the delegation check succeeds with c if and only if both logs verify, the root is not delegated, the device names the root and the root's last word grants c |
| Delegation.RevokingLeavesKept | crates/did-mini/src/controller.rs:624-641 | after sealing those revocations exactly the kept grants remain, in order and with unchanged capabilities |
| Controllers.RunKeepsLogValid | crates/did-mini/src/controller.rs:252-393 | after any run of rotations, appointments, interactions and seals, accepted or refused, the log verifies to exactly the controller's own key state and extends the earlier log |
| Controllers.InceptGood | crates/did-mini/src/controller.rs:177-235 | a successful inception yields a verifying log if and only if its arguments do not derive the identifier they name as the delegator |
| Controllers.ConstantIdentifierFails | crates/did-mini/src/kel.rs:344-349 | with a constant identifier derivation, sound in every other way, inception under that identifier succeeds and its log fails to verify |
| Controllers.RecoverGood | crates/did-mini/src/controller.rs:425-483 | recovery succeeds if and only if the keys open the standing commitments and the new set is admissible; it appends one rotation and the result verifies |
| Controllers.RestoreResumes | crates/did-mini/src/controller.rs:502-541 | restoring from a log and its own keys resumes the same controller without appending |
| Controllers.ChunksSealAll | crates/did-mini/src/controller.rs:624-690 | sealing a list in chunks of 128 always succeeds, loses none, uses the least number of events and keeps the log valid |
| Controllers.RevokeExceptIsExact | crates/did-mini/src/controller.rs:624-690 | revoking all but a keep list never fails on a log of any size and leaves exactly the previously delegated devices in that list, unchanged |
| ControllerMeaning.PerformedExactly | crates/did-mini/src/controller.rs:275-393 | each public operation succeeds if and only if what it would publish is admissible, and the one event it appends carries exactly the keys, commitments, thresholds, witnesses, anchors or seals asked for |
| ControllerMeaning.AppointedPolicy | crates/did-mini/src/controller.rs:349-393 | after appointing, the log declares exactly the appointed witnesses at the appointed threshold |
| ControllerMeaning.RotationRetires | crates/did-mini/src/controller.rs:275-330 | after an ordinary rotation the log declares no witness policy |
| ControllerMeaning.AnchoringKeeps | crates/did-mini/src/controller.rs:573-690 | interactions and seals leave the declared policy alone, and only a seal event adds seals, its own, in order |
| ControllerMeaning.InceptedExactly | crates/did-mini/src/controller.rs:177-235 | inception succeeds if and only if its establishment is admissible, and its one event carries the given keys and delegator |
| ControllerMeaning.RestoredExactly | crates/did-mini/src/controller.rs:502-541 | restoring succeeds if and only if the log verifies and both key sets match it, and yields a controller in step with it |
| ControllerMeaning.RecoveredExactly | crates/did-mini/src/controller.rs:425-483 | recovery appends one rotation to the recovered keys with the new commitments, which declares no witnesses |
| ControllerObjects.Controller.InceptInner | crates/did-mini/src/controller.rs:177-235 | the constructor path yields the specified controller or its first error |
| ControllerObjects.Controller.RotateWithNextAndThreshold | crates/did-mini/src/controller.rs:299-330 | the rotation updates keys, thresholds and log as one step, or changes nothing and returns the specified error |
| ControllerObjects.Controller.Rotate | crates/did-mini/src/controller.rs:275-279 | an ordinary rotation is the rotation step with the standing next threshold and an empty witness set, errors included |
| ControllerObjects.Controller.AppointWitnesses | crates/did-mini/src/controller.rs:349-393 | appointing rotates and declares the witness set in one event, or changes nothing and returns the specified error |
| ControllerObjects.Controller.Interact | crates/did-mini/src/controller.rs:573-584 | anchoring appends one signed event, or changes nothing and returns the specified error |
| ControllerObjects.Controller.Seal | crates/did-mini/src/controller.rs:652-671 | sealing appends one signed event after every device name parsed, or changes nothing |
| ControllerObjects.Controller.RevokeDevicesExcept | crates/did-mini/src/controller.rs:624-641 | the chunked loop over revocations ends in the specified state |
| Witnesses.NewPolicy | crates/did-mini/src/witness.rs:182-211 | the constructor accepts exactly non-empty, bounded, duplicate-free sets with a threshold in range, else its first failure |
| Witnesses.DeclaredPolicyIsValid | crates/did-mini/src/kel.rs:107-134 | any policy read from a log is a valid policy |
| Witnesses.LastEstablishmentDecides | crates/did-mini/src/kel.rs:107-134 | the declared policy is that of the last inception or rotation, if its witnesses are distinct, well named, at most 64 and able to meet its threshold, and otherwise none, whatever was declared before |
| Witnesses.FindDeclaredPolicy | crates/did-mini/src/kel.rs:107-134 | the loop from the newest event backwards returns the declared policy |
| Witnesses.StatementInjective | crates/did-mini/src/witness.rs:281-299 | a witness signature covers exactly one statement |
| Witnesses.RunVerifyCertificate | crates/did-mini/src/witness.rs:487-528 | the loop over receipts with its list of counted witnesses gives the specified verdict, `u16` count included |
| Witnesses.CertificateQuorum | crates/did-mini/src/witness.rs:487-528 | a verified certificate has at least threshold distinct members, each with a verifying receipt for exactly its event |
| Witnesses.CertificatesOverlap | crates/did-mini/src/witness.rs:487-528 | two certificates under one member set share at least 2 * threshold - n members who attested both |
| WitnessMeaning.CertificateIff | crates/did-mini/src/witness.rs:487-528 | a certificate verifies if and only if its generation is the policy's, every receipt repeats its claim and comes from a member, the first receipt of each signer is signed by that witness's key, and the distinct signers, counted as a `u16`, reach the threshold |
| WitnessAssembly.RunAssemble | crates/did-mini/src/witness.rs:431-472 | assembling refuses empty, oversized or mismatched receipt lists and sorts the rest by witness |
| WitnessAssembly.AssembledExactly | crates/did-mini/src/witness.rs:431-475 | assembly succeeds if and only if one to 64 receipts all say the same, loses none of them, and orders them by signer |
| WitnessAssembly.AssemblyForgetsOrder | crates/did-mini/src/witness.rs:457-463 | receipts of distinct witnesses assemble to one certificate however they were collected |
| WitnessAssembly.GenuineVerifies | crates/did-mini/src/witness.rs:487-528 | a certificate of genuine receipts verifies if and only if it has threshold distinct signers |
| WitnessAssembly.OrderIrrelevantIffGenuine | crates/did-mini/src/witness.rs:417-528 | a verified certificate verifies in every receipt order if and only if all its receipts are genuine |
| WitnessAssembly.RepeatedReceiptOrderMatters | crates/did-mini/src/witness.rs:510-518 | a genuine receipt then a forged repeat verifies, the reverse order does not |
| WitnessCodecs.CertificateRoundTrip | crates/did-mini/src/witness.rs:531-575 | decoding undoes encoding exactly on well-formed certificates; no nested size cap interferes |
| WitnessCodecs.CertificateCanonical | crates/did-mini/src/witness.rs:548-575 | every accepted certificate is well formed and re-encodes to the same bytes |
| WitnessCodecs.StatementWithinCap | crates/did-mini/src/witness.rs:400-404 | every valid statement fits the ceiling on encoded statements |
| WitnessCodecs.ReceiptWithinCap | crates/did-mini/src/witness.rs:371-398 | every valid receipt fits the ceiling on encoded receipts |
| WitnessJournals.JournalNeverEquivocates | crates/did-mini/src/witness_state.rs:236-521 | over every interleaving of observations and certifications below the last sequence number, all receipts for one identity and sequence carry one digest and no two make an equivocation proof |
| WitnessJournals.RunInv | crates/did-mini/src/witness_state.rs:193-339 | everything ever signed is at or behind the accepted head, or is its one reserved successor |
| WitnessJournals.AdvanceHead | crates/did-mini/src/witness_state.rs:275-339 | moving the head keeps the account when any reservation for the old head is honoured |
| WitnessJournals.ReserveSuccessor | crates/did-mini/src/witness_rotation.rs:155-186 | certifying one successor of the head keeps the account when no other was certified |
| WitnessJournals.ConflictYieldsProof | crates/did-mini/src/witness_state.rs:236-339 | in every reachable journal a conflicting event at the accepted sequence yields its duplicity proof and changes nothing |
| WitnessMeaning.AcceptedExactly | crates/did-mini/src/witness_state.rs:236-339 | an event is accepted if and only if the signer is a member and the event is first seen, or directly follows the accepted head with no other successor certified; the receipt states the event field by field and only this identity's head moves |
| WitnessMeaning.OtherReplies | crates/did-mini/src/witness_state.rs:236-339 | duplicate, stale, conflicting descendant, reserved successor, foreign signer and malformed identifier are each answered under their exact condition |
| WitnessMeaning.VerifiedLogExactly | crates/did-mini/src/witness_state.rs:353-364 | a log's head is accepted if and only if the log verifies and the head itself is acceptable |
| WitnessMeaning.DeclaredExactly | crates/did-mini/src/witness_state.rs:383-396 | the same, under the policy the log declares, which must exist |
| WitnessMeaning.CertifiedExactly | crates/did-mini/src/witness_rotation.rs:129-186 | a transition is certified if and only if the log verifies, its head directly follows the retained state, the signer belongs to the retiring policy, the policy changes, and no other successor is certified |
| WitnessMeaning.CertificationEffect | crates/did-mini/src/witness_rotation.rs:160-186 | the certification signs for the head, field by field, under the retiring generation, reserves it, and leaves every head in place |
| WitnessMeaning.EquivocationIff | crates/did-mini/src/witness_state.rs:504-520 | two receipts make an equivocation proof if and only if one signer gave one place in one log, under one generation, two digests |
| WitnessMeaning.DuplicityIff | crates/did-mini/src/witness_state.rs:430-445 | two events make a duplicity proof if and only if they differ and claim one place in the named identity's log |
| WitnessOverflow.FullLapEquivocates | crates/did-mini/src/witness_state.rs:275-339 | without the bound on sequence numbers two issued receipts assemble into an equivocation proof |
| WitnessOverflow.SequenceBoundIsExact | crates/did-mini/src/witness_state.rs:236-339 | runs presenting sequence numbers up to a bound never equivocate if and only if the bound is below the last sequence number |
| WitnessLaps.ShortRunNeverEquivocates | crates/did-mini/src/witness_state.rs:236-339 | no run of at most 2^64 calls hands out two receipts that make an equivocation proof, whatever sequence numbers it presents |
| WitnessLaps.LengthBoundIsExact | crates/did-mini/src/witness_state.rs:236-339 | runs of at most n calls never equivocate if and only if n is at most 2^64 |
| WitnessJournalObjects.WitnessJournal.ObserveEvent | crates/did-mini/src/witness_state.rs:236-339 | the method updates its maps as the specified step and returns its observation |
| WitnessJournalObjects.WitnessJournal.ObserveVerifiedLog | crates/did-mini/src/witness_state.rs:353-364 | the log is verified before its head is observed |
| WitnessJournalObjects.WitnessJournal.ObserveDeclaredLog | crates/did-mini/src/witness_state.rs:383-396 | the policy used is the one the verified log itself declares |
| WitnessJournalObjects.WitnessJournal.CertifyPolicyTransition | crates/did-mini/src/witness_rotation.rs:129-186 | certification checks run in order, then the successor is recorded with its receipt |
| WitnessRotations.QuorumAgreement | crates/did-mini/src/witness_rotation.rs:206-242 | when at most f members do anything but run the journal and 2 * threshold > n + f, two verified certificates for one identity and sequence name one event |
| WitnessRotations.RivalTransitionsCoincide | crates/did-mini/src/witness_rotation.rs:206-242 | under that bound two logs extending one predecessor that both pass the transition check are the same log |
| WitnessRotations.TransitionMeaning | crates/did-mini/src/witness_rotation.rs:206-242 | a passing transition has a verified log, a prefix policy equal to the supplied one, a real policy change and a certificate of the retiring members for its head |
| WitnessMeaning.TransitionIff | crates/did-mini/src/witness_rotation.rs:206-242 | a transition passes if and only if the log verifies, its prefix declares the earlier policy, its head changes it, and that policy's certificate of the head verifies |
| WitnessMeaning.RotationIff | crates/did-mini/src/witness_rotation.rs:264-293 | a rotation passes if and only if the transition does and any incoming policy certified the head too |
| WitnessRecovery.RotationHasBothQuorums | crates/did-mini/src/witness_rotation.rs:264-293 | a passing rotation has a retiring quorum and, when a successor policy exists, an incoming quorum, both for the head event |
| WitnessRecovery.RunVerifyRecovery | crates/did-mini/src/witness_rotation.rs:461-525 | the loop growing the set of distinct witnesses returns the specified verdict, first failing attestation first |
| WitnessRecovery.RecoveryMeaning | crates/did-mini/src/witness_rotation.rs:461-525 | a passing recovery shows enough distinct old members unreachable for long enough, under the keys before the recovery event, and carries any required readiness quorum |
| WitnessMeaning.RecoveryIff | crates/did-mini/src/witness_rotation.rs:461-525 | a recovery passes if and only if the log verifies and changes the policy, the keys in control before the head signed every attestation of a member's long enough absence, enough distinct members are attested absent, and any incoming policy is ready |
| WitnessRecovery.AttestationInjective | crates/did-mini/src/witness_rotation.rs:397-409 | a controller's signature covers exactly one absence attestation |
| WitnessRecovery.RecoveryTrustsItsCaller | crates/did-mini/src/witness_rotation.rs:461-525 | a recovery that passes also passes with a member added to the earlier policy its caller names, and no declared prefix policy agrees with both |
| SettlementLaws.RunConserves | tools/f5_phase2_model.py:734-975 | after every run payer balances keep their sum, each budget is what remains plus what was paid and never overdrawn, every volume is the sum over its records, records match events and rate tags one to one, and retained keys stay within bounds |
| SettlementLaws.AcceptedExactly | tools/f5_phase2_model.py:763-934 | a claim is newly accepted if and only if its policy is registered, it is well formed for it, timely, evidenced, unused, within every limit and funded, and was not accepted before |
| SettlementMeaning.AcceptanceMoves | tools/f5_phase2_model.py:879-934 | an accepted requester-funded claim moves its amount from funder to provider and touches no other account; a budgeted one credits the provider's receipts and draws on its own policy alone; record, keys, volumes and outcome are those of the claim |
| SettlementMeaning.AccountsAddUp | tools/f5_phase2_model.py:763-934 | over every run each provider's receipts are the sum of the budgeted claims accepted in its name, and each account holds its first balance plus what was paid to it minus what was spent from it |
| SettlementMeaning.RegisteredExactly | tools/f5_phase2_model.py:734-749 | a policy is registered if and only if it is valid and no other holds its commitment, its budget starts once, and no other policy is touched |
| SettlementLaws.OnlyAcceptanceChanges | tools/f5_phase2_model.py:772-812 | a submission that is not newly accepted changes the attempted volume only and spends nothing |
| SettlementLaws.TransferKeepsTotal | tools/f5_phase2_model.py:880-889 | a transfer keeps the sum of balances, self-payment included |
| SettlementLaws.PassingIsAdmissible | tools/f5_phase2_model.py:814-877 | passing every check leaves room for the record: new event, unused tag, bounded keys, sufficient funds |
| SettlementLaws.RegisterInv | tools/f5_phase2_model.py:734-749 | registering a policy, new or again, keeps every invariant; a new budget starts whole |
| SettlementBatches.ResubmissionIsIdempotent | tools/f5_phase2_model.py:801-812 | an accepted claim sent again after any run, at any time, with any evidence, is reported accepted with the same finality reference and spends nothing |
| SettlementBatches.RunStaysSolvent | tools/f5_phase2_model.py:870-889 | payers that start without debt never go into debt |
| SettlementBatches.RunRemembers | tools/f5_phase2_model.py:734-934 | no run changes or forgets a registered policy or an accepted record |
| SettlementBatches.BatchOrderFree | tools/f5_phase2_model.py:936-956 | any permutation of a batch with distinct claim identifiers gives the same ledger and the same outcomes |
| SettlementBatches.BatchIsRun | tools/f5_phase2_model.py:936-956 | a batch is the run of its claims, each exactly once, in the order of their identifiers, and answers each as that run does |
| SettlementObjects.SettlementModel.RegisterPolicy | tools/f5_phase2_model.py:734-749 | the method registers as specified and touches nothing but policies and budgets |
| SettlementObjects.SettlementModel.SubmitClaim | tools/f5_phase2_model.py:763-934 | the method with its ordered checks and one mutation block is the specified submission step |
| SettlementObjects.SettlementModel.CheckRest | tools/f5_phase2_model.py:814-877 | the later checks refuse with the first applicable code |
| SettlementObjects.SettlementModel.SettleClaim | tools/f5_phase2_model.py:879-919 | the mutation block moves funds, volumes and archive by one record |
| SettlementObjects.SettlementModel.SubmitCanonicalBatch | tools/f5_phase2_model.py:936-956 | the batch loop submits in canonical order and collects the outcomes |
| SettlementObjects.TotalOf | tools/f5_phase2_model.py:723 | the constructor's sum is the sum over all balances |
| Audit.MissNearExact | tools/f5_phase2_model.py:1095-1099 | after n rounding steps the miss value is within n / 2 units of scale * (1 - p)^n |
| Audit.MissRange | tools/f5_phase2_model.py:1095-1099 | the miss value never exceeds the scale |
| Audit.DetectionNearExact | tools/f5_phase2_model.py:1085-1101 | the result is in 0..10000 and within 1/2 + n / 200000 basis points of the exact probability |
| Audit.DetectionMonotone | tools/f5_phase2_model.py:1085-1101 | the result never falls when the sample rate or the number of claims rises |
| Audit.CapNeverBites | tools/f5_phase2_model.py:1101 | the final cap at 10000 changes no result |
| Audit.AuditDetection | tools/f5_phase2_model.py:1085-1101 | the loop computes the specified value and rejects inputs out of range |
| PeerBooks.ExtendsIsPrefix | crates/mini-app-service/src/delivery_peers.rs:127-132 | on verified logs comparing one digest is equivalent to being an event prefix |
| PeerBooks.RunKeepsBook | crates/mini-app-service/src/delivery_peers.rs:144-360 | over every run with failing writes, every record is verified and enabled only while its root delegates its device, roots are unique across labels, the size bound holds and reopening succeeds |
| PeerBooks.StoredPeersTrusted | crates/mini-app-service/src/delivery_peers.rs:185-354 | on every disk a run leaves, each peer sits under its own label with verified logs, a device that names its root, a root no other label has, and is enabled only while delegated |
| PeerBooks.ClosedBookStays | crates/mini-app-service/src/delivery_peers.rs:185-242 | a directory that does not validate stays closed and untouched, whatever is asked of it afterwards |
| PeerBooks.HistoriesOnlyGrow | crates/mini-app-service/src/delivery_peers.rs:258-360 | over every run each label's stored root and device histories only grow |
| PeerBooks.NoCollisionSuffices | crates/mini-app-service/src/delivery_peers.rs:127-132 | for the real checks the growth theorem needs only that the logs involved do not collide |
| PeerBooks.TrustOfIsSound | crates/mini-app-service/src/delivery_peers.rs:71-110 | any log the real parser accepts reads back from a stored record |
| PeerBooks.AuthorizeReply | crates/mini-app-service/src/delivery_peers.rs:283-354 | a refusal changes nothing, success stores exactly the returned record, and only a write that failed poisons the book |
| PeerBooks.RevokeReply | crates/mini-app-service/src/delivery_peers.rs:355-359 | revoking disables exactly the stored record, with the same guarantees |
| PeerBooks.AuthorizedExactly | crates/mini-app-service/src/delivery_peers.rs:283-354 | authorization succeeds if and only if the logs, labels, histories and limits allow it; the stored peer has the presented logs and is enabled exactly if the root delegates the device, and a withdrawn peer is kept disabled |
| PeerBooks.RevokedExactly | crates/mini-app-service/src/delivery_peers.rs:355-359 | revoking succeeds if and only if the book is healthy and has the label, and disables that record alone |
| PeerBookObjects.PeerBook.Open | crates/mini-app-service/src/delivery_peers.rs:178-184 | a book opens if and only if everything in it validates |
| PeerBookObjects.PeerBook.List | crates/mini-app-service/src/delivery_peers.rs:185-242 | the scan succeeds if and only if the book is healthy and valid, and then returns every record once, by label; otherwise which of the two errors |
| PeerBookObjects.PeerBook.Store | crates/mini-app-service/src/delivery_peers.rs:258-282 | the write poisons first, checks, replaces and heals, as the specified step |
| PeerBookObjects.PeerBook.AuthorizePeer | crates/mini-app-service/src/delivery_peers.rs:283-354 | the method is the specified authorization step |
| PeerBookObjects.PeerBook.RevokePeer | crates/mini-app-service/src/delivery_peers.rs:355-359 | the method is the specified revocation step |
| BetaJournals.AtMostOneObject | crates/mini-app-service/src/beta_journal.rs:197-284 | over every run, crashed anywhere and retried at will, an operation id puts at most one object into the store |
| BetaJournals.ReuseIsRefused | crates/mini-app-service/src/beta_wallet.rs:265-285 | once an id stands for some content, other content under it is refused after any run and changes nothing |
| BetaJournals.CompleteConverges | crates/mini-app-service/src/beta_journal.rs:223-259 | completing again after a crash at any step reaches the same disk and the same receipt |
| BetaJournals.RetryAfterCrash | crates/mini-app-service/src/beta_wallet.rs:265-296 | after a crash anywhere past journaling, asking again returns the original receipt whatever would be signed now |
| BetaJournals.KnownIsAnswered | crates/mini-app-service/src/beta_wallet.rs:265-296 | an id that stands for something is refused if and only if it stands for other content, and a receipted one is answered from its receipt with nothing changed |
| BetaJournals.NewIsRecorded | crates/mini-app-service/src/beta_journal.rs:200-259 | a new id, once recovery is through, succeeds if and only if its record can be written and completed, and then has its object in the store, its receipt field by field, its marker if it registers, and no pending file |
| BetaPending.AtMostOnePending | crates/mini-app-service/src/beta_journal.rs:261-284 | when each scan lists the pending directory in full, at most one record is pending on every disk any crashing run can reach |
| BetaPending.LimitNeverMet | crates/mini-app-service/src/beta_journal.rs:272-278 | so no call of such a run is refused for too many pending records |
| BetaJournals.RunSafe | crates/mini-app-service/src/beta_journal.rs:197-284 | every disk a crash can leave is consistent, and no later run loses or changes what an id stands for |
| BetaCodecs.PendingRoundTrip | crates/mini-app-service/src/beta_journal.rs:105-148 | an encoded pending record decodes to itself |
| BetaCodecs.PendingCanonical | crates/mini-app-service/src/beta_journal.rs:105-148 | every accepted pending file is the encoding of its record |
| BetaCodecs.ReceiptRoundTrip | crates/mini-app-service/src/beta_journal.rs:150-186 | an encoded receipt decodes to itself |
| BetaCodecs.ReceiptCanonical | crates/mini-app-service/src/beta_journal.rs:150-186 | every accepted receipt file is the encoding of its receipt |
| BetaCodecs.CodecsAreSound | crates/mini-app-service/src/beta_journal.rs:105-186 | the journal theorems' assumption on record files holds of these byte formats |
| BetaJournalObjects.Journal.CompleteRecord | crates/mini-app-service/src/beta_journal.rs:223-259 | with any number of durable steps before the failure, the method stops at exactly that point of the specified sequence |
| BetaJournalObjects.Journal.CommitAllPending | crates/mini-app-service/src/beta_journal.rs:263-284 | the recovery scan, cut off after any number of durable steps, leaves the specified disk |
| BetaJournalObjects.Journal.OperateOnce | crates/mini-app-service/src/beta_wallet.rs:265-296 | one whole operation, replayed or journaled and committed, follows the specified sequence |
| PayoutJournals.RunAdvances | crates/mini-airdrop-treasury/src/payout_journal.rs:214-332 | over every run of sessions and failures the phase never falls and configuration and recorded claim never change |
| PayoutJournals.OneClaimDispatched | crates/mini-airdrop-treasury/src/payout_journal.rs:281-303 | at most one distinct claim is ever dispatched; it is the one on disk and matches the configured payout |
| PayoutJournals.DurableBeforeDispatch | crates/mini-airdrop-treasury/src/payout_journal.rs:301-302 | a claim is first dispatched only by a call that has already recorded it durably as submitted |
| PayoutJournals.FinalizedOnlyFromChain | crates/mini-airdrop-treasury/src/payout_journal.rs:307-332 | the finalized phase is first written only when the canonical digest at the claim's sequence is that claim's |
| PayoutJournals.DispatchedExactly | crates/mini-airdrop-treasury/src/payout_journal.rs:281-305 | a claim is dispatched if and only if it pays the approved outcome, the payout is authorized or this very claim was recorded, and its record is durable |
| PayoutJournals.SubmitRefusals | crates/mini-airdrop-treasury/src/payout_journal.rs:281-305 | a pending payout and a different recorded claim are each refused under their exact condition, and a final one is left alone |
| PayoutJournals.AuthorizedExactly | crates/mini-airdrop-treasury/src/payout_journal.rs:267-279 | authorization needs the matching approval, lifts a pending payout and never alters a later one |
| PayoutJournals.OpenedExactly | crates/mini-airdrop-treasury/src/payout_journal.rs:214-258 | a journal opens if and only if its configuration is well formed and its file, new or old, reads back under it |
| PayoutJournals.ReconciledExactly | crates/mini-airdrop-treasury/src/payout_journal.rs:307-332 | finalization, a consumed sequence, a canonical rejection and no news are each answered under their exact condition |
| PayoutJournals.NothingWithoutApproval | crates/mini-airdrop-treasury/src/payout_journal.rs:267-305 | whatever a run dispatched was approved, campaign and outcome alike, by an earlier call of that run |
| PayoutJournals.OtherConfigRefused | crates/mini-airdrop-treasury/src/payout_journal.rs:214-257 | after any run, opening under another outcome, payer or network is refused and changes nothing |
| PayoutFiles.BindingPrefixFree | crates/mini-airdrop-treasury/src/payout_journal.rs:239-242 | bindings are prefix-free: a file that starts with one starts with no other |
| PayoutFiles.FileReadsBack | crates/mini-airdrop-treasury/src/payout_journal.rs:353-408 | a readable file was written under the reader's configuration and reads back as written |
| PayoutFiles.FileReadable | crates/mini-airdrop-treasury/src/payout_journal.rs:353-408 | a written file is readable if and only if it is within the size limits and has a valid claim exactly in the phases that need one |
| PayoutFiles.FileCanonical | crates/mini-airdrop-treasury/src/payout_journal.rs:353-408 | any file that reads is, byte for byte, what writing its content under that configuration produces |
| PayoutFiles.FileEnvSound | crates/mini-airdrop-treasury/src/payout_journal.rs:353-408 | the journal theorems' assumption on record files holds of this byte format |
| PayoutJournalObjects.PayoutJournal.OpenFile | crates/mini-airdrop-treasury/src/payout_journal.rs:214-257 | the method is the specified opening step |
| PayoutJournalObjects.PayoutJournal.AuthorizePayout | crates/mini-airdrop-treasury/src/payout_journal.rs:267-276 | the method is the specified authorization step |
| PayoutJournalObjects.PayoutJournal.SubmitClaim | crates/mini-airdrop-treasury/src/payout_journal.rs:281-303 | the method is the specified submission step, dispatch last |
| PayoutJournalObjects.PayoutJournal.ReconcileWith | crates/mini-airdrop-treasury/src/payout_journal.rs:307-332 | the method is the specified reconciliation step |
| Eviction.CollectExpired | crates/mini-app-service/src/cache_policy.rs:142-163 | the scan collects only expired foreign objects, at most 2000, and all of those examined unless it stops at the limit |
| Eviction.PullInChunks | crates/mini-app-service/src/cache_policy.rs:167-183 | exactly the expired objects and the foreign chunks of expired manifests become candidates |
| Eviction.CloseUnderLinks | crates/mini-app-service/src/cache_policy.rs:184-204 | the loop terminates with the greatest subset of the candidates that nothing outside links to, in any visiting order |
| Eviction.GreatestUnique | crates/mini-app-service/src/cache_policy.rs:184-204 | there is only one such subset |
| Eviction.SelectEvictions | crates/mini-app-service/src/cache_policy.rs:129-204 | one pass selects the greatest closed subset of its candidates, and nothing under "never" |
| Eviction.EvictionIsSafe | crates/mini-app-service/src/cache_policy.rs:142-204 | only foreign cache goes, with all its linkers; what has not itself expired is a chunk that goes with its expired manifest |
| Eviction.ExpiredExactly | crates/mini-app-service/src/cache_policy.rs:142-163 | an object has expired if and only if it is somebody else's readable cache of an evictable kind, first seen long enough ago |
| Eviction.PressureShortens | crates/mini-app-service/src/cache_policy.rs:69-81 | pressure only shortens retention, to seven days and one day, and "never" stays never |
| CoinSelection.SelectInputs | crates/mini-app-service/src/beta_wallet.rs:736-767 | the loop chooses the fewest inputs of any covering selection, none redundant, reports too many or insufficient inputs only when no admissible selection covers the amount, and the inputs equal amount plus change whenever the account's unspent total is a `u64` |
| CoinSelection.ResolveBalances | crates/mini-beta-exec/src/lib.rs:571-594 | the checked running sums succeed if and only if every account's unspent outputs sum to a `u64`, and are then those sums |
| CoinSelection.PlanTransfer | crates/mini-app-service/src/beta_wallet.rs:694-767 | resolver, balance check and selection together: inputs always equal amount plus change, a sufficient balance never runs out of outputs, and each refusal has its exact condition |
| CoinSelection.LargestAreBest | crates/mini-app-service/src/beta_wallet.rs:741-763 | no k of the outputs are worth more than the k largest |
| CoinSelection.LargestFirstOrder | crates/mini-app-service/src/beta_wallet.rs:741-751 | outputs are taken by falling amount, then by source, then by index |
| CoinSelection.ListingIrrelevant | crates/mini-app-service/src/beta_wallet.rs:741-751 | the order in which outputs are listed does not affect the order in which they are taken |
| CoinSelection.SpendableMeaning | crates/mini-app-service/src/beta_wallet.rs:736-740 | exactly the account's unspent outputs are considered |
| ClaimRegistries.RunRefines | crates/mini-airdrop/src/file_registry.rs:139-171 | any interleaving of locked calls from any registries over one directory represents the in-memory registry called in lock order |
| ClaimRegistries.AnswersRefine | crates/mini-airdrop/src/registry.rs:124-148 | every answer given is the in-memory registry's answer at that moment |
| ClaimRegistries.RetryAnswered | crates/mini-airdrop/src/file_registry.rs:139-171 | a granted reservation answers every later call under its key in any run: the same outcome is a retry, another is refused |
| ClaimRegistries.RepliesAreExact | crates/mini-airdrop/src/file_registry.rs:139-171 | when no write fails and no two keys share a file, every reply, refusals included, is the one the map gives to the same calls |
| ClaimRegistries.FirstCallDecides | crates/mini-airdrop/src/file_registry.rs:139-171 | then the first call for a key is granted, later ones are retries if they agree with it and refused otherwise |
| ClaimRegistries.OneOutcomePerIdentity | crates/mini-airdrop/src/file_registry.rs:139-171 | two successful reservations of one campaign and identity carry one outcome digest |
| ClaimRecords.RecordReadsBack | crates/mini-airdrop/src/file_registry.rs:68-122 | a record is readable exactly by its own campaign and identity, when it fits, and as it was written |
| ClaimRecords.RecordCanonical | crates/mini-airdrop/src/file_registry.rs:85-122 | any file that reads as a reservation is, byte for byte, the record of that reservation |
| ClaimRecords.RecordAlwaysFits | crates/mini-airdrop/src/file_registry.rs:85-93 | every record the registry can write is within the 2048-byte read limit |
| ClaimRecords.RecordEnvSound | crates/mini-airdrop/src/file_registry.rs:68-122 | the refinement's assumption on record files holds of this byte format, whatever the path and checksum functions do |
| AirdropAwards.AwardsWithinTreasury | crates/mini-airdrop/src/claim.rs:147-191 | however claims interleave, fail or repeat, no identity is awarded two outcomes and the awards sum to no more than the snapshot allocates, hence than a balance that covers it |
| Payouts.PayoutsWithinTreasury | crates/mini-airdrop-treasury/src/payout_journal.rs:214-332 | over every interleaving of claims and payouts, crashed and reopened at will, the claims all journals of a campaign dispatch sum to no more than its snapshot allocates |
| Payouts.RunAccounted | crates/mini-airdrop-treasury/src/payout_journal.rs:212-250 | every journal sits under the name of its campaign and identity and has dispatched nothing but an awarded outcome |
| AirdropAwards.OutcomeBytesInjective | crates/mini-airdrop/src/claim.rs:112-122 | distinct outcomes have distinct digest inputs |
| AirdropAwards.MessageInjective | crates/mini-airdrop/src/claim.rs:60-94 | a claimant's signature covers exactly one request |
| AirdropAwards.ResolvedExactly | crates/mini-airdrop/src/claim.rs:147-191 | a claim resolves if and only if its campaign and recipient fit, the keys in control of the named identity signed this request to their threshold, and the snapshot has an entry for it, whose amount it gets |
| AirdropAwards.ClaimAnswered | crates/mini-airdrop/src/claim.rs:147-191 | the first claim for an entry is granted, repeating it is answered alike, and any other outcome is refused |
| AirdropAwards.TotalAllocated | crates/mini-airdrop-treasury/src/reconciliation.rs:25-33 | the checked running total is the sum, or overflow is reported exactly when the sum is no `u64` |
| AirdropAwards.CheckWithinTreasury | crates/mini-airdrop-treasury/src/reconciliation.rs:37-49 | the check passes if and only if the balance covers the sum |
| Airdrop.SnapshotBuilder.Add | crates/mini-airdrop/src/snapshot.rs:91-101 | an entry is added exactly when it is non-zero, short enough, new and within the limit, and each of the four errors has its exact condition |
| Airdrop.SnapshotBuilder.Build | crates/mini-airdrop/src/snapshot.rs:116-123 | the snapshot holds exactly the added entries, one per identity, in identity order |
| Airdrop.BuildIsDeterministic | crates/mini-airdrop/src/snapshot.rs:112-123 | the same entries in any order build the same snapshot |
| ClaimRegistryObjects.InMemoryRegistry.TryReserve | crates/mini-airdrop/src/registry.rs:124-148 | the method is the specification's reservation step |
| ClaimRegistryObjects.FileRegistry.TryReserve | crates/mini-airdrop/src/file_registry.rs:139-171 | the locked method is one transaction on the directory it shares with other registries |
| ClaimRegistryObjects.VerifyAndResolveClaim | crates/mini-airdrop/src/claim.rs:147-191 | nothing is reserved unless every check passed and nothing is returned unless it was reserved |
| ClaimRegistryObjects.FindEntry | crates/mini-airdrop/src/snapshot.rs:144-154 | the linear search returns the first entry for the identity |

## Left out

- Real cryptography: hashing, signing, key derivation and zeroization are parameters; signatures are ideal, digests injective where a theorem says so.
- Error payloads: errors carry no field names, limits or counts.
- File-system detail: paths, symlink checks, temporary files and orphan removal, fsync and lock implementation; a directory is a map from names to bytes and a locked call is one step.
- PeerBooks: the record file's byte format belongs to the application protocol crate and is not part of this model; a stored record is a value that must pass the read-back checks.
- Settlement policies: the privacy declaration enters as its leakage score, and canonical JSON as commitment and size functions.
- Settlement reporting: fixed vectors, gates, audit sampling by seed and allegation handling.
- BetaJournals: publishing identity logs before journaling and the account-marker listing are not modelled; the store is a set of object bytes.
- CoinSelection.PlanTransfer: how the resolver decides which outputs exist and are spent, and the account-conflict check before the balance check, are not modelled; it starts from the resolved outputs.
- Payouts.PayoutsWithinTreasury: assumes that the treasury approves, for the campaign, only outcomes a claim was resolved to; counting the approving signers is not modelled.
- Eviction: the store's own re-checks, eviction markers and freed-byte count; object identifiers are values, whose text always parses back.
- WitnessRotations: `same_witness_set` is stated as equality of the two lists up to order, which is what comparing sorted copies decides.
- WitnessRotations.QuorumAgreement: unforgeability is the assumption that a verifying receipt of a journal-running member covers bytes its journal signed.
- Witness transport, gossip, freshness and assurance wrappers, device tiers, identity modes and pairwise pseudonyms: short functions over the modelled core.
- Advisory human status in airdrop entries, the snapshot digest, and treasury approval counting.
