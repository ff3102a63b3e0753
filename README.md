# Confidential transfer with fee: a verified model

This project models the integer and bookkeeping core of the `TransferWithFeeData` instruction
of the Solana zk-token SDK (`zk-token-sdk/src/instruction/transfer_with_fee.rs`). A
confidential transfer carries the amount split into two 32-bit limbs, each encrypted under the
source, destination and auditor keys. It also carries a fee, rounded up from a rate in basis
points and capped at a maximum, encrypted under the destination and fee-collector keys. Beside
those it holds the new source balance ciphertext and one bundled proof made of five sub-proofs:
equality, aggregated validity, fee sigma, fee validity and a 256-bit range proof. All five
sub-proofs run on one Fiat-Shamir transcript.

The model covers these parts:

- **Fee arithmetic.** This is `calculate_fee`, with its 128-bit product, its truncating `as u64`
  cast and its `fee + 1`. It also covers the constant-time cap `min(fee, maximum_fee)` and the
  `checked_sub` of the balance.
- **Delta commitment.** These are the prover-side and verifier-side functions. They are modelled
  over a linear Pedersen model: a group element is its pair of coefficients over the generators G
  and H, so a commitment to value v with opening o is the pair (v, o). An ElGamal decrypt handle
  is the opening times the public key.
- **Transcript orchestration.** `transcript_new`, `TransferWithFeeProof::new` and
  `TransferWithFeeProof::verify` are methods over a `Transcript` object whose state is its log of
  labelled messages. The five sub-proofs are opaque provers and verifiers that read that log and
  append to it.
- **Byte layouts.** These are the 10-byte `FeeParameters`, the 128-byte `TransferWithFeePubkeys`
  and the 96-byte `FeeEncryption`. The last two fill a buffer in place with successive
  `copy_from_slice` calls. Each 32-byte element codec is a parameter.
- **Instruction data.** This covers `TransferWithFeeData::new` and `verify`, together with the
  per-role `ciphertext_lo`/`ciphertext_hi` and `decrypt_amount`.

The central result is `TransferWithFee.GenerateThenVerify`. Assume the sub-proofs are complete
and every encoding decodes back. Then a payload generated from an old ciphertext that really
encrypts the spendable balance, at a rate of at most 100%, verifies.

Proving this needed two corrections to the source, recorded under "## Findings". Both the
as-written behaviour and the corrected one are modelled. Generation in the model uses the
corrected values.

Two facts about the code shape the model:

- The transcript does not absorb the fee parameters (lines 273-278).
- Each amount encryption carries three handles: source, destination and auditor.

## Model

| member | source | states |
|---|---|---|
| FeeArithmetic.CeilingFee | zk-token-sdk/src/instruction/transfer_with_fee.rs:613-624 | definition, no contract of its own: the reference ceiling of amount·rate/10000 over unbounded integers, against which `CalculateFeeIsCeiling` and `CalculateFeeNoOverflow` measure `calculate_fee` |
| FeeArithmetic.CalculateFeeAsWritten | zk-token-sdk/src/instruction/transfer_with_fee.rs:613-624 | definition, no contract of its own: `calculate_fee` as written, with the 128-bit product, the truncating `as u64` cast, the `fee + 1` taken modulo 2^64 and `rem` as the second result; its properties are the rows below |
| FeeArithmetic.CalculateFee | zk-token-sdk/src/instruction/transfer_with_fee.rs:613-624 | definition, no contract of its own: the same fee with the rounding gap the delta commitment commits to as the second result (see "## Findings"); `CalculateFeeDelta` and `DeltaFeeBounded` state what it is |
| FeeArithmetic.CalculateFeeIsCeiling | zk-token-sdk/src/instruction/transfer_with_fee.rs:613-624 | the remainder is `(amount·rate) mod 10000`, below 10000; the floor quotient plus one is the ceiling exactly when the remainder is nonzero; the fee is the ceiling of amount·rate/10000 reduced mod 2^64 (the `as u64` cast and `fee + 1`) |
| FeeArithmetic.CalculateFeeNoOverflow | zk-token-sdk/src/instruction/transfer_with_fee.rs:614-622 | for rates up to 10000 the floor quotient is at most the amount, `fee + 1` stays within the amount, so neither the cast nor the increment wraps and the fee is the exact ceiling, never above the amount |
| FeeArithmetic.CalculateFeeExample | zk-token-sdk/src/instruction/transfer_with_fee.rs:662-690 | a transfer of 100 at 100 basis points gives fee 1 with no remainder, as in the source's test |
| FeeArithmetic.CeilingFeeBounds | zk-token-sdk/src/instruction/transfer_with_fee.rs:613-624 | the reference ceiling q satisfies q·10000 − 10000 < amount·rate ≤ q·10000 |
| FeeArithmetic.CalculateFeeDelta | zk-token-sdk/src/instruction/transfer_with_fee.rs:613-624 | for rates up to 10000 the corrected `delta_fee` is fee·10000 − amount·rate, which is 0 when the remainder is 0 and 10000 − remainder otherwise, and below 10000 |
| FeeArithmetic.DeltaFeeBounded | zk-token-sdk/src/instruction/transfer_with_fee.rs:357 | both the as-written and the corrected `delta_fee` are below 10000, so `FEE_DENOMINATOR - delta_fee` never underflows |
| FeeArithmetic.CtGt | zk-token-sdk/src/instruction/transfer_with_fee.rs:117 | definition, no contract of its own: `u64::ct_gt(x, y)` is the choice x > y |
| FeeArithmetic.ConditionalSelect | zk-token-sdk/src/instruction/transfer_with_fee.rs:118-119 | definition, no contract of its own: `conditional_select(a, b, choice)` is b when the choice is set and a otherwise |
| FeeArithmetic.FeeToEncrypt | zk-token-sdk/src/instruction/transfer_with_fee.rs:117-119 | the selected fee is `min(fee, maximum_fee)`: at most both, equal to one of them, the fee when it is below the maximum and the maximum otherwise |
| FeeArithmetic.SwappedSelectIsMaximum | zk-token-sdk/src/instruction/transfer_with_fee.rs:120 | the commented-out variant with swapped arguments would compute the maximum of the two instead |
| FeeArithmetic.NewSpendableBalance | zk-token-sdk/src/instruction/transfer_with_fee.rs:95-98 | succeeds exactly when the amount is at most the balance, with the new balance plus the amount equal to the old balance; otherwise a Generation error |
| AmountCodec.Split | zk-token-sdk/src/instruction/transfer_with_fee.rs:80 | definition, no contract of its own: `split_u64_into_u32` gives (amount mod 2^32, amount div 2^32); `CombineSplit` and `SplitCombine` state that it inverts `Combine` |
| AmountCodec.Combine | zk-token-sdk/src/instruction/transfer_with_fee.rs:214 | definition, no contract of its own: the value lo + 2^32·hi that `combine_u32_*` compute on commitments, openings and ciphertexts |
| AmountCodec.CombineSplit | zk-token-sdk/src/instruction/transfer_with_fee.rs:80 | recombining the two limbs of a split u64 as lo + 2^32·hi gives the amount back |
| AmountCodec.SplitCombine | zk-token-sdk/src/instruction/transfer_with_fee.rs:214 | for u32 limbs lo + 2^32·hi lies below 2^64 and splits back into the same limbs |
| AmountCodec.CombineFits | zk-token-sdk/src/instruction/transfer_with_fee.rs:214 | for u32 limbs `2^32 * hi` and the sum `lo + 2^32 * hi` fit in a u64 |
| Algebra.CombineCommitmentsOpens | zk-token-sdk/src/instruction/transfer_with_fee.rs:636 | combining commitments to lo and hi gives a commitment to lo + 2^32·hi under the combined opening |
| Algebra.CombineCiphertextsEncrypts | zk-token-sdk/src/instruction/transfer_with_fee.rs:110-111 | combining two limb ciphertexts under one key gives a ciphertext of lo + 2^32·hi under that key |
| Algebra.CiphertextSubEncrypts | zk-token-sdk/src/instruction/transfer_with_fee.rs:110-111 | subtracting ciphertexts of x and y under one key gives a ciphertext of x − y |
| Algebra.AmountEncryptionNew | zk-token-sdk/src/instruction/transfer_with_fee.rs:81-92 | each limb encryption encrypts the limb under the source, destination and auditor key, with one shared commitment |
| DeltaCommitment.ComputeDeltaCommitmentAndOpening | zk-token-sdk/src/instruction/transfer_with_fee.rs:627-642 | definition, no contract of its own: commitment_fee·10000 − (commitment_lo + 2^32·commitment_hi)·rate and the same combination of the openings; `DeltaCommitmentOpens` states what it commits to |
| DeltaCommitment.ComputeDeltaCommitment | zk-token-sdk/src/instruction/transfer_with_fee.rs:645-655 | definition, no contract of its own: the commitment half alone, from public commitments; `DeltaCommitmentAgrees` ties it to the prover's version |
| DeltaCommitment.DeltaCommitmentAgrees | zk-token-sdk/src/instruction/transfer_with_fee.rs:627-655 | the verifier's `compute_delta_commitment` equals the commitment half of the prover's `compute_delta_commitment_and_opening` |
| DeltaCommitment.DeltaCommitmentOpens | zk-token-sdk/src/instruction/transfer_with_fee.rs:627-642 | on commitments to lo, hi and fee, the pair commits to fee·10000 − (lo + 2^32·hi)·rate with opening o_fee·10000 − (o_lo + 2^32·o_hi)·rate |
| DeltaCommitment.DeltaCommitsToRoundingGap | zk-token-sdk/src/instruction/transfer_with_fee.rs:627-642 | with the limbs of an amount and its uncapped fee, the delta commitment commits to 0 when the remainder is 0 and to 10000 − remainder otherwise |
| Records.CopyFromSlice | zk-token-sdk/src/instruction/transfer_with_fee.rs:487-490 | `buf[start..start+len].copy_from_slice(src)` replaces exactly that window of the buffer with src and leaves the rest unchanged |
| Records.FeeParametersBytes | zk-token-sdk/src/instruction/transfer_with_fee.rs:593-598 | definition, no contract of its own: the 10-byte layout, the little-endian rate followed by the little-endian maximum fee; the round-trip rows below are about it |
| Records.FeeParametersToBytes | zk-token-sdk/src/instruction/transfer_with_fee.rs:593-598 | fills a 10-byte buffer with the little-endian rate in bytes 0-1 and the little-endian maximum fee in bytes 2-9 |
| Records.FeeParametersFromBytes | zk-token-sdk/src/instruction/transfer_with_fee.rs:601-609 | reads the rate from bytes 0-1 and the maximum fee from bytes 2-9, little-endian |
| Records.FeeParametersRoundTrip | zk-token-sdk/src/instruction/transfer_with_fee.rs:593-609 | decoding the encoding of fee parameters gives them back |
| Records.FeeParametersBytesRoundTrip | zk-token-sdk/src/instruction/transfer_with_fee.rs:593-609 | encoding the decoding of any buffer of at least 10 bytes gives its first 10 bytes back |
| Records.PubkeysBytes | zk-token-sdk/src/instruction/transfer_with_fee.rs:485-492 | the 128-byte layout holds source, destination, auditor and fee-collector keys at offsets 0, 32, 64 and 96 |
| Records.PubkeysToBytes | zk-token-sdk/src/instruction/transfer_with_fee.rs:485-492 | `TransferWithFeePubkeys::to_bytes` fills the buffer with that layout |
| Records.PodPubkeysNew | zk-token-sdk/src/instruction/transfer_with_fee.rs:514-527 | `pod::TransferWithFeePubkeys::new` from four separate keys produces the same 128 bytes as `to_bytes` |
| Records.PubkeysFromBytes | zk-token-sdk/src/instruction/transfer_with_fee.rs:494-511 | any failure is a Verification error |
| Records.PubkeysFromBytesFails | zk-token-sdk/src/instruction/transfer_with_fee.rs:494-511 | decoding fails exactly when one of the four 32-byte chunks does not decode |
| Records.PubkeysRoundTrip | zk-token-sdk/src/instruction/transfer_with_fee.rs:485-511 | decoding the encoding of four keys whose element encodings decode back gives the keys |
| Records.PubkeysBytesRoundTrip | zk-token-sdk/src/instruction/transfer_with_fee.rs:485-511 | on canonical chunks, encoding the decoded keys gives the first 128 bytes back |
| Records.FeeEncryptionNew | zk-token-sdk/src/instruction/transfer_with_fee.rs:541-554 | the fee commitment commits to the amount under the opening, and both handles make it a ciphertext of the amount under the destination and fee-collector keys |
| Records.FeeEncryptionBytes | zk-token-sdk/src/instruction/transfer_with_fee.rs:556-562 | the 96-byte layout holds commitment, destination handle and fee-collector handle at offsets 0, 32 and 64 |
| Records.FeeEncryptionToBytes | zk-token-sdk/src/instruction/transfer_with_fee.rs:556-562 | `FeeEncryption::to_bytes` fills the buffer with that layout |
| Records.FeeEncryptionFromBytes | zk-token-sdk/src/instruction/transfer_with_fee.rs:564-579 | any failure is a Verification error |
| Records.FeeEncryptionFromBytesFails | zk-token-sdk/src/instruction/transfer_with_fee.rs:564-579 | decoding fails exactly when one of the three 32-byte chunks does not decode |
| Records.FeeEncryptionRoundTrip | zk-token-sdk/src/instruction/transfer_with_fee.rs:556-579 | decoding the encoding of a fee encryption whose elements decode back gives it back |
| Records.FeeEncryptionBytesRoundTrip | zk-token-sdk/src/instruction/transfer_with_fee.rs:556-579 | on canonical chunks, encoding the decoded fee encryption gives the first 96 bytes back |
| LittleEndian.FromLeToLe | zk-token-sdk/src/instruction/transfer_with_fee.rs:595-607 | reading back the n little-endian bytes of a value below 256^n gives the value |
| LittleEndian.ToLeFromLe | zk-token-sdk/src/instruction/transfer_with_fee.rs:595-607 | writing back the value of a byte string as little-endian bytes of the same length gives the string |
| Primitives.Pow2Widths | zk-token-sdk/src/instruction/transfer_with_fee.rs:360-361 | the bound of a 32-bit range proof is 2^32 and of a 64-bit one is 2^64 |
| Transcripts.Transcript.constructor | zk-token-sdk/src/instruction/transfer_with_fee.rs:273 | a new transcript's log holds only the domain separator |
| Transcripts.Transcript.AppendMessage | zk-token-sdk/src/instruction/transfer_with_fee.rs:275-278 | appends one labelled message to the end of the log and changes nothing else |
| Transcripts.Transcript.AppendEntries | zk-token-sdk/src/instruction/transfer_with_fee.rs:312-371 | appends the entries a sub-proof adds on its own to the end of the log and changes nothing else |
| SubProofs.Prove | zk-token-sdk/src/instruction/transfer_with_fee.rs:312-371 | a sub-proof prover reads the log as it stands and appends what the proof determines |
| SubProofs.Verify | zk-token-sdk/src/instruction/transfer_with_fee.rs:410-466 | a sub-proof verifier reads the log as it stands and appends the entries its proof bytes determine; that these are its prover's entries is an assumption (see "## Left out") |
| SubProofs.ProveAllReads | zk-token-sdk/src/instruction/transfer_with_fee.rs:312-371 | on one transcript the i-th prover reads the log extended by everything the earlier sub-proofs appended |
| SubProofs.VerifyAllReads | zk-token-sdk/src/instruction/transfer_with_fee.rs:410-468 | the short-circuiting chain of verifiers accepts exactly when every verifier accepts on the log extended by the earlier sub-proofs |
| SubProofs.ProveThenVerify | zk-token-sdk/src/instruction/transfer_with_fee.rs:312-371 | for complete sub-proofs, verifying the claims of true prover calls against the proofs generated from the same log accepts |
| FeeProof.PublicInputLog | zk-token-sdk/src/instruction/transfer_with_fee.rs:273-278 | the transcript holds the domain separator, then the pubkeys, lo ciphertext, hi ciphertext and fee ciphertext with their labels, in that order |
| FeeProof.TranscriptNew | zk-token-sdk/src/instruction/transfer_with_fee.rs:267-280 | `transcript_new` produces a fresh transcript with exactly that log |
| FeeProof.Prove | zk-token-sdk/src/instruction/transfer_with_fee.rs:302-381 | the proof stores the encodings of the new-source and claimed commitments, and its five sub-proofs are the provers run in order on the log extended by those two commitments |
| FeeProof.New | zk-token-sdk/src/instruction/transfer_with_fee.rs:285-382 | `TransferWithFeeProof::new` returns that proof and leaves the log extended by the two commitments and then by each sub-proof in order; it needs `delta_fee <= 10000` for line 357 |
| FeeProof.GenerationCalls | zk-token-sdk/src/instruction/transfer_with_fee.rs:312-371 | five prover calls in the source's order (equality, aggregated validity, fee sigma, validity, range); the range proof has widths [64, 32, 32, 64, 64], its last two values add up to 10000 and its last two openings to 0 |
| FeeProof.VerificationChecks | zk-token-sdk/src/instruction/transfer_with_fee.rs:410-466 | five verifier calls in the same order; the range check has widths [64, 32, 32, 64, 64] over five commitments whose last two add up to the commitment of 10000 with opening 0 |
| FeeProof.Check | zk-token-sdk/src/instruction/transfer_with_fee.rs:395-468 | verification succeeds exactly when both standalone commitments decode and the five verifiers accept in turn on the log extended by the two commitments; every failure is a Verification error (for the sub-verifiers' `?` an assumption, see "## Left out") |
| FeeProof.Verify | zk-token-sdk/src/instruction/transfer_with_fee.rs:384-469 | `TransferWithFeeProof::verify`, stopping at the first failure, returns what `Check` states, and on success leaves the log extended by the two commitments and by what each sub-proof absorbs; that generation leaves the same log rests on the shared-absorption assumption under "## Left out" |
| FeeProof.StatementsAgree | zk-token-sdk/src/instruction/transfer_with_fee.rs:285-469 | on matching ciphertexts, the claims the five provers prove equal the claims the five verifiers check, including the range widths, exactly when the fee handed to the prover is the fee the fee ciphertext encrypts |
| FeeProof.GenerationCallsHold | zk-token-sdk/src/instruction/transfer_with_fee.rs:312-371 | on matching ciphertexts every prover's witness satisfies its relation exactly when the new source ciphertext encrypts the new balance and either the fee ciphertext encrypts the maximum fee or `delta_fee` is what the delta commitment commits to |
| FeeProof.ProveThenCheck | zk-token-sdk/src/instruction/transfer_with_fee.rs:285-469 | a proof generated from satisfied witnesses, checked against exactly its claims from the same transcript state with both commitments decoding back, is accepted |
| TransferWithFee.LimbLo | zk-token-sdk/src/instruction/transfer_with_fee.rs:80-86 | the lo limb keeps the opening drawn for it, its commitment commits to the limb under that opening, and its source, destination and auditor handles each make a ciphertext of the limb under that key |
| TransferWithFee.LimbHi | zk-token-sdk/src/instruction/transfer_with_fee.rs:80-92 | the hi limb keeps the opening drawn for it, its commitment commits to the limb under that opening, and its source, destination and auditor handles each make a ciphertext of the limb under that key |
| TransferWithFee.LimbsCombine | zk-token-sdk/src/instruction/transfer_with_fee.rs:80 | the lo and hi limbs recombine as lo + 2^32·hi to the transfer amount |
| TransferWithFee.NewSourceCiphertext | zk-token-sdk/src/instruction/transfer_with_fee.rs:100-111 | definition, no contract of its own: the old source ciphertext minus the combination of the two limbs' source parts; `NewSourceCiphertextEncrypts` states what it encrypts |
| TransferWithFee.FeeToEncryptOf | zk-token-sdk/src/instruction/transfer_with_fee.rs:114-119 | definition, no contract of its own: `fee_to_encrypt`, the fee of the transfer capped by `FeeToEncrypt`, whose contract states that it is the minimum of the fee and the maximum |
| TransferWithFee.NewSourceCiphertextEncrypts | zk-token-sdk/src/instruction/transfer_with_fee.rs:100-111 | if the old source ciphertext encrypts the balance, the new one encrypts balance − amount |
| TransferWithFee.ProverInputsOf | zk-token-sdk/src/instruction/transfer_with_fee.rs:144-155 | the corrected prover inputs carry the capped fee the fee ciphertext encrypts, a `delta_fee` of at most 10000, and the new balance, which plus the amount is the old balance |
| TransferWithFee.ProverInputsAsWritten | zk-token-sdk/src/instruction/transfer_with_fee.rs:144-155 | the source's prover inputs carry the uncapped `fee_amount` and the remainder `rem` of `calculate_fee` as `delta_fee`, both as `CalculateFeeAsWritten` returns them, with the fee ciphertext encrypting the capped fee and the new balance plus the amount equal to the old balance |
| TransferWithFee.Generate | zk-token-sdk/src/instruction/transfer_with_fee.rs:71-166 | generation fails, with a Generation error, exactly when the amount exceeds the balance; the payload carries the encoded keys and fee parameters |
| TransferWithFee.New | zk-token-sdk/src/instruction/transfer_with_fee.rs:71-166 | `TransferWithFeeData::new` step by step returns what `Generate` states |
| TransferWithFee.Check | zk-token-sdk/src/instruction/transfer_with_fee.rs:222-248 | any undecodable ciphertext, key record or fee encryption gives a Verification error (for the pod conversions an assumption, see "## Left out"); once all five decode, the result is `FeeProof.Check` of the bundled proof on those values, the decoded fee parameters and the transcript log rebuilt from the payload's own bytes |
| TransferWithFee.Verify | zk-token-sdk/src/instruction/transfer_with_fee.rs:222-248 | `verify` step by step returns what `Check` states |
| TransferWithFee.GenerationWitnessesHold | zk-token-sdk/src/instruction/transfer_with_fee.rs:71-155 | with rates up to 10000 and an old ciphertext of the balance, every witness the corrected generation hands to the sub-provers satisfies its relation |
| TransferWithFee.GenerateThenVerify | zk-token-sdk/src/instruction/transfer_with_fee.rs:71-248 | with complete sub-proofs and encodings that decode back, a generated payload exists and verifies |
| TransferWithFee.HandleFor | zk-token-sdk/src/instruction/transfer_with_fee.rs:172-176 | definition, no contract of its own: the source, destination or auditor handle of a limb encryption, by role |
| TransferWithFee.CiphertextLo | zk-token-sdk/src/instruction/transfer_with_fee.rs:169-182 | succeeds exactly when the lo pod decodes, keeping its commitment and picking the role's handle; failures are Verification errors (an assumption, see "## Left out") |
| TransferWithFee.CiphertextHi | zk-token-sdk/src/instruction/transfer_with_fee.rs:185-198 | succeeds exactly when the hi pod decodes, keeping its commitment and picking the role's handle; failures are Verification errors (an assumption, see "## Left out") |
| TransferWithFee.DecryptAmount | zk-token-sdk/src/instruction/transfer_with_fee.rs:206-218 | succeeds exactly when both limb ciphertexts exist and both decrypt, and then the amount splits into the two decrypted limbs; otherwise a Verification error (an assumption for the pod conversions, see "## Left out") |
| TransferWithFee.DecryptGenerated | zk-token-sdk/src/instruction/transfer_with_fee.rs:169-218 | each role recovers the transfer amount from a generated payload with its own keypair and a correct 32-bit decryption |
| TransferWithFee.AsWrittenDeltaFeeUnprovable | zk-token-sdk/src/instruction/transfer_with_fee.rs:114-151 | as written, amount 1 at rate 1 (maximum 3) hands the fee sigma prover a witness that does not satisfy its relation |
| TransferWithFee.AsWrittenFeeValidityMismatch | zk-token-sdk/src/instruction/transfer_with_fee.rs:150 | as written, amount 10000 at rate 10000 with maximum 50 makes the provers' claims differ from the verifiers' checks |
| TransferWithFee.CorrectedStatementsAgree | zk-token-sdk/src/instruction/transfer_with_fee.rs:144-155 | with the corrected inputs the provers' claims equal the verifiers' checks for every input |
| TransferWithFee.AsWrittenAgreesOnTestScenario | zk-token-sdk/src/instruction/transfer_with_fee.rs:662-690 | in the source's test scenario the as-written prover inputs equal the corrected ones (fee 1, `delta_fee` 0) |

## Left out

- Curve25519/Ristretto arithmetic is not modelled. Group elements are pairs of integer coefficients over G and H, and scalars are unbounded integers, so reduction modulo the group order is not modelled.
- Pedersen and ElGamal key generation are not modelled. Public keys are arbitrary points, and decryption correctness is a hypothesis (`DecryptsU32`) on the `decrypt_u32_online` function, which is passed as a parameter.
- The sub-proofs (`EqualityProof`, `AggregatedValidityProof`, `FeeSigmaProof`, `ValidityProof`, `RangeProof`) are opaque. Their soundness is not modelled. Completeness is a hypothesis, and decoding each sub-proof pod happens inside its opaque verifier.
- The Merlin hash chain is not modelled. A transcript is its log of labelled messages, and challenges are whatever the opaque sub-proofs derive from that log.
- The 32-byte encodings of points, the `TransferAmountEncryption` pod and the `ElGamalCiphertext` pod live outside this file. They are codec parameters, and the theorems assume only that the values involved decode back.
- Randomness is a parameter: the openings that `new_rand`, `Pedersen::new` and `FeeEncryption::new` draw are passed in.
- Constant-time behaviour of `ct_gt`/`conditional_select` cannot be expressed. Only their result is modelled.
- The `lazy_static` constant `COMMITMENT_FEE_DENOMINATOR` is not modelled separately. It is written as the commitment of 10000 with opening 0.
- Not modelled: `bytemuck` derives, `cfg(target_arch = "bpf")` gating, and the `expect` on the range proof's length at line 380, which cannot fail for five 64-or-fewer-bit values totalling 256 bits.
- FeeArithmetic.CalculateFeeAsWritten: `fee + 1` is taken modulo 2^64, as in a build without overflow checks. A build with overflow checks panics instead. Both can only happen for rates above 10000.
- FeeProof.New: requires `delta_fee <= 10000`; the u64 subtraction at line 357 would otherwise underflow. Both the corrected and the as-written `delta_fee` meet it.
- Records.FeeParametersFromBytes, Records.PubkeysFromBytes, Records.FeeEncryptionFromBytes: require at least 10, 128 and 96 bytes, because `array_ref!` panics on shorter input.
- Error kinds of conversions defined elsewhere: each `try_into()?` on a pod (lines 170, 186, 231-236, 398-407) and each sub-proof verifier's `?` (lines 415, 427, 443, 453, 466) converts an error type defined outside this file into `ProofError`. Those conversions are not part of this model; the model takes every such failure to be a Verification error.
- Sub-proof transcript entries: each sub-proof's prover and its verifier are assumed to append the same transcript entries, fixed by the proof bytes alone (one `absorb` function per set of engines). The sub-proof implementations are not part of this model, so this is not proved. The appends of this file itself (lines 273-278, 308-309, 395-396) are proved.
- TransferWithFee.New: models the corrected generation described under "## Findings". It is not a line-by-line copy of lines 114-151.
- TransferWithFee.Generate: carries the same correction as `New`, whose result it describes.
- TransferWithFee.ProverInputsOf: carries the same correction; these are the inputs `New` and `Generate` hand to the proof.
- The as-written behaviour of lines 114-151 is carried by `ProverInputsAsWritten` and the two `AsWritten` lemmas.

## Findings

| source | as written | input that shows it | evidently intended | confidence | as-written member | corrected member |
|---|---|---|---|---|---|---|
| zk-token-sdk/src/instruction/transfer_with_fee.rs:613-624 | `delta_fee` handed to the fee sigma proof and the range proof is the remainder `rem = (amount·rate) mod 10000`, but the delta commitment (lines 627-642) commits to fee·10000 − amount·rate, which is 10000 − rem whenever rem ≠ 0 | transfer amount 1, rate 1 basis point, maximum fee 3: fee 1, rem 1, delta commitment opens to 9999, claimed commitment to 1, fee commitment not to the maximum | `delta_fee = fee·10000 − amount·rate` (0 or 10000 − rem) | not executed | TransferWithFee.AsWrittenDeltaFeeUnprovable | TransferWithFee.GenerationWitnessesHold |
| zk-token-sdk/src/instruction/transfer_with_fee.rs:150 | `TransferWithFeeProof::new` is handed the uncapped `fee_amount`, which reaches `ValidityProof::new` at line 345, while the fee ciphertext encrypts the capped `fee_to_encrypt` (line 123) that the verifier checks against | transfer amount 10000, rate 10000 basis points, maximum fee 50: the validity prover commits to 10000, the fee ciphertext to 50 | hand `fee_to_encrypt` to the proof | not executed | TransferWithFee.AsWrittenFeeValidityMismatch | TransferWithFee.CorrectedStatementsAgree |
