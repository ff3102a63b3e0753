/**
 * The delta commitment: commitment_fee * 10000 - (commitment_lo + 2^32 * commitment_hi) * rate.
 * The prover computes it together with its opening; the verifier recomputes the commitment alone
 * from public commitments.
 */
module DeltaCommitment {
  import opened Primitives
  import opened Algebra
  import AmountCodec
  import opened FeeArithmetic

  /** `compute_delta_commitment_and_opening`. */
  function ComputeDeltaCommitmentAndOpening(
    commitmentLo: Commitment, openingLo: Opening,
    commitmentHi: Commitment, openingHi: Opening,
    commitmentFee: Commitment, openingFee: Opening,
    feeRate: u16): (Commitment, Opening)
  {
    var commitmentDelta := Sub(Scale(commitmentFee, FEE_DENOMINATOR),
                               Scale(CombineCommitments(commitmentLo, commitmentHi), feeRate));
    var openingDelta := openingFee * FEE_DENOMINATOR - CombineOpenings(openingLo, openingHi) * feeRate;
    (commitmentDelta, openingDelta)
  }

  /** `compute_delta_commitment`. */
  function ComputeDeltaCommitment(
    commitmentLo: Commitment, commitmentHi: Commitment, commitmentFee: Commitment, feeRate: u16)
    : Commitment
  {
    Sub(Scale(commitmentFee, FEE_DENOMINATOR), Scale(CombineCommitments(commitmentLo, commitmentHi), feeRate))
  }

  /** What the verifier recomputes is the prover's delta commitment. */
  lemma DeltaCommitmentAgrees(
    commitmentLo: Commitment, openingLo: Opening,
    commitmentHi: Commitment, openingHi: Opening,
    commitmentFee: Commitment, openingFee: Opening,
    feeRate: u16)
    ensures ComputeDeltaCommitment(commitmentLo, commitmentHi, commitmentFee, feeRate)
         == ComputeDeltaCommitmentAndOpening(commitmentLo, openingLo, commitmentHi, openingHi,
                                              commitmentFee, openingFee, feeRate).0
  {
  }

  /**
   * On commitments to (lo, o_lo), (hi, o_hi) and (fee, o_fee) the pair is a commitment to
   * fee * 10000 - (lo + 2^32 * hi) * rate together with its opening
   * o_fee * 10000 - (o_lo + 2^32 * o_hi) * rate.
   */
  lemma DeltaCommitmentOpens(
    lo: int, openingLo: Opening, hi: int, openingHi: Opening, fee: int, openingFee: Opening, feeRate: u16)
    ensures var (c, o) := ComputeDeltaCommitmentAndOpening(
              Commit(lo, openingLo), openingLo, Commit(hi, openingHi), openingHi,
              Commit(fee, openingFee), openingFee, feeRate);
      o == openingFee * FEE_DENOMINATOR - CombineOpenings(openingLo, openingHi) * feeRate &&
      c == Commit(fee * FEE_DENOMINATOR - AmountCodec.Combine(lo, hi) * feeRate, o)
  {
    var comb := CombineCommitments(Commit(lo, openingLo), Commit(hi, openingHi));
    CombineCommitmentsOpens(lo, openingLo, hi, openingHi);
    assert comb == Commit(AmountCodec.Combine(lo, hi), CombineOpenings(openingLo, openingHi));
  }

  /**
   * For an uncapped fee from `calculate_fee` on the limbs of the transfer amount, the delta
   * commitment commits to 0 when the fee division is exact and to 10000 - rem otherwise: the
   * value the corrected `delta_fee` carries.
   */
  lemma DeltaCommitsToRoundingGap(
    transferAmount: u64, feeRate: u16, openingLo: Opening, openingHi: Opening, openingFee: Opening)
    requires feeRate <= FEE_DENOMINATOR
    ensures var (lo, hi) := AmountCodec.Split(transferAmount);
      var (fee, delta) := CalculateFee(transferAmount, feeRate);
      var rem := (transferAmount * feeRate) % FEE_DENOMINATOR;
      var (c, o) := ComputeDeltaCommitmentAndOpening(
              Commit(lo, openingLo), openingLo, Commit(hi, openingHi), openingHi,
              Commit(fee, openingFee), openingFee, feeRate);
      c.g == delta && delta == (if rem == 0 then 0 else FEE_DENOMINATOR - rem)
  {
    var (lo, hi) := AmountCodec.Split(transferAmount);
    var (fee, delta) := CalculateFee(transferAmount, feeRate);
    DeltaCommitmentOpens(lo, openingLo, hi, openingHi, fee, openingFee, feeRate);
    AmountCodec.CombineSplit(transferAmount);
    CalculateFeeDelta(transferAmount, feeRate);
  }
}
