/**
 * The integer fee computation of a transfer with fee: the basis-point fee rounded up, the rounding
 * gap handed to the proof as `delta_fee`, the cap at the maximum fee, and the balance subtraction.
 */
module FeeArithmetic {
  import opened Primitives

  /** `FEE_DENOMINATOR`: fee rates are in basis points, units of 1/10000. */
  const FEE_DENOMINATOR: nat := 10000

  /** The ceiling of amount * rate / FEE_DENOMINATOR, as an unbounded integer. */
  function CeilingFee(transferAmount: u64, feeRate: u16): nat
  {
    (transferAmount * feeRate + FEE_DENOMINATOR - 1) / FEE_DENOMINATOR
  }

  /**
   * `calculate_fee` as the source writes it: returns (fee, rem). The product is formed in 128 bits,
   * where it cannot wrap (it is below 2^80); the quotient is cast to u64, which truncates modulo
   * 2^64; `fee + 1` is taken modulo 2^64 as in a release build. `rem` is the remainder of the
   * division, which this version hands on as `delta_fee`.
   */
  function CalculateFeeAsWritten(transferAmount: u64, feeRate: u16): (r: (u64, u64))
  {
    var feeScaled := transferAmount * feeRate;
    var fee := (feeScaled / FEE_DENOMINATOR) % TWO_64;
    var rem := feeScaled % FEE_DENOMINATOR;
    if rem == 0 then (fee, rem) else ((fee + 1) % TWO_64, rem)
  }

  /**
   * `calculate_fee` with the rounding gap the delta commitment actually commits to: the same fee,
   * and `delta_fee = fee * FEE_DENOMINATOR - amount * rate`, i.e. 0 when the division is exact and
   * FEE_DENOMINATOR - rem otherwise.
   */
  function CalculateFee(transferAmount: u64, feeRate: u16): (r: (u64, u64))
  {
    var (fee, rem) := CalculateFeeAsWritten(transferAmount, feeRate);
    if rem == 0 then (fee, 0) else (fee, FEE_DENOMINATOR - rem)
  }

  /** The reference ceiling lies within one denominator above the scaled amount. */
  lemma CeilingFeeBounds(transferAmount: u64, feeRate: u16)
    ensures var q := CeilingFee(transferAmount, feeRate);
      q * FEE_DENOMINATOR - FEE_DENOMINATOR < transferAmount * feeRate <= q * FEE_DENOMINATOR
  {
  }

  /**
   * For every rate, `rem` is the remainder of the scaled amount, below the denominator, and the fee
   * is the ceiling of amount * rate / 10000 modulo 2^64 (the u64 cast and the wrapping `+ 1`).
   */
  lemma CalculateFeeIsCeiling(transferAmount: u64, feeRate: u16)
    ensures var (fee, rem) := CalculateFeeAsWritten(transferAmount, feeRate);
      rem == (transferAmount * feeRate) % FEE_DENOMINATOR && rem < FEE_DENOMINATOR &&
      (rem != 0 <==> (transferAmount * feeRate) / FEE_DENOMINATOR + 1 == CeilingFee(transferAmount, feeRate)) &&
      fee == CeilingFee(transferAmount, feeRate) % TWO_64
  {
    var s := transferAmount * feeRate;
    var q := s / FEE_DENOMINATOR;
    var m := s % FEE_DENOMINATOR;
    assert s == q * FEE_DENOMINATOR + m;
    var c := CeilingFee(transferAmount, feeRate);
    if m == 0 {
      assert s + FEE_DENOMINATOR - 1 == q * FEE_DENOMINATOR + (FEE_DENOMINATOR - 1);
      assert c == q;
    } else {
      assert s + FEE_DENOMINATOR - 1 == (q + 1) * FEE_DENOMINATOR + (m - 1);
      assert c == q + 1;
      ModAddOne(q);
    }
  }

  lemma ModAddOne(q: nat)
    ensures (q % TWO_64 + 1) % TWO_64 == (q + 1) % TWO_64
  {
  }

  /**
   * For rates up to 10000 basis points the fee never exceeds the amount, so the u128 -> u64 cast
   * cannot truncate and `fee + 1` cannot overflow: the fee is exactly the ceiling.
   */
  lemma CalculateFeeNoOverflow(transferAmount: u64, feeRate: u16)
    requires feeRate <= FEE_DENOMINATOR
    ensures var s := transferAmount * feeRate;
      s / FEE_DENOMINATOR <= transferAmount &&
      (s % FEE_DENOMINATOR != 0 ==> s / FEE_DENOMINATOR + 1 <= transferAmount)
    ensures CalculateFeeAsWritten(transferAmount, feeRate).0 == CeilingFee(transferAmount, feeRate)
    ensures CeilingFee(transferAmount, feeRate) <= transferAmount
  {
    var s := transferAmount * feeRate;
    var q := s / FEE_DENOMINATOR;
    var m := s % FEE_DENOMINATOR;
    assert s == q * FEE_DENOMINATOR + m;
    assert s <= transferAmount * FEE_DENOMINATOR by {
      MulMonotonic(transferAmount, feeRate, FEE_DENOMINATOR);
    }
    MulCancel(q, transferAmount, FEE_DENOMINATOR);
    if m != 0 {
      MulCancelStrict(q, transferAmount, FEE_DENOMINATOR);
    }
    CalculateFeeIsCeiling(transferAmount, feeRate);
  }

  lemma MulMonotonic(a: nat, b: nat, c: nat)
    requires b <= c
    ensures a * b <= a * c
  {
  }

  lemma MulCancel(x: nat, y: nat, d: nat)
    requires d > 0 && x * d <= y * d
    ensures x <= y
  {
    if x > y {
      MulMonotonic(d, y + 1, x);
    }
  }

  lemma MulCancelStrict(x: nat, y: nat, d: nat)
    requires d > 0 && x * d < y * d
    ensures x < y
  {
    if x >= y {
      MulMonotonic(d, y, x);
    }
  }

  /** The test case: 100 tokens at 100 basis points give a fee of 1 and no remainder. */
  lemma CalculateFeeExample()
    ensures CalculateFeeAsWritten(100, 100) == (1, 0)
    ensures CalculateFee(100, 100) == (1, 0)
  {
  }

  /**
   * The rounding gap the corrected computation hands on: for rates up to 10000 it is exactly
   * fee * FEE_DENOMINATOR - amount * rate, 0 when the division is exact, FEE_DENOMINATOR - rem
   * otherwise, and never above FEE_DENOMINATOR (so `FEE_DENOMINATOR - delta_fee` cannot underflow).
   */
  lemma CalculateFeeDelta(transferAmount: u64, feeRate: u16)
    requires feeRate <= FEE_DENOMINATOR
    ensures var (fee, delta) := CalculateFee(transferAmount, feeRate);
      var rem := (transferAmount * feeRate) % FEE_DENOMINATOR;
      fee * FEE_DENOMINATOR - transferAmount * feeRate == delta &&
      delta == (if rem == 0 then 0 else FEE_DENOMINATOR - rem) &&
      delta < FEE_DENOMINATOR
  {
    CalculateFeeNoOverflow(transferAmount, feeRate);
    CalculateFeeIsCeiling(transferAmount, feeRate);
    var s := transferAmount * feeRate;
    var q := s / FEE_DENOMINATOR;
    var m := s % FEE_DENOMINATOR;
    assert s == q * FEE_DENOMINATOR + m;
    if m != 0 {
      assert (q + 1) * FEE_DENOMINATOR - s == FEE_DENOMINATOR - m;
    }
  }

  /** Both versions hand on a `delta_fee` of at most FEE_DENOMINATOR, whatever the rate. */
  lemma DeltaFeeBounded(transferAmount: u64, feeRate: u16)
    ensures CalculateFeeAsWritten(transferAmount, feeRate).1 < FEE_DENOMINATOR
    ensures CalculateFee(transferAmount, feeRate).1 < FEE_DENOMINATOR
  {
  }

  /** `u64::ct_gt(x, y)`: the Choice x > y. */
  function CtGt(x: u64, y: u64): bool
  {
    x > y
  }

  /** `u64::conditional_select(a, b, choice)`: a when the choice is 0, b when it is 1. */
  function ConditionalSelect(a: u64, b: u64, choice: bool): u64
  {
    if choice then b else a
  }

  /** `fee_to_encrypt`: `conditional_select(maximum_fee, fee, ct_gt(maximum_fee, fee))`. */
  function FeeToEncrypt(fee: u64, maximumFee: u64): (r: u64)
    ensures r <= fee && r <= maximumFee
    ensures r == fee || r == maximumFee
    ensures fee < maximumFee ==> r == fee
    ensures maximumFee <= fee ==> r == maximumFee
  {
    var belowMax := CtGt(maximumFee, fee);
    ConditionalSelect(maximumFee, fee, belowMax)
  }

  /** The commented-out select with swapped arguments would encrypt the larger of the two values. */
  lemma SwappedSelectIsMaximum(fee: u64, maximumFee: u64)
    ensures var r := ConditionalSelect(fee, maximumFee, CtGt(maximumFee, fee));
      r >= fee && r >= maximumFee && (r == fee || r == maximumFee)
  {
  }

  /** `spendable_balance.checked_sub(transfer_amount).ok_or(ProofError::Generation)`. */
  function NewSpendableBalance(spendableBalance: u64, transferAmount: u64): (r: Result<u64>)
    ensures r.Ok? <==> transferAmount <= spendableBalance
    ensures r.Ok? ==> r.value + transferAmount == spendableBalance
    ensures r.Err? ==> r.error == Generation
  {
    if transferAmount <= spendableBalance then Ok(spendableBalance - transferAmount) else Err(Generation)
  }
}
