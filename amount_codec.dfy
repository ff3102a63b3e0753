/**
 * The 64-bit amount split into two 32-bit limbs and its inverse
 * (`split_u64_into_u32` and the value behind `combine_u32_*`, defined elsewhere in the crate).
 */
module AmountCodec {
  import opened Primitives

  /** `split_u64_into_u32`: (amount mod 2^32, amount div 2^32). */
  function Split(amount: u64): (limbs: (u32, u32))
  {
    (amount % TWO_32, amount / TWO_32)
  }

  /** `lo + 2^32 * hi`, the value the `combine_u32_*` helpers compute homomorphically. */
  function Combine(lo: int, hi: int): int
  {
    lo + TWO_32 * hi
  }

  lemma CombineSplit(amount: u64)
    ensures Combine(Split(amount).0, Split(amount).1) == amount
  {
  }

  /** Two u32 limbs recombine to a value that fits u64, so `lo + TWO_32 * hi` cannot overflow. */
  lemma CombineFits(lo: u32, hi: u32)
    ensures 0 <= Combine(lo, hi) < TWO_64
    ensures TWO_32 * hi < TWO_64
  {
    assert TWO_32 * hi <= TWO_32 * (TWO_32 - 1);
  }

  lemma SplitCombine(lo: u32, hi: u32)
    ensures 0 <= Combine(lo, hi) < TWO_64 && Split(Combine(lo, hi) as u64) == (lo, hi)
  {
    CombineFits(lo, hi);
    var a := Combine(lo, hi);
    assert a == hi * TWO_32 + lo;
  }
}
