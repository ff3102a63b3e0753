/** Machine integers, fixed-width byte strings and the error type shared by the model. */
module Primitives {

  const TWO_16: nat := 0x1_0000
  const TWO_32: nat := 0x1_0000_0000
  const TWO_64: nat := 0x1_0000_0000_0000_0000

  type byte = x: int | 0 <= x < 0x100
  type u16 = x: int | 0 <= x < 0x1_0000
  type u32 = x: int | 0 <= x < 0x1_0000_0000
  type u64 = x: int | 0 <= x < 0x1_0000_0000_0000_0000

  /** The `[u8; N]` buffers of the source. */
  type Bytes10 = s: seq<byte> | |s| == 10 witness seq(10, _ => 0)
  type Bytes32 = s: seq<byte> | |s| == 32 witness seq(32, _ => 0)
  type Bytes96 = s: seq<byte> | |s| == 96 witness seq(96, _ => 0)
  type Bytes128 = s: seq<byte> | |s| == 128 witness seq(128, _ => 0)

  datatype Option<+T> = None | Some(value: T)

  /** `ProofError`: the two error kinds this instruction names, `Generation` and `Verification`. */
  datatype ProofError = Generation | Verification

  datatype Result<+T> = Ok(value: T) | Err(error: ProofError)

  /** 2^n, the exclusive bound of an n-bit range proof. */
  function Pow2(n: nat): (r: nat)
    ensures r >= 1
  {
    if n == 0 then 1 else 2 * Pow2(n - 1)
  }

  lemma {:induction false} Pow2Add(a: nat, b: nat)
    ensures Pow2(a + b) == Pow2(a) * Pow2(b)
  {
    if a > 0 {
      Pow2Add(a - 1, b);
    }
  }

  /** The bounds of the 32- and 64-bit range proofs are the u32 and u64 bounds. */
  lemma Pow2Widths()
    ensures Pow2(32) == TWO_32 && Pow2(64) == TWO_64
  {
    assert Pow2(8) == 256;
    Pow2Add(8, 8);
    Pow2Add(16, 16);
    Pow2Add(32, 32);
  }
}
