/** `to_le_bytes` and `from_le_bytes` for unsigned integers of n bytes. */
module LittleEndian {
  import opened Primitives

  /** 256^n, one more than the largest value n little-endian bytes hold. */
  function Pow256(n: nat): (r: nat)
    ensures r >= 1
  {
    if n == 0 then 1 else 256 * Pow256(n - 1)
  }

  /** The n low-order bytes of x, least significant first (`to_le_bytes`). */
  function ToLe(x: nat, n: nat): (bytes: seq<byte>)
    ensures |bytes| == n
  {
    if n == 0 then [] else [x % 256] + ToLe(x / 256, n - 1)
  }

  /** The unsigned value of a little-endian byte string (`from_le_bytes`). */
  function FromLe(bytes: seq<byte>): (x: nat)
    ensures x < Pow256(|bytes|)
  {
    if bytes == [] then 0 else bytes[0] + 256 * FromLe(bytes[1..])
  }

  lemma {:induction false} FromLeToLe(x: nat, n: nat)
    requires x < Pow256(n)
    ensures FromLe(ToLe(x, n)) == x
  {
    if n > 0 {
      FromLeToLe(x / 256, n - 1);
      assert ToLe(x, n)[1..] == ToLe(x / 256, n - 1);
    }
  }

  lemma {:induction false} ToLeFromLe(bytes: seq<byte>)
    ensures ToLe(FromLe(bytes), |bytes|) == bytes
  {
    if bytes != [] {
      var x := FromLe(bytes);
      assert x % 256 == bytes[0] && x / 256 == FromLe(bytes[1..]);
      ToLeFromLe(bytes[1..]);
    }
  }

  lemma Pow256Widths()
    ensures Pow256(2) == TWO_16 && Pow256(8) == TWO_64
  {
  }
}
