/**
 * An algebraic model of the Ristretto group and of the Pedersen / twisted ElGamal objects built on it.
 * A point is represented by its coefficients over the two independent generators G and H, so the
 * group operations are linear maps on coefficient pairs; a Pedersen commitment v*G + o*H is the pair
 * (v, o). Scalars are unbounded integers: reduction modulo the group order is not modelled, and
 * every equation proved here also holds modulo that order.
 */
module Algebra {
  import opened Primitives
  import AmountCodec

  datatype Point = Point(g: int, h: int)

  type Scalar = int
  type Opening = Scalar
  type Commitment = Point
  type DecryptHandle = Point
  type Pubkey = Point

  function Add(p: Point, q: Point): Point { Point(p.g + q.g, p.h + q.h) }
  function Sub(p: Point, q: Point): Point { Point(p.g - q.g, p.h - q.h) }
  function Scale(p: Point, k: Scalar): Point { Point(p.g * k, p.h * k) }

  /** `Pedersen::new(v)` with its random opening `o` made a parameter: v*G + o*H. */
  function Commit(v: int, o: Opening): Commitment
  {
    Point(v, o)
  }

  /** `Pedersen::encode(v)`: a commitment with the zero opening. */
  function Encode(v: int): Commitment { Commit(v, 0) }

  /** `pubkey.decrypt_handle(opening)`: opening * pubkey. */
  function Handle(pk: Pubkey, o: Opening): DecryptHandle { Scale(pk, o) }

  /** `ElGamalCiphertext`: a commitment together with one decrypt handle. */
  datatype Ciphertext = Ciphertext(commitment: Commitment, handle: DecryptHandle)

  function CiphertextSub(a: Ciphertext, b: Ciphertext): Ciphertext
  {
    Ciphertext(Sub(a.commitment, b.commitment), Sub(a.handle, b.handle))
  }

  /**
   * `ct` is a twisted ElGamal encryption of `x` under `pk`: its commitment is x*G + r*H and its
   * handle is r*pk for the same r.
   */
  predicate Encrypts(ct: Ciphertext, pk: Pubkey, x: int)
  {
    ct.commitment.g == x && ct.handle == Handle(pk, ct.commitment.h)
  }

  /** `combine_u32_commitments`: lo + 2^32 * hi on points. */
  function CombineCommitments(lo: Point, hi: Point): Point
  {
    Add(lo, Scale(hi, TWO_32))
  }

  /** `combine_u32_openings`: lo + 2^32 * hi on scalars. */
  function CombineOpenings(lo: Opening, hi: Opening): Opening
  {
    lo + TWO_32 * hi
  }

  /** `combine_u32_ciphertexts`: lo + 2^32 * hi on both parts of a ciphertext. */
  function CombineCiphertexts(lo: Ciphertext, hi: Ciphertext): Ciphertext
  {
    Ciphertext(CombineCommitments(lo.commitment, hi.commitment), CombineCommitments(lo.handle, hi.handle))
  }

  /** Combining commitments to two limbs commits to the recombined amount under the combined opening. */
  lemma CombineCommitmentsOpens(xLo: int, oLo: Opening, xHi: int, oHi: Opening)
    ensures CombineCommitments(Commit(xLo, oLo), Commit(xHi, oHi))
         == Commit(AmountCodec.Combine(xLo, xHi), CombineOpenings(oLo, oHi))
  {
  }

  /** Combining two encryptions under one key encrypts the recombined amount under that key. */
  lemma CombineCiphertextsEncrypts(lo: Ciphertext, hi: Ciphertext, pk: Pubkey, xLo: int, xHi: int)
    requires Encrypts(lo, pk, xLo) && Encrypts(hi, pk, xHi)
    ensures Encrypts(CombineCiphertexts(lo, hi), pk, AmountCodec.Combine(xLo, xHi))
  {
    var c := CombineCiphertexts(lo, hi);
    var r := lo.commitment.h + hi.commitment.h * TWO_32;
    assert c.commitment.h == r;
    calc {
      c.handle;
      Add(Scale(pk, lo.commitment.h), Scale(Scale(pk, hi.commitment.h), TWO_32));
      { assert pk.g * hi.commitment.h * TWO_32 == pk.g * (hi.commitment.h * TWO_32);
        assert pk.h * hi.commitment.h * TWO_32 == pk.h * (hi.commitment.h * TWO_32); }
      Point(pk.g * lo.commitment.h + pk.g * (hi.commitment.h * TWO_32),
            pk.h * lo.commitment.h + pk.h * (hi.commitment.h * TWO_32));
      Scale(pk, r);
    }
  }

  /** Subtracting encryptions under one key encrypts the difference under that key. */
  lemma CiphertextSubEncrypts(a: Ciphertext, b: Ciphertext, pk: Pubkey, x: int, y: int)
    requires Encrypts(a, pk, x) && Encrypts(b, pk, y)
    ensures Encrypts(CiphertextSub(a, b), pk, x - y)
  {
    var r := a.commitment.h - b.commitment.h;
    assert pk.g * a.commitment.h - pk.g * b.commitment.h == pk.g * r;
    assert pk.h * a.commitment.h - pk.h * b.commitment.h == pk.h * r;
  }

  datatype Keypair = Keypair(public: Pubkey, secret: Scalar)

  /**
   * `TransferAmountEncryption` (defined elsewhere in the crate): one commitment to a 32-bit limb
   * with a decrypt handle for each of the source, the destination and the auditor.
   */
  datatype AmountEncryption = AmountEncryption(
    commitment: Commitment, source: DecryptHandle, dest: DecryptHandle, auditor: DecryptHandle)

  /** `TransferAmountEncryption::new` with its random opening made a parameter. */
  function AmountEncryptionNew(amount: int, pkSource: Pubkey, pkDest: Pubkey, pkAuditor: Pubkey, o: Opening)
    : (ct: AmountEncryption)
    ensures Encrypts(Ciphertext(ct.commitment, ct.source), pkSource, amount)
    ensures Encrypts(Ciphertext(ct.commitment, ct.dest), pkDest, amount)
    ensures Encrypts(Ciphertext(ct.commitment, ct.auditor), pkAuditor, amount)
  {
    AmountEncryption(Commit(amount, o), Handle(pkSource, o), Handle(pkDest, o), Handle(pkAuditor, o))
  }
}
