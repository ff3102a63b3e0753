/**
 * The public records of a transfer with fee — fee parameters, the four public keys and the fee
 * encryption — and their fixed-width byte layouts. The 32-byte encoding of a group element
 * (`to_bytes` / `from_bytes` of commitments, handles and public keys) is a parameter.
 */
module Records {
  import opened Primitives
  import opened Algebra
  import opened LittleEndian

  /** The compressed 32-byte encoding of a group element and its fallible decoding. */
  datatype PointCodec = PointCodec(encode: Point -> Bytes32, decode: Bytes32 -> Option<Point>)

  /** Decoding gives back the element that was encoded. */
  predicate RoundTrips(pc: PointCodec, p: Point)
  {
    pc.decode(pc.encode(p)) == Some(p)
  }

  /** A chunk that decodes is the canonical encoding of what it decodes to. */
  predicate Canonical(pc: PointCodec, chunk: Bytes32)
  {
    pc.decode(chunk).Some? ==> pc.encode(pc.decode(chunk).value) == chunk
  }

  /** `bytes[start..start + src.len()].copy_from_slice(src)`. */
  method CopyFromSlice(buf: array<byte>, start: nat, src: seq<byte>)
    requires start + |src| <= buf.Length
    modifies buf
    ensures buf[..] == old(buf[..])[..start] + src + old(buf[..])[start + |src|..]
  {
    var i := 0;
    while i < |src|
      invariant 0 <= i <= |src|
      invariant forall k :: 0 <= k < buf.Length ==>
        buf[k] == (if start <= k < start + i then src[k - start] else old(buf[k]))
    {
      buf[start + i] := src[i];
      i := i + 1;
    }
    ghost var expected := old(buf[..])[..start] + src + old(buf[..])[start + |src|..];
    assert |expected| == buf.Length;
    forall k | 0 <= k < buf.Length
      ensures buf[..][k] == expected[k]
    {
      if k < start {
        assert expected[k] == old(buf[..])[k];
      } else if k < start + |src| {
        assert expected[k] == src[k - start];
      } else {
        assert expected[k] == old(buf[..])[start + |src|..][k - start - |src|];
      }
    }
  }

  // ---------------------------------------------------------------- FeeParameters

  /** `FeeParameters`: the fee rate in basis points and the cap on the fee, both public. */
  datatype FeeParameters = FeeParameters(feeRateBasisPoints: u16, maximumFee: u64)

  /** The 10-byte layout: the rate as little-endian u16, then the maximum fee as little-endian u64. */
  function FeeParametersBytes(p: FeeParameters): (bytes: Bytes10)
  {
    ToLe(p.feeRateBasisPoints, 2) + ToLe(p.maximumFee, 8)
  }

  /** `FeeParameters::to_bytes`. */
  method FeeParametersToBytes(p: FeeParameters) returns (bytes: Bytes10)
    ensures bytes == FeeParametersBytes(p)
    ensures bytes[..2] == ToLe(p.feeRateBasisPoints, 2) && bytes[2..] == ToLe(p.maximumFee, 8)
  {
    var buf := new byte[10](_ => 0);
    CopyFromSlice(buf, 0, ToLe(p.feeRateBasisPoints, 2));
    CopyFromSlice(buf, 2, ToLe(p.maximumFee, 8));
    bytes := buf[..];
    assert bytes == ToLe(p.feeRateBasisPoints, 2) + ToLe(p.maximumFee, 8);
  }

  /** `FeeParameters::from_bytes`; `array_ref!` needs at least 10 bytes. */
  function FeeParametersFromBytes(bytes: seq<byte>): (p: FeeParameters)
    requires |bytes| >= 10
    ensures p.feeRateBasisPoints == FromLe(bytes[0..2]) && p.maximumFee == FromLe(bytes[2..10])
  {
    Pow256Widths();
    FeeParameters(FromLe(bytes[0..2]), FromLe(bytes[2..10]))
  }

  lemma FeeParametersRoundTrip(p: FeeParameters)
    ensures FeeParametersFromBytes(FeeParametersBytes(p)) == p
  {
    var bytes := FeeParametersBytes(p);
    Pow256Widths();
    assert bytes[0..2] == ToLe(p.feeRateBasisPoints, 2);
    assert bytes[2..10] == ToLe(p.maximumFee, 8);
    FromLeToLe(p.feeRateBasisPoints, 2);
    FromLeToLe(p.maximumFee, 8);
  }

  lemma FeeParametersBytesRoundTrip(bytes: seq<byte>)
    requires |bytes| >= 10
    ensures FeeParametersBytes(FeeParametersFromBytes(bytes)) == bytes[..10]
  {
    ToLeFromLe(bytes[0..2]);
    ToLeFromLe(bytes[2..10]);
    assert bytes[..10] == bytes[0..2] + bytes[2..10];
  }

  // ---------------------------------------------------------------- TransferWithFeePubkeys

  /** `TransferWithFeePubkeys`: the four ElGamal public keys of the transfer. */
  datatype TransferWithFeePubkeys = TransferWithFeePubkeys(
    source: Pubkey, dest: Pubkey, auditor: Pubkey, feeCollector: Pubkey)

  /** The 128-byte layout: source, dest, auditor and fee collector at offsets 0, 32, 64 and 96. */
  function PubkeysBytes(pc: PointCodec, keys: TransferWithFeePubkeys): (bytes: Bytes128)
    ensures bytes[0..32] == pc.encode(keys.source) && bytes[32..64] == pc.encode(keys.dest)
    ensures bytes[64..96] == pc.encode(keys.auditor) && bytes[96..128] == pc.encode(keys.feeCollector)
  {
    pc.encode(keys.source) + pc.encode(keys.dest) + pc.encode(keys.auditor) + pc.encode(keys.feeCollector)
  }

  /** `TransferWithFeePubkeys::to_bytes`. */
  method PubkeysToBytes(pc: PointCodec, keys: TransferWithFeePubkeys) returns (bytes: Bytes128)
    ensures bytes == PubkeysBytes(pc, keys)
  {
    var buf := new byte[128](_ => 0);
    CopyFromSlice(buf, 0, pc.encode(keys.source));
    CopyFromSlice(buf, 32, pc.encode(keys.dest));
    CopyFromSlice(buf, 64, pc.encode(keys.auditor));
    CopyFromSlice(buf, 96, pc.encode(keys.feeCollector));
    bytes := buf[..];
  }

  /** `pod::TransferWithFeePubkeys::new`: the same buffer filled from four separate keys. */
  method PodPubkeysNew(pc: PointCodec, source: Pubkey, dest: Pubkey, auditor: Pubkey, feeCollector: Pubkey)
    returns (bytes: Bytes128)
    ensures bytes == PubkeysBytes(pc, TransferWithFeePubkeys(source, dest, auditor, feeCollector))
  {
    var buf := new byte[128](_ => 0);
    CopyFromSlice(buf, 0, pc.encode(source));
    CopyFromSlice(buf, 32, pc.encode(dest));
    CopyFromSlice(buf, 64, pc.encode(auditor));
    CopyFromSlice(buf, 96, pc.encode(feeCollector));
    bytes := buf[..];
  }

  /** `TransferWithFeePubkeys::from_bytes`: each 32-byte chunk must decode; needs 128 bytes. */
  function PubkeysFromBytes(pc: PointCodec, bytes: seq<byte>): (r: Result<TransferWithFeePubkeys>)
    requires |bytes| >= 128
    ensures r.Err? ==> r.error == Verification
  {
    var source := pc.decode(bytes[0..32]);
    var dest := pc.decode(bytes[32..64]);
    var auditor := pc.decode(bytes[64..96]);
    var feeCollector := pc.decode(bytes[96..128]);
    if source.None? || dest.None? || auditor.None? || feeCollector.None? then Err(Verification)
    else Ok(TransferWithFeePubkeys(source.value, dest.value, auditor.value, feeCollector.value))
  }

  lemma PubkeysRoundTrip(pc: PointCodec, keys: TransferWithFeePubkeys)
    requires RoundTrips(pc, keys.source) && RoundTrips(pc, keys.dest)
    requires RoundTrips(pc, keys.auditor) && RoundTrips(pc, keys.feeCollector)
    ensures PubkeysFromBytes(pc, PubkeysBytes(pc, keys)) == Ok(keys)
  {
  }

  /** Decoding fails exactly when one of the four chunks is not a valid encoding. */
  lemma PubkeysFromBytesFails(pc: PointCodec, bytes: seq<byte>)
    requires |bytes| >= 128
    ensures PubkeysFromBytes(pc, bytes).Err? <==>
      pc.decode(bytes[0..32]).None? || pc.decode(bytes[32..64]).None? ||
      pc.decode(bytes[64..96]).None? || pc.decode(bytes[96..128]).None?
  {
  }

  lemma PubkeysBytesRoundTrip(pc: PointCodec, bytes: seq<byte>)
    requires |bytes| >= 128
    requires Canonical(pc, bytes[0..32]) && Canonical(pc, bytes[32..64])
    requires Canonical(pc, bytes[64..96]) && Canonical(pc, bytes[96..128])
    ensures PubkeysFromBytes(pc, bytes).Ok? ==> PubkeysBytes(pc, PubkeysFromBytes(pc, bytes).value) == bytes[..128]
  {
    assert bytes[..128] == bytes[0..32] + bytes[32..64] + bytes[64..96] + bytes[96..128];
  }

  // ---------------------------------------------------------------- FeeEncryption

  /** `FeeEncryption`: a commitment to the fee with handles for the destination and the fee collector. */
  datatype FeeEncryption = FeeEncryption(commitment: Commitment, dest: DecryptHandle, feeCollector: DecryptHandle)

  /** `FeeEncryption::new` with its random opening made a parameter. */
  function FeeEncryptionNew(amount: int, pkDest: Pubkey, pkFeeCollector: Pubkey, o: Opening): (ct: FeeEncryption)
    ensures ct.commitment == Commit(amount, o)
    ensures Encrypts(Ciphertext(ct.commitment, ct.dest), pkDest, amount)
    ensures Encrypts(Ciphertext(ct.commitment, ct.feeCollector), pkFeeCollector, amount)
  {
    FeeEncryption(Commit(amount, o), Handle(pkDest, o), Handle(pkFeeCollector, o))
  }

  /** The 96-byte layout: commitment, dest handle and fee-collector handle at offsets 0, 32 and 64. */
  function FeeEncryptionBytes(pc: PointCodec, ct: FeeEncryption): (bytes: Bytes96)
    ensures bytes[0..32] == pc.encode(ct.commitment) && bytes[32..64] == pc.encode(ct.dest)
    ensures bytes[64..96] == pc.encode(ct.feeCollector)
  {
    pc.encode(ct.commitment) + pc.encode(ct.dest) + pc.encode(ct.feeCollector)
  }

  /** `FeeEncryption::to_bytes`. */
  method FeeEncryptionToBytes(pc: PointCodec, ct: FeeEncryption) returns (bytes: Bytes96)
    ensures bytes == FeeEncryptionBytes(pc, ct)
  {
    var buf := new byte[96](_ => 0);
    CopyFromSlice(buf, 0, pc.encode(ct.commitment));
    CopyFromSlice(buf, 32, pc.encode(ct.dest));
    CopyFromSlice(buf, 64, pc.encode(ct.feeCollector));
    bytes := buf[..];
  }

  /** `FeeEncryption::from_bytes`: each 32-byte chunk must decode; needs 96 bytes. */
  function FeeEncryptionFromBytes(pc: PointCodec, bytes: seq<byte>): (r: Result<FeeEncryption>)
    requires |bytes| >= 96
    ensures r.Err? ==> r.error == Verification
  {
    var commitment := pc.decode(bytes[0..32]);
    var dest := pc.decode(bytes[32..64]);
    var feeCollector := pc.decode(bytes[64..96]);
    if commitment.None? || dest.None? || feeCollector.None? then Err(Verification)
    else Ok(FeeEncryption(commitment.value, dest.value, feeCollector.value))
  }

  lemma FeeEncryptionRoundTrip(pc: PointCodec, ct: FeeEncryption)
    requires RoundTrips(pc, ct.commitment) && RoundTrips(pc, ct.dest) && RoundTrips(pc, ct.feeCollector)
    ensures FeeEncryptionFromBytes(pc, FeeEncryptionBytes(pc, ct)) == Ok(ct)
  {
  }

  /** Decoding fails exactly when one of the three chunks is not a valid encoding. */
  lemma FeeEncryptionFromBytesFails(pc: PointCodec, bytes: seq<byte>)
    requires |bytes| >= 96
    ensures FeeEncryptionFromBytes(pc, bytes).Err? <==>
      pc.decode(bytes[0..32]).None? || pc.decode(bytes[32..64]).None? || pc.decode(bytes[64..96]).None?
  {
  }

  lemma FeeEncryptionBytesRoundTrip(pc: PointCodec, bytes: seq<byte>)
    requires |bytes| >= 96
    requires Canonical(pc, bytes[0..32]) && Canonical(pc, bytes[32..64]) && Canonical(pc, bytes[64..96])
    ensures FeeEncryptionFromBytes(pc, bytes).Ok? ==>
      FeeEncryptionBytes(pc, FeeEncryptionFromBytes(pc, bytes).value) == bytes[..96]
  {
    assert bytes[..96] == bytes[0..32] + bytes[32..64] + bytes[64..96];
  }
}
