/**
 * `TransferWithFeeData`: the instruction payload of a confidential transfer with fee. `New`
 * splits and encrypts the amount, computes and caps the fee, encrypts it, and proves the whole on
 * one transcript; `Verify` decodes the payload and checks the proof; `DecryptAmount` recovers the
 * amount for one of the three roles.
 */
module TransferWithFee {
  import opened Primitives
  import opened AmountCodec
  import opened Algebra
  import opened FeeArithmetic
  import opened DeltaCommitment
  import opened Records
  import opened Transcripts
  import opened SubProofs
  import opened FeeProof

  /** The byte codec of a pod type the payload stores but whose layout is not part of this model. */
  datatype PodCodec<!T> = PodCodec(encode: T -> seq<byte>, decode: seq<byte> -> Option<T>)

  /** The codecs the payload uses: group points, `TransferAmountEncryption` and `ElGamalCiphertext`. */
  datatype Codecs = Codecs(
    point: PointCodec, amount: PodCodec<AmountEncryption>, ciphertext: PodCodec<Ciphertext>)

  predicate PodRoundTrips<T(==)>(c: PodCodec<T>, x: T)
  {
    c.decode(c.encode(x)) == Some(x)
  }

  datatype TransferWithFeeData = TransferWithFeeData(
    ciphertextLo: seq<byte>,
    ciphertextHi: seq<byte>,
    transferWithFeePubkeys: Bytes128,
    ciphertextNewSource: seq<byte>,
    ciphertextFee: Bytes96,
    feeParameters: Bytes10,
    proof: TransferWithFeeProof)

  /** The arguments of `TransferWithFeeData::new`. */
  datatype TransferInputs = TransferInputs(
    transferAmount: u64,
    spendableBalance: u64, ciphertextOldSource: Ciphertext,
    keypairSource: Keypair,
    pubkeyDest: Pubkey, pubkeyAuditor: Pubkey,
    feeParameters: FeeParameters,
    pubkeyFeeCollector: Pubkey)

  /**
   * The openings the source draws at random: for the two limb encryptions, the fee encryption,
   * and the two `Pedersen::new` commitments inside the proof.
   */
  datatype Randomness = Randomness(lo: Opening, hi: Opening, fee: Opening, newSource: Opening, claimed: Opening)

  function LimbLo(args: TransferInputs, rnd: Randomness): (l: Limb)
    ensures l.opening == rnd.lo && l.ciphertext.commitment == Commit(l.amount, l.opening)
    ensures Encrypts(Ciphertext(l.ciphertext.commitment, l.ciphertext.source), args.keypairSource.public, l.amount)
    ensures Encrypts(Ciphertext(l.ciphertext.commitment, l.ciphertext.dest), args.pubkeyDest, l.amount)
    ensures Encrypts(Ciphertext(l.ciphertext.commitment, l.ciphertext.auditor), args.pubkeyAuditor, l.amount)
  {
    var amountLo := Split(args.transferAmount).0;
    Limb(amountLo, AmountEncryptionNew(amountLo, args.keypairSource.public, args.pubkeyDest, args.pubkeyAuditor, rnd.lo), rnd.lo)
  }

  function LimbHi(args: TransferInputs, rnd: Randomness): (l: Limb)
    ensures l.opening == rnd.hi && l.ciphertext.commitment == Commit(l.amount, l.opening)
    ensures Encrypts(Ciphertext(l.ciphertext.commitment, l.ciphertext.source), args.keypairSource.public, l.amount)
    ensures Encrypts(Ciphertext(l.ciphertext.commitment, l.ciphertext.dest), args.pubkeyDest, l.amount)
    ensures Encrypts(Ciphertext(l.ciphertext.commitment, l.ciphertext.auditor), args.pubkeyAuditor, l.amount)
  {
    var amountHi := Split(args.transferAmount).1;
    Limb(amountHi, AmountEncryptionNew(amountHi, args.keypairSource.public, args.pubkeyDest, args.pubkeyAuditor, rnd.hi), rnd.hi)
  }

  /** The two limbs recombine to the transfer amount. */
  lemma LimbsCombine(args: TransferInputs, rnd: Randomness)
    ensures Combine(LimbLo(args, rnd).amount, LimbHi(args, rnd).amount) == args.transferAmount
  {
    CombineSplit(args.transferAmount);
  }

  /** The source's ciphertext for one limb: the limb commitment with the source handle. */
  function SourcePart(ct: AmountEncryption): Ciphertext
  {
    Ciphertext(ct.commitment, ct.source)
  }

  /** The old source ciphertext minus the recombined limb ciphertexts. */
  function NewSourceCiphertext(args: TransferInputs, rnd: Randomness): Ciphertext
  {
    CiphertextSub(args.ciphertextOldSource,
                  CombineCiphertexts(SourcePart(LimbLo(args, rnd).ciphertext), SourcePart(LimbHi(args, rnd).ciphertext)))
  }

  /** If the old source ciphertext encrypts the balance, the new one encrypts the balance less the amount. */
  lemma NewSourceCiphertextEncrypts(args: TransferInputs, rnd: Randomness)
    requires Encrypts(args.ciphertextOldSource, args.keypairSource.public, args.spendableBalance)
    ensures Encrypts(NewSourceCiphertext(args, rnd), args.keypairSource.public, args.spendableBalance - args.transferAmount)
  {
    var lo := LimbLo(args, rnd);
    var hi := LimbHi(args, rnd);
    CombineCiphertextsEncrypts(SourcePart(lo.ciphertext), SourcePart(hi.ciphertext), args.keypairSource.public,
                               lo.amount, hi.amount);
    CombineSplit(args.transferAmount);
    var combined := CombineCiphertexts(SourcePart(lo.ciphertext), SourcePart(hi.ciphertext));
    CiphertextSubEncrypts(args.ciphertextOldSource, combined, args.keypairSource.public,
                          args.spendableBalance, args.transferAmount);
  }

  /** The fee the fee ciphertext encrypts: the rounded-up fee, capped at the maximum fee. */
  function FeeToEncryptOf(args: TransferInputs): u64
  {
    FeeToEncrypt(CalculateFee(args.transferAmount, args.feeParameters.feeRateBasisPoints).0, args.feeParameters.maximumFee)
  }

  /**
   * What `TransferWithFeeData::new` hands to `TransferWithFeeProof::new`, with both corrections:
   * the fee amount is the capped fee the fee ciphertext encrypts, and `delta_fee` is the rounding
   * gap the delta commitment commits to.
   */
  function ProverInputsOf(args: TransferInputs, rnd: Randomness): (p: ProverInputs)
    requires args.transferAmount <= args.spendableBalance
    ensures p.deltaFee <= FEE_DENOMINATOR
    ensures CiphertextsMatch(p, p.feeAmount)
    ensures p.feeAmount == FeeToEncryptOf(args)
    ensures p.sourceNewBalance + args.transferAmount == args.spendableBalance
  {
    DeltaFeeBounded(args.transferAmount, args.feeParameters.feeRateBasisPoints);
    var feeToEncrypt := FeeToEncryptOf(args);
    ProverInputs(
      LimbLo(args, rnd), LimbHi(args, rnd), args.keypairSource, args.pubkeyDest, args.pubkeyAuditor,
      args.spendableBalance - args.transferAmount, NewSourceCiphertext(args, rnd),
      feeToEncrypt, FeeEncryptionNew(feeToEncrypt, args.pubkeyDest, args.pubkeyFeeCollector, rnd.fee), rnd.fee,
      CalculateFee(args.transferAmount, args.feeParameters.feeRateBasisPoints).1,
      args.pubkeyFeeCollector, args.feeParameters)
  }

  /**
   * What the source hands to `TransferWithFeeProof::new`: the uncapped `fee_amount` and the
   * remainder `rem` of `calculate_fee` as `delta_fee`.
   */
  function ProverInputsAsWritten(args: TransferInputs, rnd: Randomness): (p: ProverInputs)
    requires args.transferAmount <= args.spendableBalance
    ensures p.deltaFee <= FEE_DENOMINATOR
    ensures CiphertextsMatch(p, FeeToEncryptOf(args))
    ensures p.feeAmount == CalculateFeeAsWritten(args.transferAmount, args.feeParameters.feeRateBasisPoints).0
    ensures p.deltaFee == CalculateFeeAsWritten(args.transferAmount, args.feeParameters.feeRateBasisPoints).1
    ensures p.sourceNewBalance + args.transferAmount == args.spendableBalance
  {
    DeltaFeeBounded(args.transferAmount, args.feeParameters.feeRateBasisPoints);
    var (feeAmount, deltaFee) := CalculateFeeAsWritten(args.transferAmount, args.feeParameters.feeRateBasisPoints);
    var feeToEncrypt := FeeToEncryptOf(args);
    ProverInputs(
      LimbLo(args, rnd), LimbHi(args, rnd), args.keypairSource, args.pubkeyDest, args.pubkeyAuditor,
      args.spendableBalance - args.transferAmount, NewSourceCiphertext(args, rnd),
      feeAmount, FeeEncryptionNew(feeToEncrypt, args.pubkeyDest, args.pubkeyFeeCollector, rnd.fee), rnd.fee,
      deltaFee, args.pubkeyFeeCollector, args.feeParameters)
  }

  /** The payload `TransferWithFeeData::new` returns. */
  function Generate(e: Engines, cs: Codecs, args: TransferInputs, rnd: Randomness): (r: Result<TransferWithFeeData>)
    ensures r.Err? <==> args.transferAmount > args.spendableBalance
    ensures r.Err? ==> r.error == Generation
    ensures r.Ok? ==>
      r.value.transferWithFeePubkeys == PubkeysBytes(cs.point, PubkeysOf(ProverInputsOf(args, rnd))) &&
      r.value.feeParameters == FeeParametersBytes(args.feeParameters)
  {
    if args.transferAmount > args.spendableBalance then Err(Generation)
    else
      var p := ProverInputsOf(args, rnd);
      var pubkeys := PubkeysBytes(cs.point, PubkeysOf(p));
      var lo := cs.amount.encode(p.lo.ciphertext);
      var hi := cs.amount.encode(p.hi.ciphertext);
      var newSource := cs.ciphertext.encode(p.ciphertextNewSource);
      var fee := FeeEncryptionBytes(cs.point, p.ciphertextFee);
      var proof := FeeProof.Prove(e, cs.point, p, rnd.newSource, rnd.claimed, PublicInputLog(pubkeys, lo, hi, fee));
      Ok(TransferWithFeeData(lo, hi, pubkeys, newSource, fee, FeeParametersBytes(args.feeParameters), proof))
  }

  /** `TransferWithFeeData::new`, with the corrected fee amount and `delta_fee`. */
  method New(e: Engines, cs: Codecs, args: TransferInputs, rnd: Randomness) returns (r: Result<TransferWithFeeData>)
    ensures r == Generate(e, cs, args, rnd)
  {
    var (amountLo, amountHi) := Split(args.transferAmount);
    var ciphertextLo := AmountEncryptionNew(amountLo, args.keypairSource.public, args.pubkeyDest, args.pubkeyAuditor, rnd.lo);
    var ciphertextHi := AmountEncryptionNew(amountHi, args.keypairSource.public, args.pubkeyDest, args.pubkeyAuditor, rnd.hi);

    var newSpendableBalance := NewSpendableBalance(args.spendableBalance, args.transferAmount);
    if newSpendableBalance.Err? {
      return Err(newSpendableBalance.error);
    }

    var transferAmountLoSource := Ciphertext(ciphertextLo.commitment, ciphertextLo.source);
    var transferAmountHiSource := Ciphertext(ciphertextHi.commitment, ciphertextHi.source);
    var ciphertextNewSource := CiphertextSub(args.ciphertextOldSource,
                                             CombineCiphertexts(transferAmountLoSource, transferAmountHiSource));

    var (feeAmount, deltaFee) := CalculateFee(args.transferAmount, args.feeParameters.feeRateBasisPoints);
    DeltaFeeBounded(args.transferAmount, args.feeParameters.feeRateBasisPoints);
    var belowMax := CtGt(args.feeParameters.maximumFee, feeAmount);
    var feeToEncrypt := ConditionalSelect(args.feeParameters.maximumFee, feeAmount, belowMax);
    var ciphertextFee := FeeEncryptionNew(feeToEncrypt, args.pubkeyDest, args.pubkeyFeeCollector, rnd.fee);

    var podPubkeys := PodPubkeysNew(cs.point, args.keypairSource.public, args.pubkeyDest, args.pubkeyAuditor,
                                    args.pubkeyFeeCollector);
    var podCiphertextLo := cs.amount.encode(ciphertextLo);
    var podCiphertextHi := cs.amount.encode(ciphertextHi);
    var podCiphertextNewSource := cs.ciphertext.encode(ciphertextNewSource);
    var podCiphertextFee := FeeEncryptionToBytes(cs.point, ciphertextFee);

    var transcript := TranscriptNew(podPubkeys, podCiphertextLo, podCiphertextHi, podCiphertextFee);

    var inputs := ProverInputs(
      Limb(amountLo, ciphertextLo, rnd.lo), Limb(amountHi, ciphertextHi, rnd.hi),
      args.keypairSource, args.pubkeyDest, args.pubkeyAuditor,
      newSpendableBalance.value, ciphertextNewSource,
      feeToEncrypt, ciphertextFee, rnd.fee,
      deltaFee, args.pubkeyFeeCollector, args.feeParameters);
    assert inputs == ProverInputsOf(args, rnd);
    var proof := FeeProof.New(e, cs.point, inputs, rnd.newSource, rnd.claimed, transcript);

    var podFeeParameters := FeeParametersToBytes(args.feeParameters);
    r := Ok(TransferWithFeeData(podCiphertextLo, podCiphertextHi, podPubkeys, podCiphertextNewSource,
                                podCiphertextFee, podFeeParameters, proof));
  }

  /**
   * What `verify` returns on a payload: any decoding failure is a verification error; once every part
   * decodes, the bundled proof is checked on the transcript rebuilt from the payload's own bytes.
   */
  function Check(e: Engines, cs: Codecs, data: TransferWithFeeData): (r: Result<()>)
    ensures r.Err? ==> r.error == Verification
    ensures cs.amount.decode(data.ciphertextLo).None? ==> r == Err(Verification)
    ensures cs.amount.decode(data.ciphertextHi).None? ==> r == Err(Verification)
    ensures PubkeysFromBytes(cs.point, data.transferWithFeePubkeys).Err? ==> r == Err(Verification)
    ensures cs.ciphertext.decode(data.ciphertextNewSource).None? ==> r == Err(Verification)
    ensures FeeEncryptionFromBytes(cs.point, data.ciphertextFee).Err? ==> r == Err(Verification)
    ensures cs.amount.decode(data.ciphertextLo).Some? && cs.amount.decode(data.ciphertextHi).Some? &&
            PubkeysFromBytes(cs.point, data.transferWithFeePubkeys).Ok? &&
            cs.ciphertext.decode(data.ciphertextNewSource).Some? &&
            FeeEncryptionFromBytes(cs.point, data.ciphertextFee).Ok? ==>
      r == FeeProof.Check(e, cs.point, data.proof,
                          cs.amount.decode(data.ciphertextLo).value, cs.amount.decode(data.ciphertextHi).value,
                          PubkeysFromBytes(cs.point, data.transferWithFeePubkeys).value,
                          cs.ciphertext.decode(data.ciphertextNewSource).value,
                          FeeEncryptionFromBytes(cs.point, data.ciphertextFee).value,
                          FeeParametersFromBytes(data.feeParameters),
                          PublicInputLog(data.transferWithFeePubkeys, data.ciphertextLo, data.ciphertextHi,
                                         data.ciphertextFee))
  {
    var log := PublicInputLog(data.transferWithFeePubkeys, data.ciphertextLo, data.ciphertextHi, data.ciphertextFee);
    var ciphertextLo := cs.amount.decode(data.ciphertextLo);
    var ciphertextHi := cs.amount.decode(data.ciphertextHi);
    var pubkeys := PubkeysFromBytes(cs.point, data.transferWithFeePubkeys);
    var newSpendableCiphertext := cs.ciphertext.decode(data.ciphertextNewSource);
    var ciphertextFee := FeeEncryptionFromBytes(cs.point, data.ciphertextFee);
    if ciphertextLo.None? || ciphertextHi.None? then Err(Verification)
    else if pubkeys.Err? then Err(pubkeys.error)
    else if newSpendableCiphertext.None? then Err(Verification)
    else if ciphertextFee.Err? then Err(ciphertextFee.error)
    else FeeProof.Check(e, cs.point, data.proof, ciphertextLo.value, ciphertextHi.value, pubkeys.value,
                        newSpendableCiphertext.value, ciphertextFee.value,
                        FeeParametersFromBytes(data.feeParameters), log)
  }

  /** `Verifiable::verify` for `TransferWithFeeData`. */
  method Verify(e: Engines, cs: Codecs, data: TransferWithFeeData) returns (r: Result<()>)
    ensures r == Check(e, cs, data)
  {
    var transcript := TranscriptNew(data.transferWithFeePubkeys, data.ciphertextLo, data.ciphertextHi,
                                    data.ciphertextFee);
    var ciphertextLo := cs.amount.decode(data.ciphertextLo);
    if ciphertextLo.None? { return Err(Verification); }
    var ciphertextHi := cs.amount.decode(data.ciphertextHi);
    if ciphertextHi.None? { return Err(Verification); }
    var pubkeys := PubkeysFromBytes(cs.point, data.transferWithFeePubkeys);
    if pubkeys.Err? { return Err(pubkeys.error); }
    var newSpendableCiphertext := cs.ciphertext.decode(data.ciphertextNewSource);
    if newSpendableCiphertext.None? { return Err(Verification); }
    var ciphertextFee := FeeEncryptionFromBytes(cs.point, data.ciphertextFee);
    if ciphertextFee.Err? { return Err(ciphertextFee.error); }
    var feeParameters := FeeParametersFromBytes(data.feeParameters);

    r := FeeProof.Verify(e, cs.point, data.proof, ciphertextLo.value, ciphertextHi.value, pubkeys.value,
                         newSpendableCiphertext.value, ciphertextFee.value, feeParameters, transcript);
  }

  /** All the encodings in a generated payload decode back to what was encoded. */
  predicate EncodingsRoundTrip(cs: Codecs, p: ProverInputs, openingSource: Opening, openingClaimed: Opening)
  {
    RoundTrips(cs.point, p.keypairSource.public) && RoundTrips(cs.point, p.pubkeyDest) &&
    RoundTrips(cs.point, p.pubkeyAuditor) && RoundTrips(cs.point, p.pubkeyFeeCollector) &&
    RoundTrips(cs.point, p.ciphertextFee.commitment) && RoundTrips(cs.point, p.ciphertextFee.dest) &&
    RoundTrips(cs.point, p.ciphertextFee.feeCollector) &&
    PodRoundTrips(cs.amount, p.lo.ciphertext) && PodRoundTrips(cs.amount, p.hi.ciphertext) &&
    PodRoundTrips(cs.ciphertext, p.ciphertextNewSource) &&
    RoundTrips(cs.point, Commit(p.sourceNewBalance, openingSource)) &&
    RoundTrips(cs.point, Commit(p.deltaFee, openingClaimed))
  }

  /**
   * Every witness the corrected generation hands to the sub-provers satisfies its relation,
   * provided the old source ciphertext encrypts the spendable balance and the rate is at most
   * 100%.
   */
  lemma GenerationWitnessesHold(args: TransferInputs, rnd: Randomness)
    requires args.transferAmount <= args.spendableBalance
    requires args.feeParameters.feeRateBasisPoints <= FEE_DENOMINATOR
    requires Encrypts(args.ciphertextOldSource, args.keypairSource.public, args.spendableBalance)
    ensures var p := ProverInputsOf(args, rnd);
      forall i :: 0 <= i < 5 ==> Holds(GenerationCalls(p, rnd.newSource, rnd.claimed)[i])
  {
    var p := ProverInputsOf(args, rnd);
    var rate := args.feeParameters.feeRateBasisPoints;
    var (fee, delta) := CalculateFee(args.transferAmount, rate);
    NewSourceCiphertextEncrypts(args, rnd);
    GenerationCallsHold(p, rnd.newSource, rnd.claimed, p.feeAmount);
    CalculateFeeDelta(args.transferAmount, rate);
    CombineSplit(args.transferAmount);
    assert Combine(p.lo.amount, p.hi.amount) == args.transferAmount;
    if fee < args.feeParameters.maximumFee {
      assert p.feeAmount == fee;
    }
  }

  /**
   * Verifying what generation produces succeeds: with an old source ciphertext that encrypts the
   * spendable balance, a rate of at most 100%, complete sub-proofs and encodings that decode back,
   * `New` returns a payload and `Verify` accepts it.
   */
  lemma GenerateThenVerify(e: Engines, cs: Codecs, args: TransferInputs, rnd: Randomness)
    requires Complete(e)
    requires args.transferAmount <= args.spendableBalance
    requires args.feeParameters.feeRateBasisPoints <= FEE_DENOMINATOR
    requires Encrypts(args.ciphertextOldSource, args.keypairSource.public, args.spendableBalance)
    requires EncodingsRoundTrip(cs, ProverInputsOf(args, rnd), rnd.newSource, rnd.claimed)
    ensures Generate(e, cs, args, rnd).Ok?
    ensures Check(e, cs, Generate(e, cs, args, rnd).value) == Ok(())
  {
    var p := ProverInputsOf(args, rnd);
    var data := Generate(e, cs, args, rnd).value;
    GenerationWitnessesHold(args, rnd);
    StatementsAgree(p, rnd.newSource, rnd.claimed, p.feeAmount);
    PubkeysRoundTrip(cs.point, PubkeysOf(p));
    FeeEncryptionRoundTrip(cs.point, p.ciphertextFee);
    FeeParametersRoundTrip(args.feeParameters);
    ProveThenCheck(e, cs.point, p, rnd.newSource, rnd.claimed,
                   PublicInputLog(data.transferWithFeePubkeys, data.ciphertextLo, data.ciphertextHi, data.ciphertextFee),
                   p.lo.ciphertext, p.hi.ciphertext, PubkeysOf(p), p.ciphertextNewSource, p.ciphertextFee,
                   args.feeParameters);
  }

  // ---------------------------------------------------------------- decryption

  /** `Role`: whose decrypt handle to use. */
  datatype Role = Source | Dest | Auditor

  function HandleFor(ct: AmountEncryption, role: Role): DecryptHandle
  {
    match role
    case Source => ct.source
    case Dest => ct.dest
    case Auditor => ct.auditor
  }

  /** `ciphertext_lo`: the lo limb's commitment with the role's handle. */
  function CiphertextLo(cs: Codecs, data: TransferWithFeeData, role: Role): (r: Result<Ciphertext>)
    ensures r.Ok? <==> cs.amount.decode(data.ciphertextLo).Some?
    ensures r.Err? ==> r.error == Verification
    ensures r.Ok? ==> r.value == Ciphertext(cs.amount.decode(data.ciphertextLo).value.commitment,
                                            HandleFor(cs.amount.decode(data.ciphertextLo).value, role))
  {
    var ct := cs.amount.decode(data.ciphertextLo);
    if ct.None? then Err(Verification)
    else
      var handle := match role
        case Source => ct.value.source
        case Dest => ct.value.dest
        case Auditor => ct.value.auditor;
      Ok(Ciphertext(ct.value.commitment, handle))
  }

  /** `ciphertext_hi`: the hi limb's commitment with the role's handle. */
  function CiphertextHi(cs: Codecs, data: TransferWithFeeData, role: Role): (r: Result<Ciphertext>)
    ensures r.Ok? <==> cs.amount.decode(data.ciphertextHi).Some?
    ensures r.Err? ==> r.error == Verification
    ensures r.Ok? ==> r.value == Ciphertext(cs.amount.decode(data.ciphertextHi).value.commitment,
                                            HandleFor(cs.amount.decode(data.ciphertextHi).value, role))
  {
    var ct := cs.amount.decode(data.ciphertextHi);
    if ct.None? then Err(Verification)
    else
      var handle := match role
        case Source => ct.value.source
        case Dest => ct.value.dest
        case Auditor => ct.value.auditor;
      Ok(Ciphertext(ct.value.commitment, handle))
  }

  /**
   * `decrypt_amount`, with `decrypt_u32_online` given as `decryptU32`: both limbs must decrypt,
   * and the amount is `lo + 2^32 * hi`, which cannot overflow a u64.
   */
  function DecryptAmount(cs: Codecs, data: TransferWithFeeData, role: Role, secret: Scalar,
                         decryptU32: (Ciphertext, Scalar) -> Option<u32>): (r: Result<u64>)
    ensures r.Err? ==> r.error == Verification
    ensures r.Ok? <==>
      CiphertextLo(cs, data, role).Ok? && CiphertextHi(cs, data, role).Ok? &&
      decryptU32(CiphertextLo(cs, data, role).value, secret).Some? &&
      decryptU32(CiphertextHi(cs, data, role).value, secret).Some?
    ensures r.Ok? ==>
      Split(r.value) == (decryptU32(CiphertextLo(cs, data, role).value, secret).value,
                         decryptU32(CiphertextHi(cs, data, role).value, secret).value)
  {
    var ciphertextLo := CiphertextLo(cs, data, role);
    if ciphertextLo.Err? then Err(ciphertextLo.error)
    else
      var ciphertextHi := CiphertextHi(cs, data, role);
      if ciphertextHi.Err? then Err(ciphertextHi.error)
      else
        var amountLo := decryptU32(ciphertextLo.value, secret);
        var amountHi := decryptU32(ciphertextHi.value, secret);
        if amountLo.Some? && amountHi.Some? then
          SplitCombine(amountLo.value, amountHi.value);
          Ok(Combine(amountLo.value, amountHi.value) as u64)
        else Err(Verification)
  }

  /** The discrete-log decryption recovers every 32-bit value encrypted under the keypair. */
  ghost predicate DecryptsU32(decryptU32: (Ciphertext, Scalar) -> Option<u32>, keypair: Keypair)
  {
    forall ct: Ciphertext, x: int :: 0 <= x < TWO_32 && Encrypts(ct, keypair.public, x) ==>
      decryptU32(ct, keypair.secret) == Some(x)
  }

  function RoleKey(args: TransferInputs, role: Role): Pubkey
  {
    match role
    case Source => args.keypairSource.public
    case Dest => args.pubkeyDest
    case Auditor => args.pubkeyAuditor
  }

  /**
   * Each of the three roles recovers the transfer amount from a generated payload with its own
   * keypair, given a correct 32-bit decryption and limb encodings that decode back.
   */
  lemma DecryptGenerated(e: Engines, cs: Codecs, args: TransferInputs, rnd: Randomness, role: Role, keypair: Keypair,
                         decryptU32: (Ciphertext, Scalar) -> Option<u32>)
    requires args.transferAmount <= args.spendableBalance
    requires keypair.public == RoleKey(args, role)
    requires DecryptsU32(decryptU32, keypair)
    requires PodRoundTrips(cs.amount, LimbLo(args, rnd).ciphertext) && PodRoundTrips(cs.amount, LimbHi(args, rnd).ciphertext)
    ensures DecryptAmount(cs, Generate(e, cs, args, rnd).value, role, keypair.secret, decryptU32) == Ok(args.transferAmount)
  {
    var data := Generate(e, cs, args, rnd).value;
    var lo := LimbLo(args, rnd);
    var hi := LimbHi(args, rnd);
    assert Encrypts(CiphertextLo(cs, data, role).value, keypair.public, lo.amount);
    assert Encrypts(CiphertextHi(cs, data, role).value, keypair.public, hi.amount);
    var r := DecryptAmount(cs, data, role, keypair.secret, decryptU32);
    CombineSplit(args.transferAmount);
    SplitCombine(lo.amount, hi.amount);
  }

  // ---------------------------------------------------------------- the source as written

  /**
   * As written, a transfer of 1 at a rate of 1 basis point (maximum fee 3) hands the fee sigma
   * prover `delta_fee = rem = 1`, while the delta commitment commits to 10000 - 1 = 9999 and the
   * fee ciphertext does not encrypt the maximum fee: the witness does not satisfy the relation.
   */
  lemma AsWrittenDeltaFeeUnprovable(args: TransferInputs, rnd: Randomness)
    requires args.transferAmount == 1 && args.spendableBalance >= 1
    requires args.feeParameters == FeeParameters(1, 3)
    ensures !Holds(GenerationCalls(ProverInputsAsWritten(args, rnd), rnd.newSource, rnd.claimed)[2])
  {
    var p := ProverInputsAsWritten(args, rnd);
    assert CalculateFeeAsWritten(1, 1) == (1, 1);
    assert FeeToEncryptOf(args) == 1;
    GenerationCallsHold(p, rnd.newSource, rnd.claimed, 1);
    CombineSplit(1);
    assert Combine(p.lo.amount, p.hi.amount) == 1;
    assert !Holds(GenerationCalls(p, rnd.newSource, rnd.claimed)[2]) by {
      var sigma := GenerationCalls(p, rnd.newSource, rnd.claimed)[2];
      DeltaCommitmentOpens(p.lo.amount, p.lo.opening, p.hi.amount, p.hi.opening, 1, p.openingFee, 1);
      assert sigma.commitmentDelta.g == 9999;
      assert sigma.commitmentFee.g == 1;
    }
  }

  /**
   * As written, a transfer of 10000 at a rate of 10000 basis points with a maximum fee of 50
   * hands the fee validity prover the uncapped fee 10000, while the fee ciphertext encrypts 50:
   * the claims the provers prove are not the claims the verifiers check.
   */
  lemma AsWrittenFeeValidityMismatch(args: TransferInputs, rnd: Randomness)
    requires args.transferAmount == 10000 && args.spendableBalance >= 10000
    requires args.feeParameters == FeeParameters(10000, 50)
    ensures var p := ProverInputsAsWritten(args, rnd);
      Statements(GenerationCalls(p, rnd.newSource, rnd.claimed))
        != VerificationChecks(p.lo.ciphertext, p.hi.ciphertext, PubkeysOf(p), p.ciphertextNewSource, p.ciphertextFee,
                              p.feeParameters, Commit(p.sourceNewBalance, rnd.newSource),
                              Commit(p.deltaFee, rnd.claimed))
  {
    var p := ProverInputsAsWritten(args, rnd);
    assert CalculateFeeAsWritten(10000, 10000) == (10000, 0);
    assert FeeToEncryptOf(args) == 50;
    StatementsAgree(p, rnd.newSource, rnd.claimed, 50);
  }

  /**
   * With the corrections the claims the provers prove are exactly the claims the verifiers check,
   * for every input.
   */
  lemma CorrectedStatementsAgree(args: TransferInputs, rnd: Randomness)
    requires args.transferAmount <= args.spendableBalance
    ensures var p := ProverInputsOf(args, rnd);
      Statements(GenerationCalls(p, rnd.newSource, rnd.claimed))
        == VerificationChecks(p.lo.ciphertext, p.hi.ciphertext, PubkeysOf(p), p.ciphertextNewSource, p.ciphertextFee,
                              p.feeParameters, Commit(p.sourceNewBalance, rnd.newSource),
                              Commit(p.deltaFee, rnd.claimed))
  {
    var p := ProverInputsOf(args, rnd);
    StatementsAgree(p, rnd.newSource, rnd.claimed, p.feeAmount);
  }

  /**
   * In the scenario of the source's own test (a transfer of 100 from a balance of 120 at 100 basis
   * points, maximum fee 3) the fee division is exact and the fee 1 is below the cap, so what the
   * source hands to the prover coincides with the corrected inputs.
   */
  lemma AsWrittenAgreesOnTestScenario(args: TransferInputs, rnd: Randomness)
    requires args.transferAmount == 100 && args.spendableBalance == 120
    requires args.feeParameters == FeeParameters(100, 3)
    ensures ProverInputsAsWritten(args, rnd) == ProverInputsOf(args, rnd)
    ensures ProverInputsOf(args, rnd).feeAmount == 1 && ProverInputsOf(args, rnd).deltaFee == 0
  {
    CalculateFeeExample();
    assert FeeToEncryptOf(args) == 1;
  }
}
