/**
 * `TransferWithFeeProof`: the two standalone commitments and the five sub-proofs, generated and
 * verified in one fixed order on one transcript.
 */
module FeeProof {
  import opened Primitives
  import opened Algebra
  import opened FeeArithmetic
  import opened DeltaCommitment
  import opened Records
  import opened Transcripts
  import opened SubProofs
  import AmountCodec

  const DOMAIN_LABEL: string := "FeeProof"

  datatype TransferWithFeeProof = TransferWithFeeProof(
    commitmentNewSource: Bytes32,
    commitmentClaimed: Bytes32,
    equalityProof: seq<byte>,
    ciphertextAmountValidityProof: seq<byte>,
    feeSigmaProof: seq<byte>,
    ciphertextFeeValidityProof: seq<byte>,
    rangeProof: seq<byte>)

  /** The five sub-proofs in the order they are generated and verified. */
  function SubProofsOf(p: TransferWithFeeProof): (ps: seq<seq<byte>>)
    ensures |ps| == 5
  {
    [p.equalityProof, p.ciphertextAmountValidityProof, p.feeSigmaProof, p.ciphertextFeeValidityProof, p.rangeProof]
  }

  /** The public inputs `transcript_new` binds, in order. */
  function PublicInputLog(pubkeys: Bytes128, ciphertextLo: seq<byte>, ciphertextHi: seq<byte>, ciphertextFee: Bytes96)
    : (log: seq<Entry>)
    ensures |log| == 5 && log[0] == Entry("dom-sep", Ascii(DOMAIN_LABEL))
    ensures log[1].name == "transfer-with-fee-pubkeys" && log[2].name == "ciphertext-lo"
    ensures log[3].name == "ciphertext-hi" && log[4].name == "ciphertext-fee"
    ensures log[1].message == pubkeys && log[2].message == ciphertextLo
    ensures log[3].message == ciphertextHi && log[4].message == ciphertextFee
  {
    [Entry("dom-sep", Ascii(DOMAIN_LABEL)),
     Entry("transfer-with-fee-pubkeys", pubkeys),
     Entry("ciphertext-lo", ciphertextLo),
     Entry("ciphertext-hi", ciphertextHi),
     Entry("ciphertext-fee", ciphertextFee)]
  }

  /** `TransferWithFeeProof::transcript_new`. */
  method TranscriptNew(pubkeys: Bytes128, ciphertextLo: seq<byte>, ciphertextHi: seq<byte>, ciphertextFee: Bytes96)
    returns (transcript: Transcript)
    ensures fresh(transcript)
    ensures transcript.log == PublicInputLog(pubkeys, ciphertextLo, ciphertextHi, ciphertextFee)
  {
    transcript := new Transcript(DOMAIN_LABEL);
    transcript.AppendMessage("transfer-with-fee-pubkeys", pubkeys);
    transcript.AppendMessage("ciphertext-lo", ciphertextLo);
    transcript.AppendMessage("ciphertext-hi", ciphertextHi);
    transcript.AppendMessage("ciphertext-fee", ciphertextFee);
  }

  /** One 32-bit limb of the transfer amount with its encryption and opening. */
  datatype Limb = Limb(amount: u32, ciphertext: AmountEncryption, opening: Opening)

  /** The arguments of `TransferWithFeeProof::new`, apart from its transcript. */
  datatype ProverInputs = ProverInputs(
    lo: Limb, hi: Limb,
    keypairSource: Keypair, pubkeyDest: Pubkey, pubkeyAuditor: Pubkey,
    sourceNewBalance: u64, ciphertextNewSource: Ciphertext,
    feeAmount: u64, ciphertextFee: FeeEncryption, openingFee: Opening,
    deltaFee: u64, pubkeyFeeCollector: Pubkey, feeParameters: FeeParameters)

  /** The five prover calls of `TransferWithFeeProof::new`, in order, with `Pedersen::new`'s openings given. */
  function GenerationCalls(p: ProverInputs, openingSource: Opening, openingClaimed: Opening): (calls: seq<ProverCall>)
    requires p.deltaFee <= FEE_DENOMINATOR
    ensures |calls| == 5
    ensures calls[0].EqualityProver? && calls[1].AggregatedValidityProver? && calls[2].FeeSigmaProver?
    ensures calls[3].ValidityProver? && calls[4].RangeProver?
    ensures calls[4].bitLengths == [64, 32, 32, 64, 64]
    ensures |calls[4].amounts| == 5 && calls[4].amounts[3] + calls[4].amounts[4] == FEE_DENOMINATOR
    ensures |calls[4].openings| == 5 && calls[4].openings[3] + calls[4].openings[4] == 0
  {
    var (commitmentDelta, openingDelta) := ComputeDeltaCommitmentAndOpening(
      p.lo.ciphertext.commitment, p.lo.opening, p.hi.ciphertext.commitment, p.hi.opening,
      p.ciphertextFee.commitment, p.openingFee, p.feeParameters.feeRateBasisPoints);
    [EqualityProver(p.keypairSource, p.ciphertextNewSource, p.sourceNewBalance, openingSource),
     AggregatedValidityProver(p.pubkeyDest, p.pubkeyAuditor, p.lo.amount, p.hi.amount, p.lo.opening, p.hi.opening),
     FeeSigmaProver(p.feeAmount, p.ciphertextFee.commitment, p.openingFee,
                    p.deltaFee, commitmentDelta, openingDelta,
                    Commit(p.deltaFee, openingClaimed), openingClaimed, p.feeParameters.maximumFee),
     ValidityProver(p.pubkeyDest, p.pubkeyFeeCollector, p.feeAmount, p.openingFee),
     RangeProver([p.sourceNewBalance, p.lo.amount, p.hi.amount, p.deltaFee, FEE_DENOMINATOR - p.deltaFee],
                 [64, 32, 32, 64, 64],
                 [openingSource, p.lo.opening, p.hi.opening, openingClaimed, 0 - openingClaimed])]
  }

  /** The two commitments both sides append before any sub-proof, as generation writes them. */
  function GenerationCommitmentLog(newSource: Bytes32, claimed: Bytes32): seq<Entry>
  {
    [Entry("commitment-new-source", newSource), Entry("commitment-claimed", claimed)]
  }

  /** The proof `TransferWithFeeProof::new` returns when its transcript log is `log`. */
  function Prove(e: Engines, pc: PointCodec, p: ProverInputs, openingSource: Opening, openingClaimed: Opening,
                 log: seq<Entry>): (proof: TransferWithFeeProof)
    requires p.deltaFee <= FEE_DENOMINATOR
    ensures proof.commitmentNewSource == pc.encode(Commit(p.sourceNewBalance, openingSource))
    ensures proof.commitmentClaimed == pc.encode(Commit(p.deltaFee, openingClaimed))
    ensures SubProofsOf(proof) == ProveAll(e, GenerationCalls(p, openingSource, openingClaimed),
                                           log + GenerationCommitmentLog(proof.commitmentNewSource, proof.commitmentClaimed))
  {
    var newSource := pc.encode(Commit(p.sourceNewBalance, openingSource));
    var claimed := pc.encode(Commit(p.deltaFee, openingClaimed));
    var ps := ProveAll(e, GenerationCalls(p, openingSource, openingClaimed),
                       log + GenerationCommitmentLog(newSource, claimed));
    var proof := TransferWithFeeProof(newSource, claimed, ps[0], ps[1], ps[2], ps[3], ps[4]);
    assert SubProofsOf(proof) == ps;
    proof
  }

  lemma AbsorbedFive(e: Engines, ps: seq<seq<byte>>)
    requires |ps| == 5
    ensures LogAt(e, ps, [], 5)
         == e.absorb(ps[0]) + e.absorb(ps[1]) + e.absorb(ps[2]) + e.absorb(ps[3]) + e.absorb(ps[4])
  {
    assert ps[..5] == ps;
    assert Absorbed(e, ps[4..]) == e.absorb(ps[4]);
    assert Absorbed(e, ps[3..]) == e.absorb(ps[3]) + Absorbed(e, ps[4..]);
    assert Absorbed(e, ps[2..]) == e.absorb(ps[2]) + Absorbed(e, ps[3..]);
    assert Absorbed(e, ps[1..]) == e.absorb(ps[1]) + Absorbed(e, ps[2..]);
  }

  /** Five sub-proofs generated in turn, unfolded. */
  lemma ProveFive(e: Engines, c0: ProverCall, c1: ProverCall, c2: ProverCall, c3: ProverCall, c4: ProverCall,
                  log: seq<Entry>)
    ensures var p0 := e.prove(c0, log);
      var p1 := e.prove(c1, log + e.absorb(p0));
      var p2 := e.prove(c2, log + e.absorb(p0) + e.absorb(p1));
      var p3 := e.prove(c3, log + e.absorb(p0) + e.absorb(p1) + e.absorb(p2));
      var p4 := e.prove(c4, log + e.absorb(p0) + e.absorb(p1) + e.absorb(p2) + e.absorb(p3));
      ProveAll(e, [c0, c1, c2, c3, c4], log) == [p0, p1, p2, p3, p4] &&
      LogAt(e, [p0, p1, p2, p3, p4], log, 5)
        == log + e.absorb(p0) + e.absorb(p1) + e.absorb(p2) + e.absorb(p3) + e.absorb(p4)
  {
    var p0 := e.prove(c0, log);
    var l1 := log + e.absorb(p0);
    var p1 := e.prove(c1, l1);
    var l2 := l1 + e.absorb(p1);
    var p2 := e.prove(c2, l2);
    var l3 := l2 + e.absorb(p2);
    var p3 := e.prove(c3, l3);
    var l4 := l3 + e.absorb(p3);
    var p4 := e.prove(c4, l4);
    assert [c4][1..] == [];
    assert ProveAll(e, [c4], l4) == [p4];
    assert [c3, c4][1..] == [c4];
    assert ProveAll(e, [c3, c4], l3) == [p3, p4];
    assert [c2, c3, c4][1..] == [c3, c4];
    assert ProveAll(e, [c2, c3, c4], l2) == [p2, p3, p4];
    assert [c1, c2, c3, c4][1..] == [c2, c3, c4];
    assert ProveAll(e, [c1, c2, c3, c4], l1) == [p1, p2, p3, p4];
    assert [c0, c1, c2, c3, c4][1..] == [c1, c2, c3, c4];
    assert ProveAll(e, [c0, c1, c2, c3, c4], log) == [p0, p1, p2, p3, p4];
    var ps := [p0, p1, p2, p3, p4];
    AbsorbedFive(e, ps);
    assert LogAt(e, ps, log, 5) == log + LogAt(e, ps, [], 5);
  }

  /** Five sub-proofs verified in turn, unfolded. */
  lemma VerifyFive(e: Engines, k0: VerifierCall, k1: VerifierCall, k2: VerifierCall, k3: VerifierCall, k4: VerifierCall,
                   ps: seq<seq<byte>>, log: seq<Entry>)
    requires |ps| == 5
    ensures VerifyAll(e, [k0, k1, k2, k3, k4], ps, log) ==
      (e.verify(k0, ps[0], log) &&
       e.verify(k1, ps[1], log + e.absorb(ps[0])) &&
       e.verify(k2, ps[2], log + e.absorb(ps[0]) + e.absorb(ps[1])) &&
       e.verify(k3, ps[3], log + e.absorb(ps[0]) + e.absorb(ps[1]) + e.absorb(ps[2])) &&
       e.verify(k4, ps[4], log + e.absorb(ps[0]) + e.absorb(ps[1]) + e.absorb(ps[2]) + e.absorb(ps[3])))
    ensures LogAt(e, ps, log, 5)
      == log + e.absorb(ps[0]) + e.absorb(ps[1]) + e.absorb(ps[2]) + e.absorb(ps[3]) + e.absorb(ps[4])
  {
    var l1 := log + e.absorb(ps[0]);
    var l2 := l1 + e.absorb(ps[1]);
    var l3 := l2 + e.absorb(ps[2]);
    var l4 := l3 + e.absorb(ps[3]);
    assert [k4][1..] == [] && ps[4..][1..] == [];
    assert VerifyAll(e, [k4], ps[4..], l4) == e.verify(k4, ps[4], l4);
    assert [k3, k4][1..] == [k4] && ps[3..][1..] == ps[4..];
    assert VerifyAll(e, [k3, k4], ps[3..], l3) == (e.verify(k3, ps[3], l3) && VerifyAll(e, [k4], ps[4..], l4));
    assert [k2, k3, k4][1..] == [k3, k4] && ps[2..][1..] == ps[3..];
    assert VerifyAll(e, [k2, k3, k4], ps[2..], l2) == (e.verify(k2, ps[2], l2) && VerifyAll(e, [k3, k4], ps[3..], l3));
    assert [k1, k2, k3, k4][1..] == [k2, k3, k4] && ps[1..][1..] == ps[2..];
    assert VerifyAll(e, [k1, k2, k3, k4], ps[1..], l1) == (e.verify(k1, ps[1], l1) && VerifyAll(e, [k2, k3, k4], ps[2..], l2));
    assert [k0, k1, k2, k3, k4][1..] == [k1, k2, k3, k4];
    assert VerifyAll(e, [k0, k1, k2, k3, k4], ps, log) == (e.verify(k0, ps[0], log) && VerifyAll(e, [k1, k2, k3, k4], ps[1..], l1));
    AbsorbedFive(e, ps);
    assert LogAt(e, ps, log, 5) == log + LogAt(e, ps, [], 5);
  }

  /**
   * `TransferWithFeeProof::new`. `FEE_DENOMINATOR - delta_fee` is a u64 subtraction, so the source
   * needs `delta_fee <= FEE_DENOMINATOR`.
   */
  method New(e: Engines, pc: PointCodec, p: ProverInputs, openingSource: Opening, openingClaimed: Opening,
             transcript: Transcript)
    returns (proof: TransferWithFeeProof)
    requires p.deltaFee <= FEE_DENOMINATOR
    modifies transcript
    ensures proof == Prove(e, pc, p, openingSource, openingClaimed, old(transcript.log))
    ensures transcript.log == LogAt(e, SubProofsOf(proof),
      old(transcript.log) + GenerationCommitmentLog(proof.commitmentNewSource, proof.commitmentClaimed), 5)
  {
    var commitmentNewSource := Commit(p.sourceNewBalance, openingSource);
    var commitmentClaimed := Commit(p.deltaFee, openingClaimed);
    var podCommitmentNewSource := pc.encode(commitmentNewSource);
    var podCommitmentClaimed := pc.encode(commitmentClaimed);

    ghost var log0 := transcript.log;
    transcript.AppendMessage("commitment-new-source", podCommitmentNewSource);
    transcript.AppendMessage("commitment-claimed", podCommitmentClaimed);
    ghost var log1 := transcript.log;

    var equality := EqualityProver(p.keypairSource, p.ciphertextNewSource, p.sourceNewBalance, openingSource);
    var equalityProof := SubProofs.Prove(e, equality, transcript);

    var amountValidity := AggregatedValidityProver(p.pubkeyDest, p.pubkeyAuditor, p.lo.amount, p.hi.amount,
                                                   p.lo.opening, p.hi.opening);
    var ciphertextAmountValidityProof := SubProofs.Prove(e, amountValidity, transcript);

    var (commitmentDelta, openingDelta) := ComputeDeltaCommitmentAndOpening(
      p.lo.ciphertext.commitment, p.lo.opening, p.hi.ciphertext.commitment, p.hi.opening,
      p.ciphertextFee.commitment, p.openingFee, p.feeParameters.feeRateBasisPoints);

    var feeSigma := FeeSigmaProver(p.feeAmount, p.ciphertextFee.commitment, p.openingFee,
                                   p.deltaFee, commitmentDelta, openingDelta,
                                   commitmentClaimed, openingClaimed, p.feeParameters.maximumFee);
    var feeSigmaProof := SubProofs.Prove(e, feeSigma, transcript);

    var feeValidity := ValidityProver(p.pubkeyDest, p.pubkeyFeeCollector, p.feeAmount, p.openingFee);
    var ciphertextFeeValidityProof := SubProofs.Prove(e, feeValidity, transcript);

    var openingClaimedNegated := 0 - openingClaimed;
    var range := RangeProver(
      [p.sourceNewBalance, p.lo.amount, p.hi.amount, p.deltaFee, FEE_DENOMINATOR - p.deltaFee],
      [64, 32, 32, 64, 64],
      [openingSource, p.lo.opening, p.hi.opening, openingClaimed, openingClaimedNegated]);
    var rangeProof := SubProofs.Prove(e, range, transcript);

    proof := TransferWithFeeProof(podCommitmentNewSource, podCommitmentClaimed, equalityProof,
                                  ciphertextAmountValidityProof, feeSigmaProof,
                                  ciphertextFeeValidityProof, rangeProof);
    assert GenerationCalls(p, openingSource, openingClaimed) == [equality, amountValidity, feeSigma, feeValidity, range];
    ProveFive(e, equality, amountValidity, feeSigma, feeValidity, range, log1);
    assert log1 == log0 + GenerationCommitmentLog(podCommitmentNewSource, podCommitmentClaimed);
    assert ProveAll(e, GenerationCalls(p, openingSource, openingClaimed), log1)
        == [equalityProof, ciphertextAmountValidityProof, feeSigmaProof, ciphertextFeeValidityProof, rangeProof];
    assert SubProofsOf(proof) == [equalityProof, ciphertextAmountValidityProof, feeSigmaProof,
                                  ciphertextFeeValidityProof, rangeProof];
  }

  /** The five verifier calls of `TransferWithFeeProof::verify`, in order. */
  function VerificationChecks(
    ciphertextLo: AmountEncryption, ciphertextHi: AmountEncryption, pubkeys: TransferWithFeePubkeys,
    newSpendableCiphertext: Ciphertext, ciphertextFee: FeeEncryption, feeParameters: FeeParameters,
    commitmentNewSource: Commitment, commitmentClaimed: Commitment): (checks: seq<VerifierCall>)
    ensures |checks| == 5
    ensures checks[0].EqualityVerifier? && checks[1].AggregatedValidityVerifier? && checks[2].FeeSigmaVerifier?
    ensures checks[3].ValidityVerifier? && checks[4].RangeVerifier?
    ensures checks[4].bitLengths == [64, 32, 32, 64, 64]
    ensures |checks[4].commitments| == 5
    ensures Add(checks[4].commitments[3], checks[4].commitments[4]) == Encode(FEE_DENOMINATOR)
  {
    var commitmentDelta := ComputeDeltaCommitment(ciphertextLo.commitment, ciphertextHi.commitment,
                                                  ciphertextFee.commitment, feeParameters.feeRateBasisPoints);
    [EqualityVerifier(pubkeys.source, newSpendableCiphertext, commitmentNewSource),
     AggregatedValidityVerifier(pubkeys.dest, pubkeys.auditor, ciphertextLo.commitment, ciphertextHi.commitment,
                                ciphertextLo.dest, ciphertextHi.dest, ciphertextLo.auditor, ciphertextHi.auditor),
     FeeSigmaVerifier(ciphertextFee.commitment, commitmentDelta, commitmentClaimed, feeParameters.maximumFee),
     ValidityVerifier(ciphertextFee.commitment, pubkeys.dest, pubkeys.feeCollector,
                      ciphertextFee.dest, ciphertextFee.feeCollector),
     RangeVerifier([commitmentNewSource, ciphertextLo.commitment, ciphertextHi.commitment, commitmentClaimed,
                    Sub(Encode(FEE_DENOMINATOR), commitmentClaimed)],
                   [64, 32, 32, 64, 64])]
  }

  /** The two commitments as verification appends them. */
  function VerificationCommitmentLog(proof: TransferWithFeeProof): seq<Entry>
  {
    [Entry("commitment-new-source", proof.commitmentNewSource), Entry("commitment-claimed", proof.commitmentClaimed)]
  }

  /** What `TransferWithFeeProof::verify` returns when its transcript log is `log`. */
  function Check(e: Engines, pc: PointCodec, proof: TransferWithFeeProof,
                 ciphertextLo: AmountEncryption, ciphertextHi: AmountEncryption, pubkeys: TransferWithFeePubkeys,
                 newSpendableCiphertext: Ciphertext, ciphertextFee: FeeEncryption, feeParameters: FeeParameters,
                 log: seq<Entry>): (r: Result<()>)
    ensures r.Err? ==> r.error == Verification
    ensures r.Ok? <==>
      pc.decode(proof.commitmentNewSource).Some? && pc.decode(proof.commitmentClaimed).Some? &&
      VerifyAll(e, VerificationChecks(ciphertextLo, ciphertextHi, pubkeys, newSpendableCiphertext, ciphertextFee,
                                      feeParameters, pc.decode(proof.commitmentNewSource).value,
                                      pc.decode(proof.commitmentClaimed).value),
                SubProofsOf(proof), log + VerificationCommitmentLog(proof))
  {
    var commitmentNewSource := pc.decode(proof.commitmentNewSource);
    var commitmentClaimed := pc.decode(proof.commitmentClaimed);
    if commitmentNewSource.None? || commitmentClaimed.None? then Err(Verification)
    else if VerifyAll(e, VerificationChecks(ciphertextLo, ciphertextHi, pubkeys, newSpendableCiphertext, ciphertextFee,
                                            feeParameters, commitmentNewSource.value, commitmentClaimed.value),
                      SubProofsOf(proof), log + VerificationCommitmentLog(proof))
    then Ok(())
    else Err(Verification)
  }

  /** `TransferWithFeeProof::verify`: every `?` returns at the first failure. */
  method Verify(e: Engines, pc: PointCodec, proof: TransferWithFeeProof,
                ciphertextLo: AmountEncryption, ciphertextHi: AmountEncryption, pubkeys: TransferWithFeePubkeys,
                newSpendableCiphertext: Ciphertext, ciphertextFee: FeeEncryption, feeParameters: FeeParameters,
                transcript: Transcript)
    returns (r: Result<()>)
    modifies transcript
    ensures r == Check(e, pc, proof, ciphertextLo, ciphertextHi, pubkeys, newSpendableCiphertext, ciphertextFee,
                       feeParameters, old(transcript.log))
    ensures r.Ok? ==> transcript.log == LogAt(e, SubProofsOf(proof), old(transcript.log) + VerificationCommitmentLog(proof), 5)
  {
    ghost var log0 := transcript.log;
    transcript.AppendMessage("commitment-new-source", proof.commitmentNewSource);
    transcript.AppendMessage("commitment-claimed", proof.commitmentClaimed);
    ghost var log1 := transcript.log;
    ghost var ps := SubProofsOf(proof);

    var commitmentNewSource := pc.decode(proof.commitmentNewSource);
    assert log1 == log0 + VerificationCommitmentLog(proof);
    if commitmentNewSource.None? { return Err(Verification); }
    var commitmentClaimed := pc.decode(proof.commitmentClaimed);
    if commitmentClaimed.None? { return Err(Verification); }
    ghost var checks := VerificationChecks(ciphertextLo, ciphertextHi, pubkeys, newSpendableCiphertext, ciphertextFee,
                                           feeParameters, commitmentNewSource.value, commitmentClaimed.value);
    VerifyFive(e, checks[0], checks[1], checks[2], checks[3], checks[4], ps, log1);
    assert checks == [checks[0], checks[1], checks[2], checks[3], checks[4]];
    assert Check(e, pc, proof, ciphertextLo, ciphertextHi, pubkeys, newSpendableCiphertext, ciphertextFee,
                 feeParameters, log0)
        == if VerifyAll(e, checks, ps, log1) then Ok(()) else Err(Verification);

    var ok := SubProofs.Verify(e, EqualityVerifier(pubkeys.source, newSpendableCiphertext, commitmentNewSource.value),
                               proof.equalityProof, transcript);
    if !ok { return Err(Verification); }

    ok := SubProofs.Verify(e, AggregatedValidityVerifier(pubkeys.dest, pubkeys.auditor,
                                                         ciphertextLo.commitment, ciphertextHi.commitment,
                                                         ciphertextLo.dest, ciphertextHi.dest,
                                                         ciphertextLo.auditor, ciphertextHi.auditor),
                           proof.ciphertextAmountValidityProof, transcript);
    if !ok { return Err(Verification); }

    var commitmentDelta := ComputeDeltaCommitment(ciphertextLo.commitment, ciphertextHi.commitment,
                                                  ciphertextFee.commitment, feeParameters.feeRateBasisPoints);
    ok := SubProofs.Verify(e, FeeSigmaVerifier(ciphertextFee.commitment, commitmentDelta, commitmentClaimed.value,
                                               feeParameters.maximumFee),
                           proof.feeSigmaProof, transcript);
    if !ok { return Err(Verification); }

    ok := SubProofs.Verify(e, ValidityVerifier(ciphertextFee.commitment, pubkeys.dest, pubkeys.feeCollector,
                                               ciphertextFee.dest, ciphertextFee.feeCollector),
                           proof.ciphertextFeeValidityProof, transcript);
    if !ok { return Err(Verification); }

    var commitmentClaimedNegated := Sub(Encode(FEE_DENOMINATOR), commitmentClaimed.value);
    ok := SubProofs.Verify(e, RangeVerifier([commitmentNewSource.value, ciphertextLo.commitment, ciphertextHi.commitment,
                                             commitmentClaimed.value, commitmentClaimedNegated],
                                            [64, 32, 32, 64, 64]),
                           proof.rangeProof, transcript);
    if !ok { return Err(Verification); }

    r := Ok(());
  }

  /** The public keys the prover's inputs name, in the record the verifier reads them from. */
  function PubkeysOf(p: ProverInputs): TransferWithFeePubkeys
  {
    TransferWithFeePubkeys(p.keypairSource.public, p.pubkeyDest, p.pubkeyAuditor, p.pubkeyFeeCollector)
  }

  /**
   * The limb ciphertexts are the encryptions under the three keys with the limb openings, and the
   * fee ciphertext encrypts `feeEncrypted` with the fee opening.
   */
  predicate CiphertextsMatch(p: ProverInputs, feeEncrypted: int)
  {
    p.lo.ciphertext == AmountEncryptionNew(p.lo.amount, p.keypairSource.public, p.pubkeyDest, p.pubkeyAuditor, p.lo.opening) &&
    p.hi.ciphertext == AmountEncryptionNew(p.hi.amount, p.keypairSource.public, p.pubkeyDest, p.pubkeyAuditor, p.hi.opening) &&
    p.ciphertextFee == FeeEncryptionNew(feeEncrypted, p.pubkeyDest, p.pubkeyFeeCollector, p.openingFee)
  }

  /**
   * On matching ciphertexts, the claims the five provers prove are exactly the claims the five
   * verifiers check (given the two standalone commitments) if and only if the fee amount handed
   * to the prover is the fee amount the fee ciphertext encrypts.
   */
  lemma StatementsAgree(p: ProverInputs, openingSource: Opening, openingClaimed: Opening, feeEncrypted: int)
    requires p.deltaFee <= FEE_DENOMINATOR
    requires CiphertextsMatch(p, feeEncrypted)
    ensures Statements(GenerationCalls(p, openingSource, openingClaimed))
         == VerificationChecks(p.lo.ciphertext, p.hi.ciphertext, PubkeysOf(p), p.ciphertextNewSource, p.ciphertextFee,
                               p.feeParameters, Commit(p.sourceNewBalance, openingSource),
                               Commit(p.deltaFee, openingClaimed))
      <==> feeEncrypted == p.feeAmount
  {
    var calls := GenerationCalls(p, openingSource, openingClaimed);
    var statements := Statements(calls);
    var checks := VerificationChecks(p.lo.ciphertext, p.hi.ciphertext, PubkeysOf(p), p.ciphertextNewSource,
                                     p.ciphertextFee, p.feeParameters, Commit(p.sourceNewBalance, openingSource),
                                     Commit(p.deltaFee, openingClaimed));
    DeltaCommitmentAgrees(p.lo.ciphertext.commitment, p.lo.opening, p.hi.ciphertext.commitment, p.hi.opening,
                          p.ciphertextFee.commitment, p.openingFee, p.feeParameters.feeRateBasisPoints);
    assert statements[0] == checks[0] && statements[1] == checks[1] && statements[2] == checks[2];
    var range := calls[4];
    assert Commitments(range.amounts, range.openings) == checks[4].commitments;
    assert statements[4] == checks[4];
    if feeEncrypted == p.feeAmount {
      assert statements[3] == checks[3];
      assert statements == checks;
    } else {
      assert statements[3].commitment.g != checks[3].commitment.g;
    }
  }

  /**
   * On matching ciphertexts every prover's witness satisfies its relation if and only if the new
   * source ciphertext encrypts the new balance, and either the fee ciphertext encrypts the maximum
   * fee or `delta_fee` is the value the delta commitment commits to.
   */
  lemma GenerationCallsHold(p: ProverInputs, openingSource: Opening, openingClaimed: Opening, feeEncrypted: int)
    requires p.deltaFee <= FEE_DENOMINATOR
    requires CiphertextsMatch(p, feeEncrypted)
    ensures (forall i :: 0 <= i < 5 ==> Holds(GenerationCalls(p, openingSource, openingClaimed)[i]))
      <==> Encrypts(p.ciphertextNewSource, p.keypairSource.public, p.sourceNewBalance) &&
           (feeEncrypted == p.feeParameters.maximumFee ||
            feeEncrypted * FEE_DENOMINATOR - AmountCodec.Combine(p.lo.amount, p.hi.amount) * p.feeParameters.feeRateBasisPoints
              == p.deltaFee)
  {
    var calls := GenerationCalls(p, openingSource, openingClaimed);
    RangeCallHolds(p, openingSource, openingClaimed);
    FeeSigmaCallHolds(p, openingSource, openingClaimed, feeEncrypted);
    assert Holds(calls[1]) && Holds(calls[3]);
    assert Holds(calls[0]) == Encrypts(p.ciphertextNewSource, p.keypairSource.public, p.sourceNewBalance);
  }

  /** The values of the range proof lie within their widths. */
  lemma RangeCallHolds(p: ProverInputs, openingSource: Opening, openingClaimed: Opening)
    requires p.deltaFee <= FEE_DENOMINATOR
    ensures Holds(GenerationCalls(p, openingSource, openingClaimed)[4])
  {
    var range := GenerationCalls(p, openingSource, openingClaimed)[4];
    Pow2Widths();
    forall i | 0 <= i < 5 ensures 0 <= range.amounts[i] < Pow2(range.bitLengths[i]) {
    }
  }

  /**
   * The fee sigma witness satisfies its relation exactly when the fee ciphertext encrypts the
   * maximum fee or `delta_fee` is what the delta commitment commits to.
   */
  lemma FeeSigmaCallHolds(p: ProverInputs, openingSource: Opening, openingClaimed: Opening, feeEncrypted: int)
    requires p.deltaFee <= FEE_DENOMINATOR
    requires CiphertextsMatch(p, feeEncrypted)
    ensures Holds(GenerationCalls(p, openingSource, openingClaimed)[2])
      <==> (feeEncrypted == p.feeParameters.maximumFee ||
            feeEncrypted * FEE_DENOMINATOR - AmountCodec.Combine(p.lo.amount, p.hi.amount) * p.feeParameters.feeRateBasisPoints
              == p.deltaFee)
  {
    DeltaCommitmentOpens(p.lo.amount, p.lo.opening, p.hi.amount, p.hi.opening, feeEncrypted, p.openingFee,
                         p.feeParameters.feeRateBasisPoints);
    var sigma := GenerationCalls(p, openingSource, openingClaimed)[2];
    assert sigma.commitmentFee == Commit(feeEncrypted, p.openingFee);
    assert sigma.commitmentClaimed == Commit(p.deltaFee, openingClaimed);
    assert sigma.commitmentDelta.g == feeEncrypted * FEE_DENOMINATOR
      - AmountCodec.Combine(p.lo.amount, p.hi.amount) * p.feeParameters.feeRateBasisPoints;
    assert sigma.commitmentDelta.h == sigma.openingDelta;
  }

  /**
   * Generation and verification mirror each other: a proof generated from witnesses that satisfy
   * every relation, verified against exactly the claims it proves from the same transcript state,
   * with both standalone commitments decoding back, is accepted.
   */
  lemma ProveThenCheck(e: Engines, pc: PointCodec, p: ProverInputs, openingSource: Opening, openingClaimed: Opening,
                       log: seq<Entry>,
                       ciphertextLo: AmountEncryption, ciphertextHi: AmountEncryption, pubkeys: TransferWithFeePubkeys,
                       newSpendableCiphertext: Ciphertext, ciphertextFee: FeeEncryption, feeParameters: FeeParameters)
    requires Complete(e)
    requires p.deltaFee <= FEE_DENOMINATOR
    requires forall i :: 0 <= i < 5 ==> Holds(GenerationCalls(p, openingSource, openingClaimed)[i])
    requires RoundTrips(pc, Commit(p.sourceNewBalance, openingSource)) && RoundTrips(pc, Commit(p.deltaFee, openingClaimed))
    requires Statements(GenerationCalls(p, openingSource, openingClaimed))
          == VerificationChecks(ciphertextLo, ciphertextHi, pubkeys, newSpendableCiphertext, ciphertextFee,
                                feeParameters, Commit(p.sourceNewBalance, openingSource),
                                Commit(p.deltaFee, openingClaimed))
    ensures Check(e, pc, Prove(e, pc, p, openingSource, openingClaimed, log), ciphertextLo, ciphertextHi, pubkeys,
                  newSpendableCiphertext, ciphertextFee, feeParameters, log) == Ok(())
  {
    var proof := Prove(e, pc, p, openingSource, openingClaimed, log);
    var calls := GenerationCalls(p, openingSource, openingClaimed);
    assert VerificationCommitmentLog(proof) == GenerationCommitmentLog(proof.commitmentNewSource, proof.commitmentClaimed);
    ProveThenVerify(e, calls, log + VerificationCommitmentLog(proof));
  }
}
