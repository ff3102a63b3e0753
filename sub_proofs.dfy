/**
 * The five sub-proofs (equality, aggregated validity, fee sigma, validity, range) as opaque
 * provers and verifiers over the transcript log. A prover call carries the arguments the source
 * passes to `X::new`; a verifier call the arguments it passes to `x.verify`. `Statement` is the
 * public claim an honest prover call is about, and `Holds` says that its witness satisfies the
 * relation of that sub-proof.
 */
module SubProofs {
  import opened Primitives
  import opened Algebra
  import opened Transcripts

  datatype ProverCall =
    | EqualityProver(keypair: Keypair, ciphertext: Ciphertext, amount: int, opening: Opening)
    | AggregatedValidityProver(pubkeyDest: Pubkey, pubkeyAuditor: Pubkey,
                               amountLo: int, amountHi: int, openingLo: Opening, openingHi: Opening)
    | FeeSigmaProver(feeAmount: int, commitmentFee: Commitment, openingFee: Opening,
                     deltaFee: int, commitmentDelta: Commitment, openingDelta: Opening,
                     commitmentClaimed: Commitment, openingClaimed: Opening, maximumFee: int)
    | ValidityProver(pubkeyDest: Pubkey, pubkeyFeeCollector: Pubkey, amount: int, opening: Opening)
    | RangeProver(amounts: seq<int>, bitLengths: seq<nat>, openings: seq<Opening>)

  datatype VerifierCall =
    | EqualityVerifier(pubkey: Pubkey, ciphertext: Ciphertext, commitment: Commitment)
    | AggregatedValidityVerifier(pubkeyDest: Pubkey, pubkeyAuditor: Pubkey,
                                 commitmentLo: Commitment, commitmentHi: Commitment,
                                 handleLoDest: DecryptHandle, handleHiDest: DecryptHandle,
                                 handleLoAuditor: DecryptHandle, handleHiAuditor: DecryptHandle)
    | FeeSigmaVerifier(commitmentFee: Commitment, commitmentDelta: Commitment,
                       commitmentClaimed: Commitment, maximumFee: int)
    | ValidityVerifier(commitment: Commitment, pubkeyDest: Pubkey, pubkeyFeeCollector: Pubkey,
                       handleDest: DecryptHandle, handleFeeCollector: DecryptHandle)
    | RangeVerifier(commitments: seq<Commitment>, bitLengths: seq<nat>)

  /** The commitments a range prover implicitly builds from its values and openings. */
  function Commitments(amounts: seq<int>, openings: seq<Opening>): (cs: seq<Commitment>)
    requires |amounts| == |openings|
    ensures |cs| == |amounts| && forall i :: 0 <= i < |cs| ==> cs[i] == Commit(amounts[i], openings[i])
  {
    seq(|amounts|, i requires 0 <= i < |amounts| => Commit(amounts[i], openings[i]))
  }

  /** The public claim an honest prover call proves: what its verifier must be given. */
  function Statement(c: ProverCall): VerifierCall
  {
    match c
    case EqualityProver(keypair, ciphertext, amount, opening) =>
      EqualityVerifier(keypair.public, ciphertext, Commit(amount, opening))
    case AggregatedValidityProver(pkDest, pkAuditor, lo, hi, oLo, oHi) =>
      AggregatedValidityVerifier(pkDest, pkAuditor, Commit(lo, oLo), Commit(hi, oHi),
                                 Handle(pkDest, oLo), Handle(pkDest, oHi),
                                 Handle(pkAuditor, oLo), Handle(pkAuditor, oHi))
    case FeeSigmaProver(_, cFee, _, _, cDelta, _, cClaimed, _, maximumFee) =>
      FeeSigmaVerifier(cFee, cDelta, cClaimed, maximumFee)
    case ValidityProver(pkDest, pkFeeCollector, amount, opening) =>
      ValidityVerifier(Commit(amount, opening), pkDest, pkFeeCollector,
                       Handle(pkDest, opening), Handle(pkFeeCollector, opening))
    case RangeProver(amounts, bitLengths, openings) =>
      RangeVerifier(if |amounts| == |openings| then Commitments(amounts, openings) else [], bitLengths)
  }

  /**
   * The witness of a prover call satisfies its sub-proof's relation: the ciphertext encrypts the
   * committed amount (equality); the fee commitment opens to the maximum fee, or the delta and
   * claimed commitments open to the same value (fee sigma); every value lies in its bit range (range).
   * Validity witnesses always satisfy the claim they imply.
   */
  predicate Holds(c: ProverCall)
  {
    match c
    case EqualityProver(keypair, ciphertext, amount, _) => Encrypts(ciphertext, keypair.public, amount)
    case AggregatedValidityProver(_, _, _, _, _, _) => true
    case FeeSigmaProver(_, cFee, oFee, delta, cDelta, oDelta, cClaimed, oClaimed, maximumFee) =>
      cFee == Commit(maximumFee, oFee) ||
      (cDelta == Commit(delta, oDelta) && cClaimed == Commit(delta, oClaimed))
    case ValidityProver(_, _, _, _) => true
    case RangeProver(amounts, bitLengths, openings) =>
      |amounts| == |bitLengths| == |openings| &&
      forall i :: 0 <= i < |amounts| ==> 0 <= amounts[i] < Pow2(bitLengths[i])
  }

  /**
   * The sub-proof primitives, opaque: a prover reads the transcript log and returns the proof's
   * bytes; a verifier reads the claim, the proof's bytes (decoding them) and the log; and both
   * sides of a sub-proof append the same messages, determined by the proof, to the transcript.
   */
  datatype Engines = Engines(
    prove: (ProverCall, seq<Entry>) -> seq<byte>,
    verify: (VerifierCall, seq<byte>, seq<Entry>) -> bool,
    absorb: seq<byte> -> seq<Entry>)

  /** An honest proof of a true claim, checked against the same log, is accepted. */
  ghost predicate Complete(e: Engines)
  {
    forall c: ProverCall, log: seq<Entry> :: Holds(c) ==> e.verify(Statement(c), e.prove(c, log), log)
  }

  /** Everything the sub-proofs have appended after the given proofs, in order. */
  function Absorbed(e: Engines, proofs: seq<seq<byte>>): seq<Entry>
  {
    if proofs == [] then [] else e.absorb(proofs[0]) + Absorbed(e, proofs[1..])
  }

  /** The log the i-th sub-proof reads. */
  function LogAt(e: Engines, proofs: seq<seq<byte>>, log: seq<Entry>, i: nat): seq<Entry>
    requires i <= |proofs|
  {
    log + Absorbed(e, proofs[..i])
  }

  /** Running the provers one after the other on one transcript. */
  function ProveAll(e: Engines, calls: seq<ProverCall>, log: seq<Entry>): (proofs: seq<seq<byte>>)
    ensures |proofs| == |calls|
  {
    if calls == [] then []
    else
      var p := e.prove(calls[0], log);
      [p] + ProveAll(e, calls[1..], log + e.absorb(p))
  }

  /** Running the verifiers one after the other, stopping at the first that rejects. */
  function VerifyAll(e: Engines, checks: seq<VerifierCall>, proofs: seq<seq<byte>>, log: seq<Entry>): bool
    requires |checks| == |proofs|
  {
    if checks == [] then true
    else e.verify(checks[0], proofs[0], log) && VerifyAll(e, checks[1..], proofs[1..], log + e.absorb(proofs[0]))
  }

  function Statements(calls: seq<ProverCall>): (checks: seq<VerifierCall>)
    ensures |checks| == |calls| && forall i :: 0 <= i < |calls| ==> checks[i] == Statement(calls[i])
  {
    seq(|calls|, i requires 0 <= i < |calls| => Statement(calls[i]))
  }

  lemma {:induction false} AbsorbedStep(e: Engines, proofs: seq<seq<byte>>, i: nat)
    requires 0 < i <= |proofs|
    ensures Absorbed(e, proofs[..i]) == e.absorb(proofs[0]) + Absorbed(e, proofs[1..][..i - 1])
  {
    assert proofs[..i][1..] == proofs[1..][..i - 1];
  }

  /** The i-th prover reads the log every earlier sub-proof has appended to. */
  lemma {:induction false} ProveAllReads(e: Engines, calls: seq<ProverCall>, log: seq<Entry>, i: nat)
    requires i < |calls|
    ensures var proofs := ProveAll(e, calls, log);
      proofs[i] == e.prove(calls[i], LogAt(e, proofs, log, i))
  {
    var proofs := ProveAll(e, calls, log);
    if i == 0 {
      assert proofs[..0] == [];
      assert LogAt(e, proofs, log, 0) == log;
    } else {
      var p := e.prove(calls[0], log);
      var log' := log + e.absorb(p);
      var rest := ProveAll(e, calls[1..], log');
      ProveAllReads(e, calls[1..], log', i - 1);
      assert proofs == [p] + rest;
      assert proofs[0] == p && proofs[1..] == rest;
      AbsorbedStep(e, proofs, i);
      assert LogAt(e, proofs, log, i) == log' + Absorbed(e, rest[..i - 1]);
      assert proofs[i] == rest[i - 1] && calls[i] == calls[1..][i - 1];
    }
  }

  /** The verifiers accept exactly when the i-th verifier accepts on the same log, for every i. */
  lemma {:induction false} VerifyAllReads(e: Engines, checks: seq<VerifierCall>, proofs: seq<seq<byte>>, log: seq<Entry>)
    requires |checks| == |proofs|
    ensures VerifyAll(e, checks, proofs, log) <==>
      forall i :: 0 <= i < |checks| ==> e.verify(checks[i], proofs[i], LogAt(e, proofs, log, i))
  {
    if checks != [] {
      var log' := log + e.absorb(proofs[0]);
      VerifyAllReads(e, checks[1..], proofs[1..], log');
      assert proofs[..0] == [];
      assert LogAt(e, proofs, log, 0) == log;
      forall i | 0 < i < |checks|
        ensures LogAt(e, proofs, log, i) == LogAt(e, proofs[1..], log', i - 1)
      {
        AbsorbedStep(e, proofs, i);
        assert log + (e.absorb(proofs[0]) + Absorbed(e, proofs[1..][..i - 1]))
            == log' + Absorbed(e, proofs[1..][..i - 1]);
      }
      if VerifyAll(e, checks, proofs, log) {
        forall i | 0 <= i < |checks|
          ensures e.verify(checks[i], proofs[i], LogAt(e, proofs, log, i))
        {
          if i > 0 {
            assert checks[1..][i - 1] == checks[i] && proofs[1..][i - 1] == proofs[i];
          }
        }
      } else if e.verify(checks[0], proofs[0], log) {
        var j :| 0 <= j < |checks| - 1 && !e.verify(checks[1..][j], proofs[1..][j], LogAt(e, proofs[1..], log', j));
        assert !e.verify(checks[j + 1], proofs[j + 1], LogAt(e, proofs, log, j + 1));
      }
    }
  }

  /**
   * Generation and verification mirror each other: verifying the honest proofs of true claims
   * against those very claims, from the log the provers started on, succeeds.
   */
  lemma {:induction false} ProveThenVerify(e: Engines, calls: seq<ProverCall>, log: seq<Entry>)
    requires Complete(e)
    requires forall i :: 0 <= i < |calls| ==> Holds(calls[i])
    ensures VerifyAll(e, Statements(calls), ProveAll(e, calls, log), log)
  {
    var proofs := ProveAll(e, calls, log);
    var checks := Statements(calls);
    forall i | 0 <= i < |calls|
      ensures e.verify(checks[i], proofs[i], LogAt(e, proofs, log, i))
    {
      ProveAllReads(e, calls, log, i);
    }
    VerifyAllReads(e, checks, proofs, log);
  }

  /** One prover call on the shared transcript. */
  method Prove(e: Engines, call: ProverCall, transcript: Transcript) returns (proof: seq<byte>)
    modifies transcript
    ensures proof == e.prove(call, old(transcript.log))
    ensures transcript.log == old(transcript.log) + e.absorb(proof)
  {
    proof := e.prove(call, transcript.log);
    transcript.AppendEntries(e.absorb(proof));
  }

  /** One verifier call on the shared transcript. */
  method Verify(e: Engines, check: VerifierCall, proof: seq<byte>, transcript: Transcript) returns (ok: bool)
    modifies transcript
    ensures ok == e.verify(check, proof, old(transcript.log))
    ensures transcript.log == old(transcript.log) + e.absorb(proof)
  {
    ok := e.verify(check, proof, transcript.log);
    transcript.AppendEntries(e.absorb(proof));
  }
}
