/** The Bulletproofs range-proof wrapper `RangeProofStruct`: a minimum
    balance guard, the derivation of the proven value from the balance, and
    the bit-size choice from the upper bound. The Bulletproofs library and
    Merlin transcripts are an ideal functionality: a proof records what was
    proved, and verification compares it with what the verifier expects. */
module RangeProofSystem {
  import opened Common
  import opened Groups
  import opened Text
  import opened Utility

  /** `PedersenGens::default()`: B is the Ristretto basepoint; B_blinding
      has a discrete log nobody knows, so it is a parameter of the model. */
  datatype PedersenGens = PedersenGens(blinding: Point)

  /** The Pedersen commitment v·B + r·B_blinding to a u64 value. */
  function Commit(pc: PedersenGens, v: nat, r: Scalar): Point
  {
    PAdd(PMul(BasePoint, SFrom(v)), PMul(pc.blinding, r))
  }

  /** A Merlin transcript: a label and the appended (label, message) pairs. */
  datatype Transcript = Transcript(protocolLabel: string, messages: seq<(string, Digest)>)

  /** The transcript both prover and verifier start from: label
      "range proof" and the SHA-256 of the auxiliary challenge string. */
  function AuxTranscript(sha256: Sha256, aux: string): Transcript
  {
    Transcript("range proof", [("auxilliary challenge string", HashString(sha256, aux))])
  }

  /** An ideal single-value range proof: the commitment it is about, the
      bit size and the transcript it was bound to. */
  datatype RangeProof = RangeProof(commitment: Compressed, bitsize: nat, transcript: Transcript)

  const InvalidBitsize: string := "invalid bitsize"
  const ValueOutOfRange: string := "value out of range"

  /** `RangeProof::prove_single`: fails for a bit size other than 8, 16, 32
      or 64, and (ideal soundness) for a value outside [0, 2^n); otherwise
      returns the proof and the compressed commitment. */
  function ProveSingle(pc: PedersenGens, transcript: Transcript, v: U64, r: Scalar, n: nat): (res: Result<(RangeProof, Compressed)>)
    ensures res.Ok? <==> ValidBitsize(n) && v < Pow2(n)
    ensures res.Ok? ==> res.value.0.commitment == res.value.1 == Compress(Commit(pc, v, r))
  {
    if !ValidBitsize(n) then Err(InvalidBitsize)
    else if v >= Pow2(n) then Err(ValueOutOfRange)
    else
      var c := Compress(Commit(pc, v, r));
      Ok((RangeProof(c, n, transcript), c))
  }

  /** `RangeProof::verify_single`: the commitment must decompress and the
      proof must be about it, with the same bit size and transcript. */
  function VerifySingle(proof: RangeProof, transcript: Transcript, committed: Compressed, n: nat): bool
  {
    ValidBitsize(n) && Decompress(committed).Some?
    && proof.commitment == committed && proof.bitsize == n && proof.transcript == transcript
  }

  /** The public parameters of the range proof. */
  datatype RangeProofStruct = RangeProofStruct(pcGens: PedersenGens, minBal: U64, upperbound: U64)

  /** `RangeProofStruct::new`: no validation, both bounds kept as given. */
  function New(pc: PedersenGens, minBal: U64, upperbound: U64): (s: RangeProofStruct)
    ensures s.minBal == minBal && s.upperbound == upperbound && s.pcGens == pc
  {
    RangeProofStruct(pc, minBal, upperbound)
  }

  const MinimumBalanceError: string := "minimum balance requirement was not met"

  /** The value the proof is about: how far the balance surplus
      b - min_bal stays below the upper bound. */
  function ProvenValue(s: RangeProofStruct, b: U64): nat
    requires s.minBal <= b <= s.upperbound + s.minBal
  {
    s.upperbound - (b - s.minBal)
  }

  /** For a valid upper bound 2^n - 1 and an admissible balance the proven
      value lies in [0, 2^n), so the library call cannot fail; a balance of
      exactly min_bal proves the upper bound itself. */
  lemma ProvenValueInRange(s: RangeProofStruct, b: U64)
    requires s.minBal <= b <= s.upperbound + s.minBal
    requires UpperboundLog(s.upperbound).Ok?
    ensures ProvenValue(s, b) <= s.upperbound
    ensures ProvenValue(s, b) < Pow2(UpperboundLog(s.upperbound).value)
    ensures b == s.minBal ==> ProvenValue(s, b) == s.upperbound
  {
    UpperboundLogExact(s.upperbound, UpperboundLog(s.upperbound).value);
  }

  /** `RangeProofStruct::prove`. The u64 subtraction and the `unwrap` of
      the bit size are preconditions on the balances that get past the
      guard; the `expect` on the library call is unreachable. */
  function Prove(s: RangeProofStruct, sha256: Sha256, b: U64, r: Scalar, aux: string): (res: Result<RangeProof>)
    requires s.minBal <= b ==> b - s.minBal <= s.upperbound && UpperboundLog(s.upperbound).Ok?
    ensures res.Err? <==> b < s.minBal
    ensures res.Err? ==> res.error == MinimumBalanceError
    ensures res.Ok? ==> res.value.commitment == Compress(Commit(s.pcGens, ProvenValue(s, b), r))
    ensures res.Ok? ==> res.value.transcript == AuxTranscript(sha256, aux)
    ensures res.Ok? ==> s.upperbound + 1 == Pow2(res.value.bitsize)
  {
    if b < s.minBal then Err(MinimumBalanceError)
    else
      var v := ProvenValue(s, b);
      var n := UpperboundLog(s.upperbound).value;
      ProvenValueInRange(s, b);
      UpperboundLogExact(s.upperbound, n);
      var single := ProveSingle(s.pcGens, AuxTranscript(sha256, aux), v, r, n);
      Ok(single.value.0)
  }

  /** `RangeProofStruct::verify`; the bit size is unwrapped as in `prove`. */
  function Verify(s: RangeProofStruct, sha256: Sha256, proof: RangeProof, committed: Compressed, aux: string): bool
    requires UpperboundLog(s.upperbound).Ok?
  {
    VerifySingle(proof, AuxTranscript(sha256, aux), committed, UpperboundLog(s.upperbound).value)
  }

  /** An honest proof verifies exactly against the commitment to the proven
      value and an auxiliary string with the prover's digest: completeness,
      and rejection of any other commitment or of a differently hashed
      auxiliary string. */
  lemma ProveVerify(s: RangeProofStruct, sha256: Sha256, b: U64, r: Scalar, auxP: string, committed: Compressed, auxV: string)
    requires s.minBal <= b <= s.upperbound + s.minBal
    requires UpperboundLog(s.upperbound).Ok?
    ensures Prove(s, sha256, b, r, auxP).Ok?
    ensures Verify(s, sha256, Prove(s, sha256, b, r, auxP).value, committed, auxV)
        <==> committed == Compress(Commit(s.pcGens, ProvenValue(s, b), r)) && sha256(auxP) == sha256(auxV)
  {
    var c := Compress(Commit(s.pcGens, ProvenValue(s, b), r));
    DecompressCompress(Commit(s.pcGens, ProvenValue(s, b), r));
    UpperboundLogExact(s.upperbound, UpperboundLog(s.upperbound).value);
    if sha256(auxP) != sha256(auxV) {
      assert AuxTranscript(sha256, auxP).messages[0].1 != AuxTranscript(sha256, auxV).messages[0].1;
    }
  }
}
