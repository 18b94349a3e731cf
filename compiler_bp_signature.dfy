/** The signature of the Bulletproofs compiler WAKE
    (compiler_bp_wake_signature.rs): signing a message string is a range
    proof, bound to the message, that the signer's balance meets the
    minimum; verifying checks that proof against the signer's published
    commitment shifted by min_bal. */
module CompilerBpSignature {
  import opened Groups
  import opened Utility
  import opened RangeProofSystem

  datatype CompSignature = CompSignature(rangeProof: RangeProof)

  /** `CompSignature::sign`. The `unwrap` of the proof result panics for a
      balance below min_bal, and the proof's u64 subtraction for a balance
      above upperbound + min_bal: both are excluded by the precondition. */
  function Sign(pc: PedersenGens, sha256: Sha256, messageString: string, minBal: U64, balance: U64, blinding: Scalar, upperbound: U64): (sig: CompSignature)
    requires minBal <= balance <= upperbound + minBal && UpperboundLog(upperbound).Ok?
    ensures sig.rangeProof.commitment == Compress(Commit(pc, ProvenValue(New(pc, minBal, upperbound), balance), blinding))
    ensures sig.rangeProof.transcript == AuxTranscript(sha256, messageString)
  {
    var rangeProofStruct := New(pc, minBal, upperbound);
    CompSignature(Prove(rangeProofStruct, sha256, balance, blinding, messageString).value)
  }

  /** `CompSignature::verify_signature`: the range proof checked against
      the compressed commitment, with the message string as the auxiliary
      challenge string. */
  function VerifySignature(sig: CompSignature, sha256: Sha256, messageString: string, rangeProofStruct: RangeProofStruct, commitment: Point): bool
    requires UpperboundLog(rangeProofStruct.upperbound).Ok?
  {
    Verify(rangeProofStruct, sha256, sig.rangeProof, Compress(commitment), messageString)
  }

  /** A signature verifies exactly against the commitment to the signer's
      proven value under the signer's blinding, and a message string that
      hashes as the signed one did. */
  lemma SignVerify(pc: PedersenGens, sha256: Sha256, signed: string, minBal: U64, balance: U64, blinding: Scalar, upperbound: U64, checked: string, commitment: Point)
    requires minBal <= balance <= upperbound + minBal && UpperboundLog(upperbound).Ok?
    ensures VerifySignature(Sign(pc, sha256, signed, minBal, balance, blinding, upperbound), sha256, checked, New(pc, minBal, upperbound), commitment)
        <==> commitment == Commit(pc, ProvenValue(New(pc, minBal, upperbound), balance), blinding) && sha256(signed) == sha256(checked)
  {
    var s := New(pc, minBal, upperbound);
    var expected := Commit(pc, ProvenValue(s, balance), blinding);
    ProveVerify(s, sha256, balance, blinding, signed, Compress(commitment), checked);
    if Compress(commitment) == Compress(expected) {
      CompressInjective(commitment, expected);
    }
  }
}
