/** The messages and the signature of the optimized Bulletproofs WAKE
    (optimized_bp_wake_signature_and_session_authentication.rs). A
    signature pairs a discrete-log proof for the sender's round-1 point,
    whose auxiliary string is the message followed by the sender's
    commitment, with a range proof about the committed balance, whose
    auxiliary string is the message followed by the rendering of the
    discrete-log proof. The session record `VK` of this protocol is
    declared in optimized_bp_wake_protocol.rs, which is not part of this
    model: a message holds the record's rendering. */
module OptimizedBpSignature {
  import opened Text
  import opened Groups
  import opened Utility
  import opened RangeProofSystem
  import DL = DlProof

  /** `OptimizedMessage`: sender index, payload and the rendering of the
      sender's session record. */
  datatype OptimizedMessage = OptimizedMessage(idx: nat, payload: Point, vkString: string)

  /** `OptimizedMessage::to_string`. */
  function OptimizedMessageString(m: OptimizedMessage): string
  {
    Decimal(m.idx) + "##" + PointToString(m.payload) + "##" + m.vkString
  }

  /** When the session rendering contains no '#', the message rendering
      splits on "##" into exactly its three fields. */
  lemma OptimizedMessageSplit(m: OptimizedMessage)
    requires NoHash(m.vkString)
    ensures Split(OptimizedMessageString(m)) == [Decimal(m.idx), PointToString(m.payload), m.vkString]
  {
    var fields := [Decimal(m.idx), PointToString(m.payload), m.vkString];
    assert NoHash(fields[0]) && NoHash(fields[1]);
    assert Join(fields) == OptimizedMessageString(m) by {
      assert Join(fields[2..]) == fields[2];
      assert Join(fields[1..]) == fields[1] + "##" + fields[2];
    }
    SplitJoin(fields);
  }

  /** Such messages are equal exactly when their renderings are. */
  lemma OptimizedMessageStringInjective(m: OptimizedMessage, n: OptimizedMessage)
    requires NoHash(m.vkString) && NoHash(n.vkString)
    requires OptimizedMessageString(m) == OptimizedMessageString(n)
    ensures m == n
  {
    OptimizedMessageSplit(m);
    OptimizedMessageSplit(n);
    DecimalInjective(m.idx, n.idx);
    PointToStringInjective(m.payload, n.payload);
  }

  datatype OptimizedSignatureAndSessionAuthentication =
    OptimizedSignatureAndSessionAuthentication(discreteLogKnowledgeProof: DL.DiscreteLogKnowledgeProof, rangeProof: RangeProof)

  /** The discrete-log proof's auxiliary string: the message, then the
      commitment in hex. */
  function DlAux(messageString: string, commitment: Point): string
  {
    messageString + PointToString(commitment)
  }

  /** The range proof's auxiliary string: the message, then the rendering
      of the discrete-log proof. */
  function RangeAux(messageString: string, dl: DL.DiscreteLogKnowledgeProof): string
  {
    messageString + DL.ProofToString(dl)
  }

  /** `sign`, with the discrete-log prover's random nonce as a parameter.
      The `unwrap` of the range proof panics for a balance below min_bal,
      and its u64 subtraction for one above upperbound + min_bal; both are
      excluded by the precondition, as is an upper bound whose bit size
      `prove` cannot unwrap. */
  function Sign(pc: PedersenGens, sha256: Sha256, messageString: string, minBal: U64, balance: U64, blinding: Scalar,
                dlStatement: Compressed, dlWitness: Scalar, dlNonce: Scalar, upperbound: U64, commitment: Point)
    : (sig: OptimizedSignatureAndSessionAuthentication)
    requires minBal <= balance <= upperbound + minBal && UpperboundLog(upperbound).Ok?
    ensures sig.discreteLogKnowledgeProof.challenge
         == DL.Challenge(sha256, dlStatement, DlAux(messageString, commitment))
    ensures sig.rangeProof.commitment == Compress(Commit(pc, ProvenValue(New(pc, minBal, upperbound), balance), blinding))
    ensures sig.rangeProof.transcript == AuxTranscript(sha256, RangeAux(messageString, sig.discreteLogKnowledgeProof))
  {
    var dl := DL.Prove(DL.DiscreteLogKnowledgeProofStruct(dlStatement), sha256, dlWitness, dlNonce, DlAux(messageString, commitment));
    var rangeProofStruct := New(pc, minBal, upperbound);
    OptimizedSignatureAndSessionAuthentication(dl, Prove(rangeProofStruct, sha256, balance, blinding, RangeAux(messageString, dl)).value)
  }

  /** `verify_signature`: the discrete-log proof against the commitment's
      auxiliary string, and the range proof against the compressed
      commitment; both must hold. The discrete-log check decompresses both
      points and panics when either is not a point. */
  function VerifySignature(sig: OptimizedSignatureAndSessionAuthentication, sha256: Sha256, messageString: string,
                           dlStruct: DL.DiscreteLogKnowledgeProofStruct, rangeProofStruct: RangeProofStruct, commitment: Point): bool
    requires Decompress(sig.discreteLogKnowledgeProof.statement).Some? && Decompress(dlStruct.statement).Some?
    requires UpperboundLog(rangeProofStruct.upperbound).Ok?
  {
    DL.Verify(dlStruct, sha256, sig.discreteLogKnowledgeProof, DlAux(messageString, commitment))
    && Verify(rangeProofStruct, sha256, sig.rangeProof, Compress(commitment), RangeAux(messageString, sig.discreteLogKnowledgeProof))
  }

  /** A signature made with the secret x of the point g·x and checked
      against that point verifies exactly when the discrete-log challenges
      of the two auxiliary strings agree, the checked commitment is the
      signer's commitment to its proven value, and the range auxiliary
      strings hash alike. */
  lemma SignVerify(pc: PedersenGens, sha256: Sha256, signed: string, minBal: U64, balance: U64, blinding: Scalar, x: Scalar,
                   dlNonce: Scalar, upperbound: U64, signedCommitment: Point, checked: string, commitment: Point)
    requires minBal <= balance <= upperbound + minBal && UpperboundLog(upperbound).Ok?
    ensures var st := DL.StructFor(x);
            var sig := Sign(pc, sha256, signed, minBal, balance, blinding, st.statement, x, dlNonce, upperbound, signedCommitment);
            Decompress(sig.discreteLogKnowledgeProof.statement).Some?
            && (VerifySignature(sig, sha256, checked, st, New(pc, minBal, upperbound), commitment)
                <==> DL.Challenge(sha256, st.statement, DlAux(signed, signedCommitment))
                     == DL.Challenge(sha256, st.statement, DlAux(checked, commitment))
                     && commitment == Commit(pc, ProvenValue(New(pc, minBal, upperbound), balance), blinding)
                     && sha256(RangeAux(signed, sig.discreteLogKnowledgeProof)) == sha256(RangeAux(checked, sig.discreteLogKnowledgeProof)))
  {
    var st := DL.StructFor(x);
    var s := New(pc, minBal, upperbound);
    var sig := Sign(pc, sha256, signed, minBal, balance, blinding, st.statement, x, dlNonce, upperbound, signedCommitment);
    var dl := sig.discreteLogKnowledgeProof;
    DL.ProveVerify(sha256, x, dlNonce, DlAux(signed, signedCommitment), DlAux(checked, commitment));
    ProveVerify(s, sha256, balance, blinding, RangeAux(signed, dl), Compress(commitment), RangeAux(checked, dl));
    var expected := Commit(pc, ProvenValue(s, balance), blinding);
    if Compress(commitment) == Compress(expected) {
      CompressInjective(commitment, expected);
    }
  }

  /** Completeness: the signer's own message and commitment verify. */
  lemma SignVerifyHonest(pc: PedersenGens, sha256: Sha256, messageString: string, minBal: U64, balance: U64, blinding: Scalar,
                         x: Scalar, dlNonce: Scalar, upperbound: U64)
    requires minBal <= balance <= upperbound + minBal && UpperboundLog(upperbound).Ok?
    ensures var st := DL.StructFor(x);
            var commitment := Commit(pc, ProvenValue(New(pc, minBal, upperbound), balance), blinding);
            var sig := Sign(pc, sha256, messageString, minBal, balance, blinding, st.statement, x, dlNonce, upperbound, commitment);
            Decompress(sig.discreteLogKnowledgeProof.statement).Some?
            && VerifySignature(sig, sha256, messageString, st, New(pc, minBal, upperbound), commitment)
  {
    var commitment := Commit(pc, ProvenValue(New(pc, minBal, upperbound), balance), blinding);
    SignVerify(pc, sha256, messageString, minBal, balance, blinding, x, dlNonce, upperbound, commitment, messageString, commitment);
  }
}
