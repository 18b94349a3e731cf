/** The messages and the signature of the optimized GM17 WAKE
    (optimized_gm17_wake_signature_and_session_authentication.rs and the
    `VK` record of optimized_gm17_wake_protocol.rs). A signature pairs a
    discrete-log proof for the sender's round-1 point, which authenticates
    the session, with a GM17 proof about the sender's balance image; each
    proof's auxiliary string extends the message rendering, the GM17 one
    with the rendering of the discrete-log proof. */
module OptimizedGm17Signature {
  import opened Common
  import opened Text
  import opened Groups
  import opened Utility
  import opened Gm17
  import opened WakeCommon
  import DL = DlProof

  // ---------------------------------------------------------------------
  // The session record

  datatype VkList = VkList(idxs: seq<nat>, zIs: seq<Point>)

  /** `VK`: the round-1 indices and points, in order, so both lists have
      the same length. */
  type Vk = v: VkList | |v.idxs| == |v.zIs| witness VkList([], [])

  /** The record `round_2` builds from the round-1 outputs: pairs split into
      two lists, order and pairing kept. */
  function VkOf(round1Outputs: seq<(nat, Point)>): (vk: Vk)
    ensures |vk.idxs| == |round1Outputs|
    ensures forall i | 0 <= i < |round1Outputs| :: round1Outputs[i] == (vk.idxs[i], vk.zIs[i])
  {
    VkList(seq(|round1Outputs|, i requires 0 <= i < |round1Outputs| => round1Outputs[i].0),
           seq(|round1Outputs|, i requires 0 <= i < |round1Outputs| => round1Outputs[i].1))
  }

  /** One entry of the rendering: the decimal index, then the point in hex. */
  function VkEntry(idx: nat, z: Point): string
  {
    Decimal(idx) + PointToString(z)
  }

  /** The rendering of the first k entries. */
  function VkPrefix(vk: Vk, k: nat): string
    requires k <= |vk.idxs|
  {
    if k == 0 then "" else VkPrefix(vk, k - 1) + VkEntry(vk.idxs[k - 1], vk.zIs[k - 1])
  }

  function VkString(vk: Vk): string
  {
    VkPrefix(vk, |vk.idxs|)
  }

  /** `VK::to_string`: append one entry per index. */
  method VkToString(vk: Vk) returns (s: string)
    ensures s == VkString(vk)
  {
    s := "";
    var i := 0;
    while i < |vk.idxs|
      invariant 0 <= i <= |vk.idxs|
      invariant s == VkPrefix(vk, i)
    {
      s := s + (Decimal(vk.idxs[i]) + PointToString(vk.zIs[i]));
      i := i + 1;
    }
  }

  lemma {:induction false} VkPrefixNoHash(vk: Vk, k: nat)
    requires k <= |vk.idxs|
    ensures NoHash(VkPrefix(vk, k))
  {
    if k > 0 {
      VkPrefixNoHash(vk, k - 1);
    }
  }

  /** Two records with the same indices render equally only if their points
      are equal. */
  lemma {:induction false} VkPrefixInjective(a: Vk, b: Vk, k: nat)
    requires a.idxs == b.idxs && k <= |a.idxs|
    requires VkPrefix(a, k) == VkPrefix(b, k)
    ensures a.zIs[..k] == b.zIs[..k]
  {
    if k > 0 {
      var pa, pb := VkPrefix(a, k - 1), VkPrefix(b, k - 1);
      var ea, eb := VkEntry(a.idxs[k - 1], a.zIs[k - 1]), VkEntry(b.idxs[k - 1], b.zIs[k - 1]);
      AppendCancel(pa, ea, pb, eb);
      VkEntryInjective(a.idxs[k - 1], a.zIs[k - 1], b.zIs[k - 1]);
      VkPrefixInjective(a, b, k - 1);
      PrefixStep(a.zIs, k - 1);
      PrefixStep(b.zIs, k - 1);
    }
  }

  /** Entries for the same index are equal only for equal points. */
  lemma VkEntryInjective(idx: nat, p: Point, q: Point)
    requires VkEntry(idx, p) == VkEntry(idx, q)
    ensures p == q
  {
    var d := Decimal(idx);
    AppendCancel(d, PointToString(p), d, PointToString(q));
    PointToStringInjective(p, q);
  }

  /** Comparing the renderings of two records with the same indices
      compares the records. */
  lemma VkStringInjective(a: Vk, b: Vk)
    requires a.idxs == b.idxs
    requires VkString(a) == VkString(b)
    ensures a == b
  {
    VkPrefixInjective(a, b, |a.idxs|);
    assert a.zIs == a.zIs[..|a.idxs|];
    assert b.zIs == b.zIs[..|b.idxs|];
  }

  // ---------------------------------------------------------------------
  // Messages

  /** `OptimizedMessage`: sender index, payload and the sender's session
      record. */
  datatype OptimizedMessage = OptimizedMessage(idx: nat, payload: Point, vk: Vk)

  /** `OptimizedMessage::to_string`. */
  function OptimizedMessageString(m: OptimizedMessage): string
  {
    Decimal(m.idx) + "##" + PointToString(m.payload) + "##" + VkString(m.vk)
  }

  /** No field contains '#', so the rendering splits on "##" into exactly
      its three fields. */
  lemma OptimizedMessageSplit(m: OptimizedMessage)
    ensures Split(OptimizedMessageString(m)) == [Decimal(m.idx), PointToString(m.payload), VkString(m.vk)]
  {
    var fields := [Decimal(m.idx), PointToString(m.payload), VkString(m.vk)];
    assert NoHash(fields[0]) && NoHash(fields[1]);
    VkPrefixNoHash(m.vk, |m.vk.idxs|);
    assert Join(fields) == OptimizedMessageString(m) by {
      assert Join(fields[2..]) == fields[2];
      assert Join(fields[1..]) == fields[1] + "##" + fields[2];
    }
    SplitJoin(fields);
  }

  /** Equal renderings come from messages with the same sender, payload
      and session rendering. */
  lemma OptimizedMessageStringInjective(m: OptimizedMessage, n: OptimizedMessage)
    requires OptimizedMessageString(m) == OptimizedMessageString(n)
    ensures m.idx == n.idx && m.payload == n.payload && VkString(m.vk) == VkString(n.vk)
  {
    OptimizedMessageSplit(m);
    OptimizedMessageSplit(n);
    DecimalInjective(m.idx, n.idx);
    PointToStringInjective(m.payload, n.payload);
  }

  // ---------------------------------------------------------------------
  // Signing and verifying

  datatype OptimizedSignatureAndSessionAuthentication =
    OptimizedSignatureAndSessionAuthentication(discreteLogKnowledgeProof: DL.DiscreteLogKnowledgeProof, gm17DarkpoolProof: Proof)

  /** The discrete-log proof's auxiliary string: the message, then the
      image as the field element's `to_string` renders it. */
  function DlAux(messageString: string, image: Fr): string
  {
    messageString + FrToString(image)
  }

  /** The GM17 proof's auxiliary string: the message, then the rendering of
      the discrete-log proof. */
  function Gm17Aux(messageString: string, dl: DL.DiscreteLogKnowledgeProof): string
  {
    messageString + DL.ProofToString(dl)
  }

  /** The signature `sign` produces, with the discrete-log prover's random
      nonce as a parameter. */
  function Signature(gm17: Gm17Darkpool, sha256: Sha256, image: Fr, messageString: string, minBal: U64, balance: U64, blinding: Fr,
                     dlStatement: Compressed, dlWitness: Scalar, dlNonce: Scalar, upperbound: U64, pk: ProvingKey)
    : OptimizedSignatureAndSessionAuthentication
    requires minBal <= balance <= upperbound + minBal
  {
    var dl := DL.Prove(DL.DiscreteLogKnowledgeProofStruct(dlStatement), sha256, dlWitness, dlNonce, DlAux(messageString, image));
    OptimizedSignatureAndSessionAuthentication(dl, ProofFor(gm17, sha256, SignedValue(minBal, balance, upperbound), blinding, Gm17Aux(messageString, dl), pk))
  }

  /** `sign`. The u64 subtractions panic for a balance outside
      [min_bal, upperbound + min_bal], which the precondition excludes. */
  method Sign(gm17: Gm17Darkpool, sha256: Sha256, image: Fr, messageString: string, minBal: U64, balance: U64, blinding: Fr,
              dlStatement: Compressed, dlWitness: Scalar, dlNonce: Scalar, upperbound: U64, pk: ProvingKey)
    returns (sig: OptimizedSignatureAndSessionAuthentication)
    requires Valid(gm17) && minBal <= balance <= upperbound + minBal
    ensures sig == Signature(gm17, sha256, image, messageString, minBal, balance, blinding, dlStatement, dlWitness, dlNonce, upperbound, pk)
  {
    var dlStruct := DL.DiscreteLogKnowledgeProofStruct(dlStatement);
    var dl := DL.Prove(dlStruct, sha256, dlWitness, dlNonce, messageString + FrToString(image));
    var v := FFrom(upperbound - (balance - minBal));
    var gm17DarkpoolProof := Prove(gm17, sha256, v, blinding, messageString + DL.ProofToString(dl), pk);
    sig := OptimizedSignatureAndSessionAuthentication(dl, gm17DarkpoolProof);
  }

  /** `verify_signature`: both proofs must verify. The discrete-log check
      decompresses both points and panics when either is not a point. */
  function VerifySignature(sig: OptimizedSignatureAndSessionAuthentication, sha256: Sha256, messageString: string,
                           dlStruct: DL.DiscreteLogKnowledgeProofStruct, pvk: VerifyingKey, gm17: Gm17Darkpool, image: Fr): bool
    requires Decompress(sig.discreteLogKnowledgeProof.statement).Some? && Decompress(dlStruct.statement).Some?
  {
    DL.Verify(dlStruct, sha256, sig.discreteLogKnowledgeProof, DlAux(messageString, image))
    && Verify(sha256, image, Gm17Aux(messageString, sig.discreteLogKnowledgeProof), pvk, sig.gm17DarkpoolProof)
  }

  /** A signature made with the secret x of the point g·x and checked
      against that point verifies exactly when the discrete-log challenges
      of the two auxiliary strings agree, the keys match and were generated
      for the signer's circuit, the image is the
      MiMC image of the signer's value under the signer's blinding, and the
      GM17 auxiliary strings hash alike. */
  lemma SignVerify(gm17: Gm17Darkpool, sha256: Sha256, signedImage: Fr, signed: string, minBal: U64, balance: U64, blinding: Fr,
                   x: Scalar, dlNonce: Scalar, upperbound: U64, pk: ProvingKey, checked: string, pvk: VerifyingKey, image: Fr)
    requires minBal <= balance <= upperbound + minBal && upperbound < Pow2(gm17.upperbound)
    ensures var st := DL.StructFor(x);
            var sig := Signature(gm17, sha256, signedImage, signed, minBal, balance, blinding, st.statement, x, dlNonce, upperbound, pk);
            Decompress(sig.discreteLogKnowledgeProof.statement).Some?
            && (VerifySignature(sig, sha256, checked, st, pvk, gm17, image)
                <==> DL.Challenge(sha256, st.statement, DlAux(signed, signedImage)) == DL.Challenge(sha256, st.statement, DlAux(checked, image))
                     && KeysMatch(pk, pvk) && KeyFor(gm17, pk)
                     && image == MiMC(SignedValue(minBal, balance, upperbound), blinding, gm17.mimcConstants)
                     && HashStringToFr(sha256, Gm17Aux(signed, sig.discreteLogKnowledgeProof))
                        == HashStringToFr(sha256, Gm17Aux(checked, sig.discreteLogKnowledgeProof)))
  {
    var st := DL.StructFor(x);
    DL.ProveVerify(sha256, x, dlNonce, DlAux(signed, signedImage), DlAux(checked, image));
    ImageInRange(gm17, SignedValue(minBal, balance, upperbound), blinding);
  }
}
