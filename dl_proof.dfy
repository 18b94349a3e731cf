/** The non-interactive proof of knowledge of a discrete logarithm used to
    bind a party's secret to its signature. Its shape is the Schnorr proof
    of section 3.3 of RFC 8235, but as the system computes it: the response
    is r + c·w, the check is g·s == V + X·c, and the challenge hashes the
    basepoint, the public value X and the auxiliary string (not V). */
module DlProof {
  import opened Common
  import opened Modular
  import opened Groups
  import opened Text
  import opened Utility

  /** The proof: the nonce commitment V = g·r, the challenge and the
      response. */
  datatype DiscreteLogKnowledgeProof = DiscreteLogKnowledgeProof(statement: Compressed, challenge: Scalar, response: Scalar)

  /** The public value X the proof is about. */
  datatype DiscreteLogKnowledgeProofStruct = DiscreteLogKnowledgeProofStruct(statement: Compressed)

  /** `DiscreteLogKnowledgeProof::to_string`: three 64-character hex fields. */
  function ProofToString(p: DiscreteLogKnowledgeProof): (s: string)
    ensures |s| == 192
    ensures forall i | 0 <= i < |s| :: IsLowerHex(s[i])
  {
    CompressedToString(p.statement) + ScalarToString(p.challenge) + ScalarToString(p.response)
  }

  /** Reads a 192-character rendering back into its three fields. */
  function ProofFromString(s: string): Option<DiscreteLogKnowledgeProof>
  {
    if |s| != 192 then None
    else
      match (FromHex(s[..64]), FromHex(s[64..128]), FromHex(s[128..]))
      case (Some(v), Some(c), Some(z)) =>
        if |v| == 32 && LeValue(c) < L && LeValue(z) < L
        then Some(DiscreteLogKnowledgeProof(v, LeValue(c), LeValue(z)))
        else None
      case _ => None
  }

  /** The rendering is uniquely decodable: reading it back gives the proof. */
  lemma ProofStringRoundTrip(p: DiscreteLogKnowledgeProof)
    ensures ProofFromString(ProofToString(p)) == Some(p)
  {
    var s := ProofToString(p);
    assert s[..64] == CompressedToString(p.statement);
    assert s[64..128] == ScalarToString(p.challenge);
    assert s[128..] == ScalarToString(p.response);
    ScalarFromString(p.challenge);
    ScalarFromString(p.response);
  }

  lemma ProofToStringInjective(p: DiscreteLogKnowledgeProof, q: DiscreteLogKnowledgeProof)
    requires ProofToString(p) == ProofToString(q)
    ensures p == q
  {
    ProofStringRoundTrip(p);
    ProofStringRoundTrip(q);
  }

  /** The Fiat–Shamir challenge: H(hex(g) ++ hex(X) ++ aux), reduced mod L. */
  function Challenge(sha256: Sha256, statement: Compressed, aux: string): Scalar
  {
    HashStringToScalar(sha256, PointToString(BasePoint) + CompressedToString(statement) + aux)
  }

  /** `prove`, with the random nonce r as a parameter. */
  function Prove(st: DiscreteLogKnowledgeProofStruct, sha256: Sha256, secret: Scalar, r: Scalar, aux: string): (p: DiscreteLogKnowledgeProof)
    ensures p.challenge == Challenge(sha256, st.statement, aux)
    ensures Decompress(p.statement) == Some(r)
  {
    BaseMul(r);
    DecompressCompress(r);
    var c := Challenge(sha256, st.statement, aux);
    DiscreteLogKnowledgeProof(Compress(PMul(BasePoint, r)), c, SAdd(r, SMul(c, secret)))
  }

  /** `verify`: both `unwrap`s of the decompressions are preconditions. */
  function Verify(st: DiscreteLogKnowledgeProofStruct, sha256: Sha256, proof: DiscreteLogKnowledgeProof, aux: string): bool
    requires Decompress(proof.statement).Some? && Decompress(st.statement).Some?
  {
    var challengeOk := Challenge(sha256, st.statement, aux) == proof.challenge;
    var equationOk := PMul(BasePoint, proof.response)
      == PAdd(Decompress(proof.statement).value, PMul(Decompress(st.statement).value, proof.challenge));
    challengeOk && equationOk
  }

  /** The struct for the public value g·w. */
  function StructFor(secret: Scalar): (st: DiscreteLogKnowledgeProofStruct)
    ensures Decompress(st.statement) == Some(secret)
  {
    BaseMul(secret);
    DecompressCompress(secret);
    DiscreteLogKnowledgeProofStruct(Compress(PMul(BasePoint, secret)))
  }

  lemma ResponseArith(r: Scalar, c: Scalar, w: Scalar)
    ensures SAdd(r, SMul(c, w)) == PAdd(r, PMul(w, c))
  {
  }

  /** A proof made with the secret of X verifies exactly when the verifier
      hashes its auxiliary string to the prover's challenge: completeness
      for equal strings, rejection when the two challenges differ. */
  lemma ProveVerify(sha256: Sha256, secret: Scalar, r: Scalar, auxP: string, auxV: string)
    ensures Verify(StructFor(secret), sha256, Prove(StructFor(secret), sha256, secret, r, auxP), auxV)
        <==> Challenge(sha256, StructFor(secret).statement, auxP) == Challenge(sha256, StructFor(secret).statement, auxV)
  {
    var st := StructFor(secret);
    BaseMul(secret);
    DecompressCompress(secret);
    var p := Prove(st, sha256, secret, r, auxP);
    var c := p.challenge;
    ResponseArith(r, c, secret);
    BaseMul(p.response);
    assert PMul(BasePoint, p.response) == PAdd(Decompress(p.statement).value, PMul(Decompress(st.statement).value, c));
  }

  lemma ShiftedResponse(r: Scalar, c: Scalar, w: Scalar)
    requires c != 0
    ensures SAdd(r, SMul(c, SAdd(w, 1))) != PAdd(r, PMul(w, c))
  {
    var a := r + c * (w + 1);
    var b := r + c * w;
    assert SAdd(r, SMul(c, SAdd(w, 1))) == a % L by {
      ModMul(c, w + 1, L);
      ModOfSmall(c, L);
      ModAdd(r, c * (w + 1), L);
      ModOfSmall(r, L);
      ModOfResidue(c * (w + 1), L);
    }
    assert PAdd(r, PMul(w, c)) == b % L by {
      ModAdd(r, w * c, L);
      ModOfSmall(r, L);
      ModOfResidue(w * c, L);
    }
    assert a - b == c;
    ModSub(a, b, L);
    ModOfSmall(c, L);
    assert (0 - 0) % L == 0;
  }

  /** Proving with the secret plus one is rejected whenever the challenge
      is nonzero. */
  lemma WrongSecretFails(sha256: Sha256, secret: Scalar, r: Scalar, aux: string)
    requires Challenge(sha256, StructFor(secret).statement, aux) != 0
    ensures !Verify(StructFor(secret), sha256, Prove(StructFor(secret), sha256, SAdd(secret, 1), r, aux), aux)
  {
    var st := StructFor(secret);
    BaseMul(secret);
    DecompressCompress(secret);
    var p := Prove(st, sha256, SAdd(secret, 1), r, aux);
    ShiftedResponse(r, p.challenge, secret);
    BaseMul(p.response);
    assert PMul(BasePoint, p.response) != PAdd(Decompress(p.statement).value, PMul(Decompress(st.statement).value, p.challenge));
  }

  /** Replacing the nonce commitment of an honest proof is detected: the
      changed proof verifies only if the new value equals the old one. */
  lemma TamperedStatementFails(sha256: Sha256, secret: Scalar, r: Scalar, aux: string, v: Compressed)
    requires Decompress(v).Some?
    requires Verify(StructFor(secret), sha256, Prove(StructFor(secret), sha256, secret, r, aux).(statement := v), aux)
    ensures v == Prove(StructFor(secret), sha256, secret, r, aux).statement
  {
    var st := StructFor(secret);
    var p := Prove(st, sha256, secret, r, aux);
    BaseMul(secret);
    DecompressCompress(secret);
    var t := PMul(secret, p.challenge);
    ResponseArith(r, p.challenge, secret);
    BaseMul(p.response);
    assert p.response == PAdd(r, t);
    var x := Decompress(v).value;
    assert PAdd(x, t) == PAdd(r, t);
    AddCancel(x, r, t);
    LeBytesOfValue(v);
    BaseMul(r);
  }

  /** Replacing the challenge of an honest proof is detected. */
  lemma TamperedChallengeFails(sha256: Sha256, secret: Scalar, r: Scalar, aux: string, c: Scalar)
    requires Verify(StructFor(secret), sha256, Prove(StructFor(secret), sha256, secret, r, aux).(challenge := c), aux)
    ensures c == Prove(StructFor(secret), sha256, secret, r, aux).challenge
  {
  }

  /** Replacing the response of an honest proof is detected. */
  lemma TamperedResponseFails(sha256: Sha256, secret: Scalar, r: Scalar, aux: string, z: Scalar)
    requires Verify(StructFor(secret), sha256, Prove(StructFor(secret), sha256, secret, r, aux).(response := z), aux)
    ensures z == Prove(StructFor(secret), sha256, secret, r, aux).response
  {
    var st := StructFor(secret);
    var p := Prove(st, sha256, secret, r, aux);
    BaseMul(secret);
    DecompressCompress(secret);
    var t := PMul(secret, p.challenge);
    ResponseArith(r, p.challenge, secret);
    BaseMul(p.response);
    BaseMul(z);
    assert z == PAdd(r, t);
  }

  lemma AddCancel(x: Scalar, y: Scalar, t: Scalar)
    requires PAdd(x, t) == PAdd(y, t)
    ensures x == y
  {
    ModSub(x + t, y + t, L);
    assert (x + t) - (y + t) == x - y;
    assert (x - y) % L == 0;
    if x > y {
      ModOfSmall(x - y, L);
    } else if x < y {
      ModAddMultiple(x - y, 1, L);
      ModOfSmall(x - y + L, L);
    }
  }
}
