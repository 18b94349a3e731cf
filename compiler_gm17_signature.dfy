/** The signature of the GM17 compiler WAKE
    (compiler_gm17_wake_signature.rs): signing a message string is a GM17
    proof, bound to the message, of knowledge of the blinded value behind
    the signer's public MiMC image; verifying checks it against that image
    with the signer's verifying key. */
module CompilerGm17Signature {
  import opened Groups
  import opened Utility
  import opened Gm17
  import opened WakeCommon

  datatype CompSignature = CompSignature(gm17DarkpoolProof: Proof)

  /** The signature `sign` produces. */
  function Signature(gm17: Gm17Darkpool, sha256: Sha256, messageString: string, minBal: U64, balance: U64, blinding: Fr,
                     upperbound: U64, pk: ProvingKey): CompSignature
    requires minBal <= balance <= upperbound + minBal
  {
    CompSignature(ProofFor(gm17, sha256, SignedValue(minBal, balance, upperbound), blinding, messageString, pk))
  }

  /** `CompSignature::sign`. The u64 subtractions panic for a balance
      outside [min_bal, upperbound + min_bal], which the precondition
      excludes. */
  method Sign(gm17: Gm17Darkpool, sha256: Sha256, messageString: string, minBal: U64, balance: U64, blinding: Fr,
              upperbound: U64, pk: ProvingKey) returns (sig: CompSignature)
    requires Valid(gm17) && minBal <= balance <= upperbound + minBal
    ensures sig == Signature(gm17, sha256, messageString, minBal, balance, blinding, upperbound, pk)
  {
    var v := FFrom(upperbound - (balance - minBal));
    var gm17DarkpoolProof := Prove(gm17, sha256, v, blinding, messageString, pk);
    sig := CompSignature(gm17DarkpoolProof);
  }

  /** `CompSignature::verify_signature`. */
  function VerifySignature(sig: CompSignature, gm17: Gm17Darkpool, sha256: Sha256, pvk: VerifyingKey, image: Fr, messageString: string): bool
  {
    Verify(sha256, image, messageString, pvk, sig.gm17DarkpoolProof)
  }

  /** When the circuit's bit size covers the upper bound, a signature
      verifies exactly with a verifying key matching the signer's proving
      key, generated for the signer's circuit, the MiMC image of the signer's value under the signer's blinding,
      and a message string that hashes as the signed one did. */
  lemma SignVerify(gm17: Gm17Darkpool, sha256: Sha256, signed: string, minBal: U64, balance: U64, blinding: Fr,
                   upperbound: U64, pk: ProvingKey, pvk: VerifyingKey, image: Fr, checked: string)
    requires minBal <= balance <= upperbound + minBal && upperbound < Pow2(gm17.upperbound)
    ensures VerifySignature(Signature(gm17, sha256, signed, minBal, balance, blinding, upperbound, pk), gm17, sha256, pvk, image, checked)
        <==> KeysMatch(pk, pvk) && KeyFor(gm17, pk) && image == MiMC(SignedValue(minBal, balance, upperbound), blinding, gm17.mimcConstants)
             && HashStringToFr(sha256, signed) == HashStringToFr(sha256, checked)
  {
    ImageInRange(gm17, SignedValue(minBal, balance, upperbound), blinding);
  }
}
