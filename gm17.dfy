/** The GM17 zk-SNARK for the darkpool relation: knowledge of bits of a
    value v and a blinding r such that the bits are bits and the MiMC image
    of (v mod 2^n, r) is the public image. The circuit's witness arithmetic
    is modelled step by step; key generation, proving and pairing-based
    verification are an ideal functionality in which a proof records its
    key, its public inputs and whether the constraints held. */
module Gm17 {
  import opened Common
  import opened Modular
  import opened Groups
  import opened Utility

  /** Number of MiMC rounds, and of round constants. */
  const MimcRounds: nat := 322

  /** The MiMC round constants and the bit size n (the exponent of the
      upper bound, not the upper bound itself). */
  datatype Gm17Darkpool = Gm17Darkpool(mimcConstants: seq<Fr>, upperbound: nat)

  /** What `new` guarantees about every darkpool it returns. */
  predicate Valid(g: Gm17Darkpool) {
    |g.mimcConstants| == MimcRounds && ValidBitsize(g.upperbound)
  }

  /** `Gm17Darkpool::new`, with the randomly drawn round constants as a
      parameter: fails exactly when the upper bound is not 2^n - 1 for a
      valid n, with `upperbound_log`'s message, and keeps n. */
  function New(upperbound: U64, constants: seq<Fr>): (r: Result<Gm17Darkpool>)
    requires |constants| == MimcRounds
    ensures r.Err? <==> UpperboundLog(upperbound).Err?
    ensures r.Err? ==> r.error == UpperboundLogError
    ensures r.Ok? ==> Valid(r.value) && r.value.mimcConstants == constants
    ensures r.Ok? ==> upperbound + 1 == Pow2(r.value.upperbound)
  {
    match UpperboundLog(upperbound)
    case Err(e) => Err(e)
    case Ok(n) =>
      UpperboundLogExact(upperbound, n);
      Ok(Gm17Darkpool(constants, n))
  }

  // ---------------------------------------------------------------------
  // The circuit

  /** The bits least significant first, as the circuit reads them. */
  function LsbFirst(vBits: seq<Fr>): seq<Fr>
  {
    Reverse(vBits)
  }

  /** The constraint b·(1 - b) == 0 the circuit puts on one bit. */
  predicate BitConstraint(b: Fr) {
    FMul(b, FSub(1, b)) == 0
  }

  /** All bit constraints of the first n (least significant) bits hold. */
  predicate BitsOk(vBits: seq<Fr>, n: nat)
    requires n <= |vBits|
  {
    forall j | 0 <= j < n :: BitConstraint(LsbFirst(vBits)[j])
  }

  /** The public image the circuit computes: MiMC of the value the first
      n bits recompose to, with the blinding r. */
  function CircuitImage(vBits: seq<Fr>, r: Fr, constants: seq<Fr>, n: nat): Fr
    requires n <= |vBits|
  {
    MiMC(FFrom(LsbValue(LsbFirst(vBits), n)), r, constants)
  }

  lemma AddSubCancel(a: Fr, b: Fr)
    ensures FSub(FAdd(a, b), b) == a
  {
    ModSub(a + b, b, P);
    ModOfSmall(b, P);
    ModOfSmall(a, P);
  }

  /** One step of the recomposition loop: adding 2^i·b to the running sum
      and doubling the power. */
  lemma BitStep(e: Fr, s: Fr, b: Fr, i: nat, lsb: int)
    requires e == Pow2(i) % P && s == (1 + lsb) % P
    ensures FAdd(s, FMul(e, b)) == (1 + lsb + Pow2(i) * b) % P
    ensures FAdd(e, e) == Pow2(i + 1) % P
  {
    ModMulLeft(Pow2(i), b, P);
    ModAdd(1 + lsb, Pow2(i) * b, P);
    ModAdd(Pow2(i), Pow2(i), P);
  }

  /** One step of the bit loop: the recomposition check always holds, so
      the step adds exactly the constraint on bit i. */
  lemma BitCheckStep(vBits: seq<Fr>, i: nat, currSum: Fr, currVal: Fr)
    requires i < |vBits|
    ensures BitsOk(vBits, i + 1)
        == (BitsOk(vBits, i) && FMul(LsbFirst(vBits)[i], FSub(1, LsbFirst(vBits)[i])) == 0
            && FMul(currSum, 1) == FSub(FAdd(currSum, currVal), currVal))
  {
    AddSubCancel(currSum, currVal);
    ModOfSmall(currSum, P);
  }

  lemma SumMinusOne(lsb: nat)
    ensures FSub((1 + lsb) % P, 1) == FFrom(lsb)
  {
    ModSub(1 + lsb, 1, P);
    ModOfSmall(1, P);
  }

  /** `DarkpoolCircuit::generate_constraints` run on a full assignment:
      returns the public inputs in allocation order and whether every
      enforced constraint holds. The recomposition constraints and the MiMC
      constraints hold by construction, so only the bit constraints can
      fail. */
  method GenerateConstraints(aux: Fr, vBits: seq<Fr>, r0: Fr, constants: seq<Fr>, n: nat)
    returns (inputs: seq<Fr>, satisfied: bool)
    requires |constants| == MimcRounds
    requires n <= |vBits|
    ensures inputs == [aux, CircuitImage(vBits, r0, constants, n)]
    ensures satisfied == BitsOk(vBits, n)
  {
    inputs := [aux];
    satisfied := true;
    var vals := LsbFirst(vBits);
    var currExp: Fr := 1;
    var currSum: Fr := 1;
    ModOfSmall(1, P);
    var i := 0;
    while i < n
      invariant 0 <= i <= n
      invariant currExp == Pow2(i) % P
      invariant currSum == (1 + LsbValue(vals, i)) % P
      invariant satisfied == BitsOk(vBits, i)
    {
      var b := vals[i];
      var a := FSub(1, b);
      var currVal := FMul(currExp, b);
      var newSum := FAdd(currSum, currVal);
      BitCheckStep(vBits, i, currSum, currVal);
      satisfied := satisfied && FMul(b, a) == 0 && FMul(currSum, 1) == FSub(newSum, currVal);
      BitStep(currExp, currSum, b, i, LsbValue(vals, i));
      currSum := newSum;
      currExp := FAdd(currExp, currExp);
      i := i + 1;
    }
    SumMinusOne(LsbValue(vals, n));
    var v0 := FSub(currSum, 1);
    var v, r := v0, r0;
    var k := 0;
    while k < MimcRounds
      invariant 0 <= k <= MimcRounds
      invariant (v, r) == MimcState(v0, r0, constants[..k])
      invariant satisfied == BitsOk(vBits, n)
      invariant inputs == if k == MimcRounds then [aux, v] else [aux]
    {
      assert constants[..k + 1][..k] == constants[..k];
      var t := FAdd(v, constants[k]);
      var tmp := FMul(t, t);
      var newV := FAdd(FMul(t, tmp), r);
      AddSubCancel(FMul(tmp, t), r);
      satisfied := satisfied && FMul(t, t) == tmp && FMul(tmp, t) == FSub(newV, r);
      if k == MimcRounds - 1 {
        inputs := inputs + [newV];
      }
      r := v;
      v := newV;
      k := k + 1;
    }
    assert constants[..MimcRounds] == constants;
    assert v == CircuitImage(vBits, r0, constants, n);
  }

  // ---------------------------------------------------------------------
  // Keys, proofs and verification (ideal)

  /** A proving key and its prepared verifying key: the circuit they were
      generated for (its round constants and number of bits) and the random
      seed of the generation, so keys of different setups differ. */
  datatype ProvingKey = ProvingKey(seed: nat, constants: seq<Fr>, bitCount: nat)
  datatype VerifyingKey = VerifyingKey(seed: nat, constants: seq<Fr>, bitCount: nat)

  predicate KeysMatch(pk: ProvingKey, pvk: VerifyingKey) {
    pk.seed == pvk.seed && pk.constants == pvk.constants && pk.bitCount == pvk.bitCount
  }

  /** The key was generated for the circuit of g: its round constants and
      its number of bits. */
  predicate KeyFor(g: Gm17Darkpool, pk: ProvingKey) {
    pk.constants == g.mimcConstants && pk.bitCount == g.upperbound
  }

  /** The key pair `setup` produces from a generation seed. */
  function SetupKeys(g: Gm17Darkpool, seed: nat): (ProvingKey, VerifyingKey)
  {
    (ProvingKey(seed, g.mimcConstants, g.upperbound), VerifyingKey(seed, g.mimcConstants, g.upperbound))
  }

  /** `setup`: the circuit is synthesised over a dummy assignment of n bits
      all equal to one; the keys depend only on its shape. */
  method Setup(g: Gm17Darkpool, seed: nat) returns (pk: ProvingKey, pvk: VerifyingKey)
    ensures (pk, pvk) == SetupKeys(g, seed)
    ensures KeysMatch(pk, pvk) && KeyFor(g, pk)
  {
    var dummy: seq<Fr> := [];
    var i := 0;
    while i < g.upperbound
      invariant 0 <= i <= g.upperbound
      invariant |dummy| == i
      invariant forall j | 0 <= j < i :: dummy[j] == 1
    {
      dummy := dummy + [1];
      i := i + 1;
    }
    pk := ProvingKey(seed, g.mimcConstants, |dummy|);
    pvk := VerifyingKey(seed, g.mimcConstants, |dummy|);
  }

  /** A proof: the key it was made with, the circuit it was synthesised
      for, its public inputs and whether the witness satisfied the
      circuit. */
  datatype Proof = Proof(key: ProvingKey, circuit: Gm17Darkpool, inputs: seq<Fr>, satisfied: bool)

  /** The image an honest prover of v is bound to: MiMC of the low n bits
      of v with the blinding r. */
  function Image(g: Gm17Darkpool, v: Fr, r: Fr): Fr
  {
    ModAtMost(v, Pow2(g.upperbound));
    MiMC(v % Pow2(g.upperbound), r, g.mimcConstants)
  }

  /** The proof `prove` returns. */
  function ProofFor(g: Gm17Darkpool, sha256: Sha256, v: Fr, r: Fr, aux: string, pk: ProvingKey): Proof
  {
    Proof(pk, g, [HashStringToFr(sha256, aux), Image(g, v, r)], true)
  }

  /** The bits `fr_to_bits` gives satisfy every bit constraint, and the
      circuit's image is MiMC of v mod 2^n. */
  lemma CircuitOfBits(g: Gm17Darkpool, v: Fr, r: Fr)
    requires Valid(g)
    ensures g.upperbound <= |Bits(v)|
    ensures BitsOk(Bits(v), g.upperbound)
    ensures CircuitImage(Bits(v), r, g.mimcConstants, g.upperbound) == Image(g, v, r)
  {
    var n := g.upperbound;
    var vals := LsbFirst(Bits(v));
    forall j | 0 <= j < n
      ensures BitConstraint(vals[j])
    {
      assert vals[j] == Bits(v)[|Bits(v)| - 1 - j];
      ZeroOneSatisfies(vals[j]);
    }
    BitsLsbPrefix(v, n);
    ModAtMost(v, Pow2(n));
    ModOfSmall(v % Pow2(n), P);
  }

  lemma ZeroOneSatisfies(b: Fr)
    requires b == 0 || b == 1
    ensures BitConstraint(b)
  {
    ModOfSmall(1, P);
  }

  /** `prove`: hash the auxiliary string, decompose v into bits and run the
      circuit with the witness. */
  method Prove(g: Gm17Darkpool, sha256: Sha256, v: Fr, r: Fr, aux: string, pk: ProvingKey) returns (proof: Proof)
    requires Valid(g)
    ensures proof == ProofFor(g, sha256, v, r, aux, pk)
  {
    var auxFr := HashStringToFr(sha256, aux);
    var vBits := FrToBits(v);
    CircuitOfBits(g, v, r);
    var inputs, satisfied := GenerateConstraints(auxFr, vBits, r, g.mimcConstants, g.upperbound);
    proof := Proof(pk, g, inputs, satisfied);
  }

  /** `verify`: the public inputs are [hash(aux), image], in that order. A
      proof synthesised for one circuit with the key of another does not
      verify. */
  function Verify(sha256: Sha256, image: Fr, aux: string, pvk: VerifyingKey, proof: Proof): bool
  {
    KeysMatch(proof.key, pvk) && KeyFor(proof.circuit, proof.key) && proof.satisfied && proof.inputs == [HashStringToFr(sha256, aux), image]
  }

  /** An honest proof made with the key of one setup verifies exactly
      against the verifying key of the same setup, the prover's image and
      an auxiliary string hashing to the prover's. */
  lemma ProveVerify(g: Gm17Darkpool, sha256: Sha256, v: Fr, r: Fr, auxP: string, seedP: nat, image: Fr, auxV: string, seedV: nat)
    ensures Verify(sha256, image, auxV, SetupKeys(g, seedV).1, ProofFor(g, sha256, v, r, auxP, SetupKeys(g, seedP).0))
        <==> seedP == seedV && image == Image(g, v, r) && HashStringToFr(sha256, auxP) == HashStringToFr(sha256, auxV)
  {
  }

  /** With any keys: an honest proof verifies exactly when the verifying key
      matches the proving key, that key was generated for the prover's
      circuit, and the image and auxiliary hash are the prover's. */
  lemma ProveVerifyKeys(g: Gm17Darkpool, sha256: Sha256, v: Fr, r: Fr, auxP: string, pk: ProvingKey, image: Fr, auxV: string, pvk: VerifyingKey)
    ensures Verify(sha256, image, auxV, pvk, ProofFor(g, sha256, v, r, auxP, pk))
        <==> KeysMatch(pk, pvk) && KeyFor(g, pk) && image == Image(g, v, r) && HashStringToFr(sha256, auxP) == HashStringToFr(sha256, auxV)
  {
  }

  /** Keys from the setup of another circuit (other round constants or
      another bit count) reject every proof made over g. */
  lemma OtherCircuitKeysFail(g: Gm17Darkpool, g2: Gm17Darkpool, sha256: Sha256, v: Fr, r: Fr, aux: string, seed: nat, image: Fr, auxV: string)
    requires g.mimcConstants != g2.mimcConstants || g.upperbound != g2.upperbound
    ensures !Verify(sha256, image, auxV, SetupKeys(g2, seed).1, ProofFor(g, sha256, v, r, aux, SetupKeys(g2, seed).0))
  {
  }

  /** For a value below 2^n the image is MiMC of the value itself, the
      image `mimc` computes outside the circuit. */
  lemma ImageInRange(g: Gm17Darkpool, v: Fr, r: Fr)
    requires v < Pow2(g.upperbound)
    ensures Image(g, v, r) == MiMC(v, r, g.mimcConstants)
  {
    ModOfSmall(v, Pow2(g.upperbound));
  }
}
