/** The optimized GM17 WAKE (optimized_gm17_wake_protocol.rs): two rounds
    of Burmester–Desmedt key exchange in which the round-2 message carries
    the round-1 points as the session record and is signed by a
    discrete-log proof for the sender's round-1 point together with a GM17
    proof about the sender's balance image. */
module OptimizedGm17Protocol {
  import opened Common
  import opened Groups
  import opened Utility
  import opened Gm17
  import opened WakeCommon
  import opened OptimizedGm17Signature
  import BD = BurmesterDesmedt
  import DL = DlProof

  /** A party's Burmester–Desmedt values: its round-1 point z_i = g·x_i and
      the secret x_i. */
  datatype BdState = BdState(zI: Point, xI: Scalar)

  // ---------------------------------------------------------------------
  // Messages and their checks

  /** The round-2 message and its signature, as `round_2` builds them. */
  function SignedMessage(gm17: Gm17Darkpool, sha256: Sha256, idx: nat, payload: Point, vk: Vk, image: Fr, minBal: U64, balance: U64,
                         blinding: Fr, bd: BdState, dlNonce: Scalar, upperbound: U64, pk: ProvingKey)
    : (OptimizedMessage, OptimizedSignatureAndSessionAuthentication)
    requires minBal <= balance <= upperbound + minBal
  {
    var message := OptimizedMessage(idx, payload, vk);
    (message, Signature(gm17, sha256, image, OptimizedMessageString(message), minBal, balance, blinding, Compress(bd.zI), bd.xI,
                        dlNonce, upperbound, pk))
  }

  /** Every discrete-log proof among the first n signatures names a point
      (`verify` unwraps its decompression). */
  predicate DlStatementsValid(round2Outputs: seq<(OptimizedMessage, OptimizedSignatureAndSessionAuthentication)>, n: nat)
    requires n <= |round2Outputs|
  {
    forall i | 0 <= i < n :: Decompress(round2Outputs[i].1.discreteLogKnowledgeProof.statement).Some?
  }

  /** The two checks `verify_all_round_2_outputs` runs on one other
      party's message, in order: the session record, then the signature,
      whose discrete-log part is checked against the sender's round-1
      point. */
  function MessageCheck(ownVk: Vk, gm17: Gm17Darkpool, sha256: Sha256, pvk: VerifyingKey, image: Fr, round1Output: (nat, Point),
                        received: (OptimizedMessage, OptimizedSignatureAndSessionAuthentication)): Option<string>
    requires Decompress(received.1.discreteLogKnowledgeProof.statement).Some?
  {
    if VkString(received.0.vk) != VkString(ownVk) then Some(VkError)
    else
      DecompressCompress(round1Output.1);
      var dlStruct := DL.DiscreteLogKnowledgeProofStruct(Compress(round1Output.1));
      if !VerifySignature(received.1, sha256, OptimizedMessageString(received.0), dlStruct, pvk, gm17, image) then Some(SignatureError)
      else None
  }

  /** One check per round-1 output; the receiver's own index is skipped. */
  function VerifyChecks(idx: nat, ownVk: Vk, images: seq<Fr>, pvkList: seq<VerifyingKey>, gm17: Gm17Darkpool, sha256: Sha256,
                        round1Outputs: seq<(nat, Point)>, round2Outputs: seq<(OptimizedMessage, OptimizedSignatureAndSessionAuthentication)>)
    : (checks: seq<Option<string>>)
    requires |round1Outputs| <= |round2Outputs| && |round1Outputs| <= |images| && |round1Outputs| <= |pvkList|
    requires DlStatementsValid(round2Outputs, |round1Outputs|)
    ensures |checks| == |round1Outputs|
  {
    seq(|round1Outputs|, i requires 0 <= i < |round1Outputs| =>
      if i == idx then None
      else MessageCheck(ownVk, gm17, sha256, pvkList[i], images[i], round1Outputs[i], round2Outputs[i]))
  }

  /** The check of another party's message is that message's check. */
  lemma CheckAt(idx: nat, ownVk: Vk, images: seq<Fr>, pvkList: seq<VerifyingKey>, gm17: Gm17Darkpool, sha256: Sha256,
                round1Outputs: seq<(nat, Point)>, round2Outputs: seq<(OptimizedMessage, OptimizedSignatureAndSessionAuthentication)>, i: nat)
    requires |round1Outputs| <= |round2Outputs| && |round1Outputs| <= |images| && |round1Outputs| <= |pvkList|
    requires DlStatementsValid(round2Outputs, |round1Outputs|)
    requires i < |round1Outputs| && i != idx
    ensures Decompress(round2Outputs[i].1.discreteLogKnowledgeProof.statement).Some?
    ensures VerifyChecks(idx, ownVk, images, pvkList, gm17, sha256, round1Outputs, round2Outputs)[i]
         == MessageCheck(ownVk, gm17, sha256, pvkList[i], images[i], round1Outputs[i], round2Outputs[i])
  {
  }

  /** What `verify_all_round_2_outputs` returns: the first failed check in
      index order (there is no length check). */
  function VerifyAllResult(idx: nat, ownVk: Vk, images: seq<Fr>, pvkList: seq<VerifyingKey>, gm17: Gm17Darkpool, sha256: Sha256,
                           round1Outputs: seq<(nat, Point)>, round2Outputs: seq<(OptimizedMessage, OptimizedSignatureAndSessionAuthentication)>)
    : Result<()>
    requires |round1Outputs| <= |round2Outputs| && |round1Outputs| <= |images| && |round1Outputs| <= |pvkList|
    requires DlStatementsValid(round2Outputs, |round1Outputs|)
  {
    FirstError(VerifyChecks(idx, ownVk, images, pvkList, gm17, sha256, round1Outputs, round2Outputs))
  }

  /** A receiver that accepts has seen, from every other party, a message
      carrying its own session record (the same record when the indices
      agree) whose signature verifies against that party's round-1 point,
      image and verifying key. */
  lemma VerifyAllAccepts(idx: nat, ownVk: Vk, images: seq<Fr>, pvkList: seq<VerifyingKey>, gm17: Gm17Darkpool, sha256: Sha256,
                         round1Outputs: seq<(nat, Point)>, round2Outputs: seq<(OptimizedMessage, OptimizedSignatureAndSessionAuthentication)>, i: nat)
    requires |round1Outputs| <= |round2Outputs| && |round1Outputs| <= |images| && |round1Outputs| <= |pvkList|
    requires DlStatementsValid(round2Outputs, |round1Outputs|)
    requires VerifyAllResult(idx, ownVk, images, pvkList, gm17, sha256, round1Outputs, round2Outputs).Ok?
    requires i < |round1Outputs| && i != idx
    ensures VkString(round2Outputs[i].0.vk) == VkString(ownVk)
    ensures round2Outputs[i].0.vk.idxs == ownVk.idxs ==> round2Outputs[i].0.vk == ownVk
    ensures Decompress(Compress(round1Outputs[i].1)).Some?
    ensures VerifySignature(round2Outputs[i].1, sha256, OptimizedMessageString(round2Outputs[i].0),
                            DL.DiscreteLogKnowledgeProofStruct(Compress(round1Outputs[i].1)), pvkList[i], gm17, images[i])
  {
    var checks := VerifyChecks(idx, ownVk, images, pvkList, gm17, sha256, round1Outputs, round2Outputs);
    assert checks[i].None?;
    DecompressCompress(round1Outputs[i].1);
    if round2Outputs[i].0.vk.idxs == ownVk.idxs {
      VkStringInjective(round2Outputs[i].0.vk, ownVk);
    }
  }

  // ---------------------------------------------------------------------
  // Honest executions

  /** The round-1 outputs of an honest run: party i publishes (i, g·x_i). */
  function Round1Outputs(g: Point, xs: seq<Scalar>): (outputs: seq<(nat, Point)>)
    ensures |outputs| == |xs|
    ensures VkOf(outputs).zIs == BD.Zs(g, xs)
  {
    var outputs := seq(|xs|, i requires 0 <= i < |xs| => (i, BD.Zs(g, xs)[i]));
    assert VkOf(outputs).zIs == BD.Zs(g, xs);
    outputs
  }

  /** What an honest round 2 needs: per party a balance in range, a
      blinding, a secret x_i, a discrete-log nonce and a proving key, and
      at least two parties. */
  predicate HonestInputs(minBal: U64, balances: seq<U64>, blindings: seq<Fr>, upperbound: U64, pkList: seq<ProvingKey>, xs: seq<Scalar>,
                         dlNonces: seq<Scalar>)
  {
    |balances| == |blindings| == |xs| == |dlNonces| <= |pkList| && 2 <= |xs| && BalancesInRange(minBal, balances, upperbound)
  }

  /** The round-2 message of party i when it holds x_i and signs with the
      i-th proving key and discrete-log nonce. */
  function HonestMessage2(gm17: Gm17Darkpool, sha256: Sha256, minBal: U64, balances: seq<U64>, blindings: seq<Fr>, upperbound: U64,
                          pkList: seq<ProvingKey>, g: Point, xs: seq<Scalar>, dlNonces: seq<Scalar>, i: nat)
    : (OptimizedMessage, OptimizedSignatureAndSessionAuthentication)
    requires HonestInputs(minBal, balances, blindings, upperbound, pkList, xs, dlNonces)
    requires i < |xs|
  {
    var vk := VkOf(Round1Outputs(g, xs));
    SignedMessage(gm17, sha256, i, BD.Round2Payload(i, xs[i], vk.zIs), vk, Images(gm17, upperbound, minBal, balances, blindings)[i],
                  minBal, balances[i], blindings[i], BdState(PMul(g, xs[i]), xs[i]), dlNonces[i], upperbound, pkList[i])
  }

  /** The round-2 messages of an honest run, in index order. */
  function HonestRound2(gm17: Gm17Darkpool, sha256: Sha256, minBal: U64, balances: seq<U64>, blindings: seq<Fr>, upperbound: U64,
                        pkList: seq<ProvingKey>, g: Point, xs: seq<Scalar>, dlNonces: seq<Scalar>)
    : (out: seq<(OptimizedMessage, OptimizedSignatureAndSessionAuthentication)>)
    requires HonestInputs(minBal, balances, blindings, upperbound, pkList, xs, dlNonces)
    ensures |out| == |xs|
  {
    seq(|xs|, i requires 0 <= i < |xs| => HonestMessage2(gm17, sha256, minBal, balances, blindings, upperbound, pkList, g, xs, dlNonces, i))
  }

  /** Honest round-2 messages name points in their discrete-log proofs,
      can only be rejected for a signature, and are accepted by every party
      when the keys and the circuit fit (completeness). */
  lemma HonestRound2Outcome(gm17: Gm17Darkpool, sha256: Sha256, minBal: U64, balances: seq<U64>, blindings: seq<Fr>, upperbound: U64,
                            pkList: seq<ProvingKey>, pvkList: seq<VerifyingKey>, xs: seq<Scalar>, dlNonces: seq<Scalar>, idx: nat,
                            images: seq<Fr>, round1: seq<(nat, Point)>, round2: seq<(OptimizedMessage, OptimizedSignatureAndSessionAuthentication)>)
    requires HonestInputs(minBal, balances, blindings, upperbound, pkList, xs, dlNonces) && |xs| <= |pvkList|
    requires images == Images(gm17, upperbound, minBal, balances, blindings) && round1 == Round1Outputs(BasePoint, xs)
    requires round2 == HonestRound2(gm17, sha256, minBal, balances, blindings, upperbound, pkList, BasePoint, xs, dlNonces)
    ensures DlStatementsValid(round2, |xs|)
    ensures VerifyAllResult(idx, VkOf(round1), images, pvkList, gm17, sha256, round1, round2) == Ok(())
         || VerifyAllResult(idx, VkOf(round1), images, pvkList, gm17, sha256, round1, round2) == Err(SignatureError)
    ensures KeysFit(gm17, upperbound, pkList, pvkList, |xs|) ==> VerifyAllResult(idx, VkOf(round1), images, pvkList, gm17, sha256, round1, round2) == Ok(())
  {
    var fit := KeysFit(gm17, upperbound, pkList, pvkList, |xs|);
    var vk := VkOf(round1);
    forall i | 0 <= i < |xs|
      ensures Decompress(round2[i].1.discreteLogKnowledgeProof.statement).Some?
      ensures MessageCheck(vk, gm17, sha256, pvkList[i], images[i], round1[i], round2[i]).None?
           || MessageCheck(vk, gm17, sha256, pvkList[i], images[i], round1[i], round2[i]) == Some(SignatureError)
      ensures fit ==> MessageCheck(vk, gm17, sha256, pvkList[i], images[i], round1[i], round2[i]).None?
    {
      HonestMessageCheck(gm17, sha256, minBal, balances, blindings, upperbound, pkList, pvkList, xs, dlNonces, images, round1, round2, i);
    }
    ChecksOutcome(idx, vk, images, pvkList, gm17, sha256, round1, round2, fit);
  }

  /** The scan's outcome from the outcome of each message check. */
  lemma ChecksOutcome(idx: nat, ownVk: Vk, images: seq<Fr>, pvkList: seq<VerifyingKey>, gm17: Gm17Darkpool, sha256: Sha256,
                      round1: seq<(nat, Point)>, round2: seq<(OptimizedMessage, OptimizedSignatureAndSessionAuthentication)>, fit: bool)
    requires |round1| <= |round2| && |round1| <= |images| && |round1| <= |pvkList|
    requires DlStatementsValid(round2, |round1|)
    requires forall i | 0 <= i < |round1| && i != idx ::
               MessageCheck(ownVk, gm17, sha256, pvkList[i], images[i], round1[i], round2[i]).None?
               || MessageCheck(ownVk, gm17, sha256, pvkList[i], images[i], round1[i], round2[i]) == Some(SignatureError)
    requires fit ==> forall i | 0 <= i < |round1| && i != idx ::
               MessageCheck(ownVk, gm17, sha256, pvkList[i], images[i], round1[i], round2[i]).None?
    ensures VerifyAllResult(idx, ownVk, images, pvkList, gm17, sha256, round1, round2) == Ok(())
         || VerifyAllResult(idx, ownVk, images, pvkList, gm17, sha256, round1, round2) == Err(SignatureError)
    ensures fit ==> VerifyAllResult(idx, ownVk, images, pvkList, gm17, sha256, round1, round2) == Ok(())
  {
    var checks := VerifyChecks(idx, ownVk, images, pvkList, gm17, sha256, round1, round2);
    forall i | 0 <= i < |checks|
      ensures checks[i].None? || checks[i] == Some(SignatureError)
      ensures fit ==> checks[i].None?
    {
      if i != idx {
        CheckAt(idx, ownVk, images, pvkList, gm17, sha256, round1, round2, i);
      }
    }
    OnlySignatureFails(checks);
  }

  /** The discrete-log proof of an honest message names a point. */
  lemma HonestStatement(gm17: Gm17Darkpool, sha256: Sha256, minBal: U64, balances: seq<U64>, blindings: seq<Fr>, upperbound: U64,
                        pkList: seq<ProvingKey>, xs: seq<Scalar>, dlNonces: seq<Scalar>, i: nat)
    requires HonestInputs(minBal, balances, blindings, upperbound, pkList, xs, dlNonces) && i < |xs|
    ensures Decompress(HonestMessage2(gm17, sha256, minBal, balances, blindings, upperbound, pkList, BasePoint, xs, dlNonces, i).1
                         .discreteLogKnowledgeProof.statement).Some?
  {
  }

  /** The check of one honest message: it can only fail on the signature,
      and passes when the keys and the circuit fit. */
  lemma HonestMessageCheck(gm17: Gm17Darkpool, sha256: Sha256, minBal: U64, balances: seq<U64>, blindings: seq<Fr>, upperbound: U64,
                           pkList: seq<ProvingKey>, pvkList: seq<VerifyingKey>, xs: seq<Scalar>, dlNonces: seq<Scalar>, images: seq<Fr>,
                           round1: seq<(nat, Point)>, round2: seq<(OptimizedMessage, OptimizedSignatureAndSessionAuthentication)>, i: nat)
    requires HonestInputs(minBal, balances, blindings, upperbound, pkList, xs, dlNonces) && |xs| <= |pvkList| && i < |xs|
    requires images == Images(gm17, upperbound, minBal, balances, blindings) && round1 == Round1Outputs(BasePoint, xs)
    requires round2 == HonestRound2(gm17, sha256, minBal, balances, blindings, upperbound, pkList, BasePoint, xs, dlNonces)
    ensures Decompress(round2[i].1.discreteLogKnowledgeProof.statement).Some?
    ensures var c := MessageCheck(VkOf(round1), gm17, sha256, pvkList[i], images[i], round1[i], round2[i]);
            (c.None? || c == Some(SignatureError)) && (KeysFit(gm17, upperbound, pkList, pvkList, |xs|) ==> c.None?)
  {
    var m := round2[i];
    HonestStatement(gm17, sha256, minBal, balances, blindings, upperbound, pkList, xs, dlNonces, i);
    var s := OptimizedMessageString(m.0);
    assert round1[i].1 == PMul(BasePoint, xs[i]);
    assert DL.DiscreteLogKnowledgeProofStruct(Compress(round1[i].1)) == DL.StructFor(xs[i]);
    if KeysFit(gm17, upperbound, pkList, pvkList, |xs|) {
      SignVerify(gm17, sha256, images[i], s, minBal, balances[i], blindings[i], xs[i], dlNonces[i], upperbound, pkList[i], s,
                 pvkList[i], images[i]);
    }
  }

  // ---------------------------------------------------------------------
  // Parties

  /** A party: public index, images, minimum balance, circuit and verifying
      keys; secret balance, blinding and proving key; the session record
      and the Burmester–Desmedt values once the protocol has produced them. */
  class Party {
    const idx: nat
    const images: seq<Fr>
    const minBal: U64
    const gm17: Gm17Darkpool
    const pvkList: seq<VerifyingKey>
    const balance: U64
    const blinding: Fr
    const pk: ProvingKey
    var vk: Option<Vk>
    var bd: Option<BdState>

    constructor (idx: nat, gm17: Gm17Darkpool, images: seq<Fr>, minBal: U64, balance: U64, blinding: Fr, pk: ProvingKey,
                 pvkList: seq<VerifyingKey>)
      ensures this.idx == idx && this.gm17 == gm17 && this.images == images && this.minBal == minBal
      ensures this.balance == balance && this.blinding == blinding && this.pk == pk && this.pvkList == pvkList
      ensures vk == None && bd == None
    {
      this.idx := idx;
      this.images := images;
      this.gm17 := gm17;
      this.minBal := minBal;
      this.balance := balance;
      this.blinding := blinding;
      this.pk := pk;
      this.pvkList := pvkList;
      vk := None;
      bd := None;
    }

    /** `round_1`: draw x_i, keep (z_i = g·x_i, x_i), publish (idx, z_i). */
    method Round1(g: Point, x: Scalar) returns (out: (nat, Point))
      modifies this`bd
      ensures bd == Some(BdState(PMul(g, x), x))
      ensures out == (idx, PMul(g, x))
    {
      var z := PMul(g, x);
      bd := Some(BdState(z, x));
      out := (idx, z);
    }

    /** `round_2`: keep the round-1 outputs as the session record, send
      (z_{i+1} - z_{i-1})·x_i with the record, signed. */
    method Round2(round1Outputs: seq<(nat, Point)>, sha256: Sha256, dlNonce: Scalar, upperbound: U64)
      returns (message: OptimizedMessage, signature: OptimizedSignatureAndSessionAuthentication)
      requires bd.Some? && 2 <= |round1Outputs| && idx < |round1Outputs| && idx < |images|
      requires Valid(gm17) && minBal <= balance <= upperbound + minBal
      modifies this`vk
      ensures vk == Some(VkOf(round1Outputs))
      ensures message == OptimizedMessage(idx, BD.Round2Payload(idx, bd.value.xI, VkOf(round1Outputs).zIs), VkOf(round1Outputs))
      ensures (message, signature)
          == SignedMessage(gm17, sha256, idx, BD.Round2Payload(idx, bd.value.xI, VkOf(round1Outputs).zIs), VkOf(round1Outputs),
                           images[idx], minBal, balance, blinding, bd.value, dlNonce, upperbound, pk)
    {
      var sessionVk := VkOf(round1Outputs);
      vk := Some(sessionVk);
      var (z1, z2) := GetAdjacentElements(sessionVk.zIs, idx);
      var x := bd.value.xI;
      var payload := PMul(PSub(z2, z1), x);
      message := OptimizedMessage(idx, payload, sessionVk);
      signature := Sign(gm17, sha256, images[idx], OptimizedMessageString(message), minBal, balance, blinding, Compress(bd.value.zI), x,
                        dlNonce, upperbound, pk);
    }

    /** `verify_all_round_2_outputs`: check every other party's round-2
      message, stopping at the first failure. */
    method VerifyAllRound2Outputs(sha256: Sha256, round1Outputs: seq<(nat, Point)>,
                                  round2Outputs: seq<(OptimizedMessage, OptimizedSignatureAndSessionAuthentication)>)
      returns (res: Result<()>)
      requires vk.Some? && |round1Outputs| <= |round2Outputs| && |round1Outputs| <= |images| && |round1Outputs| <= |pvkList|
      requires DlStatementsValid(round2Outputs, |round1Outputs|)
      ensures res == VerifyAllResult(idx, vk.value, images, pvkList, gm17, sha256, round1Outputs, round2Outputs)
    {
      ghost var checks := VerifyChecks(idx, vk.value, images, pvkList, gm17, sha256, round1Outputs, round2Outputs);
      var i := 0;
      while i < |round1Outputs|
        invariant 0 <= i <= |round1Outputs|
        invariant forall j | 0 <= j < i :: checks[j].None?
      {
        if i == idx {
          PassedThrough(checks, i);
          i := i + 1;
          continue;
        }
        CheckAt(idx, vk.value, images, pvkList, gm17, sha256, round1Outputs, round2Outputs, i);
        var (msg, sigSessionAuth) := round2Outputs[i];
        var received := VkToString(msg.vk);
        var own := VkToString(vk.value);
        if received != own {
          assert checks[i] == Some(VkError);
          FirstErrorAt(checks, i);
          return Err(VkError);
        }
        DecompressCompress(round1Outputs[i].1);
        var dlStruct := DL.DiscreteLogKnowledgeProofStruct(Compress(round1Outputs[i].1));
        var verificationStatus := VerifySignature(sigSessionAuth, sha256, OptimizedMessageString(msg), dlStruct, pvkList[i], gm17, images[i]);
        if !verificationStatus {
          assert checks[i] == Some(SignatureError);
          FirstErrorAt(checks, i);
          return Err(SignatureError);
        }
        PassedThrough(checks, i);
        i := i + 1;
      }
      assert FirstError(checks).Ok?;
      return Ok(());
    }

    /** `compute_key`. */
    method ComputeKey(round1Payload: seq<Point>, round2Payload: seq<Point>) returns (key: Point)
      requires bd.Some? && 1 <= |round1Payload| && FindPrevIdx(idx, |round1Payload|) < |round1Payload|
      requires |round1Payload| == |round2Payload|
      ensures key == BD.Key(idx, bd.value.xI, round1Payload, round2Payload)
    {
      key := BD.AccumulateKey(idx, bd.value.xI, round1Payload, round2Payload);
    }
  }

  /** A party as `setup_parties` creates it. */
  predicate SetUp(p: Party, i: nat, gm17: Gm17Darkpool, images: seq<Fr>, minBal: U64, balance: U64, blinding: Fr, pk: ProvingKey,
                  pvkList: seq<VerifyingKey>)
    reads p
  {
    p.idx == i && p.gm17 == gm17 && p.images == images && p.minBal == minBal && p.balance == balance
    && p.blinding == blinding && p.pk == pk && p.pvkList == pvkList && p.vk == None && p.bd == None
  }

  /** `setup_parties`: validate the inputs in order, hash every signed
      value with its blinding draw, and create the parties. */
  method SetupParties(partyAmount: nat, minBal: U64, balances: seq<U64>, upperbound: U64, gm17: Gm17Darkpool,
                      pvkList: seq<VerifyingKey>, pkList: seq<ProvingKey>, blindingDraws: seq<Fr>)
    returns (res: Result<seq<Party>>)
    requires |blindingDraws| == partyAmount && SetupSubtractionsFit(partyAmount, minBal, balances, upperbound)
    requires SetupError(partyAmount, minBal, balances, upperbound).None? ==> partyAmount <= |pkList|
    ensures SetupError(partyAmount, minBal, balances, upperbound).Some? ==> res == Err(SetupError(partyAmount, minBal, balances, upperbound).value)
    ensures SetupError(partyAmount, minBal, balances, upperbound).None? ==>
      BalancesInRange(minBal, balances, upperbound)
      && res.Ok? && |res.value| == partyAmount
      && (forall j | 0 <= j < partyAmount :: fresh(res.value[j])
            && SetUp(res.value[j], j, gm17, Images(gm17, upperbound, minBal, balances, blindingDraws), minBal, balances[j],
                     blindingDraws[j], pkList[j], pvkList))
      && (forall a, b | 0 <= a < b < partyAmount :: res.value[a] != res.value[b])
  {
    ValidUpperboundIff(upperbound);
    if |balances| != partyAmount {
      return Err(LengthError);
    }
    if !ValidUpperbound(upperbound) {
      return Err(UpperboundError(upperbound));
    }
    var images: seq<Fr> := [];
    var blindings: seq<Fr> := [];
    var i := 0;
    while i < partyAmount
      invariant 0 <= i <= partyAmount
      invariant forall j | 0 <= j < i :: minBal <= balances[j] <= upperbound + minBal
      invariant blindings == blindingDraws[..i]
      invariant images == Images(gm17, upperbound, minBal, balances[..i], blindingDraws[..i])
    {
      if balances[i] < minBal {
        return Err(BalanceError);
      }
      var r := blindingDraws[i];
      blindings := blindings + [r];
      var v := FFrom(upperbound - (balances[i] - minBal));
      var image := Mimc(v, r, gm17.mimcConstants);
      images := images + [image];
      i := i + 1;
    }
    assert balances[..i] == balances && blindingDraws[..i] == blindingDraws;

    var parties: seq<Party> := [];
    i := 0;
    while i < partyAmount
      invariant 0 <= i <= partyAmount && |parties| == i
      invariant forall j | 0 <= j < i ::
                  fresh(parties[j]) && SetUp(parties[j], j, gm17, images, minBal, balances[j], blindings[j], pkList[j], pvkList)
      invariant forall a, b | 0 <= a < b < i :: parties[a] != parties[b]
    {
      var p := new Party(i, gm17, images, minBal, balances[i], blindings[i], pkList[i], pvkList);
      parties := parties + [p];
      i := i + 1;
    }
    return Ok(parties);
  }

  // ---------------------------------------------------------------------
  // The protocol run

  /** The values `setup_parties` gave the parties: party j has index j,
      the circuit, everybody's images and verifying keys, min_bal,
      balance j, blinding j and proving key j. */
  predicate Configured(parties: seq<Party>, gm17: Gm17Darkpool, images: seq<Fr>, pvkList: seq<VerifyingKey>, pkList: seq<ProvingKey>,
                       minBal: U64, balances: seq<U64>, blindings: seq<Fr>)
  {
    |parties| == |balances| == |blindings| <= |pkList|
    && (forall j | 0 <= j < |parties| ::
          parties[j].idx == j && parties[j].gm17 == gm17 && parties[j].images == images && parties[j].pvkList == pvkList
          && parties[j].minBal == minBal && parties[j].balance == balances[j] && parties[j].blinding == blindings[j]
          && parties[j].pk == pkList[j])
    && (forall a, b | 0 <= a < b < |parties| :: parties[a] != parties[b])
  }

  /** Round 1 of every party, in index order: the published pairs and the
      list of round-1 points. */
  method Round1All(parties: seq<Party>, g: Point, xDraws: seq<Scalar>)
    returns (round1Outputs: seq<(nat, Point)>, round1Payload: seq<Point>)
    requires |parties| == |xDraws| && (forall j | 0 <= j < |parties| :: parties[j].idx == j)
    requires forall a, b | 0 <= a < b < |parties| :: parties[a] != parties[b]
    modifies (set j | 0 <= j < |parties| :: parties[j])`bd
    ensures round1Outputs == Round1Outputs(g, xDraws) && round1Payload == BD.Zs(g, xDraws)
    ensures forall j | 0 <= j < |parties| :: parties[j].bd == Some(BdState(PMul(g, xDraws[j]), xDraws[j]))
  {
    ghost var outputs := Round1Outputs(g, xDraws);
    ghost var zs := BD.Zs(g, xDraws);
    round1Outputs := [];
    round1Payload := [];
    var i := 0;
    while i < |parties|
      invariant 0 <= i <= |parties|
      invariant round1Outputs == outputs[..i] && round1Payload == zs[..i]
      invariant forall j | 0 <= j < i :: parties[j].bd == Some(BdState(PMul(g, xDraws[j]), xDraws[j]))
    {
      var out := parties[i].Round1(g, xDraws[i]);
      PrefixStep(outputs, i);
      PrefixStep(zs, i);
      round1Outputs := round1Outputs + [out];
      round1Payload := round1Payload + [out.1];
      i := i + 1;
    }
    assert outputs[..i] == outputs && zs[..i] == zs;
  }

  /** Round 2 of party i: its message extends the honest round-2 messages
      of parties 0..i-1. */
  method Round2Of(parties: seq<Party>, i: nat, round1Outputs: seq<(nat, Point)>, sha256: Sha256, dlNonceDraws: seq<Scalar>, upperbound: U64,
                  ghost gm17: Gm17Darkpool, ghost images: seq<Fr>, ghost pvkList: seq<VerifyingKey>, ghost pkList: seq<ProvingKey>,
                  ghost minBal: U64, ghost balances: seq<U64>, ghost blindings: seq<Fr>, ghost g: Point, ghost xs: seq<Scalar>,
                  ghost sent: seq<(OptimizedMessage, OptimizedSignatureAndSessionAuthentication)>)
    returns (message: OptimizedMessage, signature: OptimizedSignatureAndSessionAuthentication)
    requires Configured(parties, gm17, images, pvkList, pkList, minBal, balances, blindings)
    requires HonestInputs(minBal, balances, blindings, upperbound, pkList, xs, dlNonceDraws) && |xs| == |parties| && i < |parties|
    requires Valid(gm17)
    requires images == Images(gm17, upperbound, minBal, balances, blindings) && round1Outputs == Round1Outputs(g, xs)
    requires parties[i].bd == Some(BdState(PMul(g, xs[i]), xs[i]))
    requires sent == HonestRound2(gm17, sha256, minBal, balances, blindings, upperbound, pkList, g, xs, dlNonceDraws)[..i]
    modifies (parties[i] as Party)`vk
    ensures parties[i].vk == Some(VkOf(round1Outputs))
    ensures message.payload == BD.Xs(g, xs)[i]
    ensures sent + [(message, signature)]
         == HonestRound2(gm17, sha256, minBal, balances, blindings, upperbound, pkList, g, xs, dlNonceDraws)[..i + 1]
  {
    var party := parties[i];
    message, signature := party.Round2(round1Outputs, sha256, dlNonceDraws[i], upperbound);
    HonestMessage2Is(gm17, sha256, minBal, balances, blindings, upperbound, pkList, g, xs, dlNonceDraws, i, images);
    PrefixStep(HonestRound2(gm17, sha256, minBal, balances, blindings, upperbound, pkList, g, xs, dlNonceDraws), i);
  }

  /** The i-th honest round-2 message, spelled out. */
  lemma HonestMessage2Is(gm17: Gm17Darkpool, sha256: Sha256, minBal: U64, balances: seq<U64>, blindings: seq<Fr>, upperbound: U64,
                         pkList: seq<ProvingKey>, g: Point, xs: seq<Scalar>, dlNonces: seq<Scalar>, i: nat, images: seq<Fr>)
    requires HonestInputs(minBal, balances, blindings, upperbound, pkList, xs, dlNonces) && i < |xs|
    requires images == Images(gm17, upperbound, minBal, balances, blindings)
    ensures VkOf(Round1Outputs(g, xs)).zIs == BD.Zs(g, xs)
    ensures HonestRound2(gm17, sha256, minBal, balances, blindings, upperbound, pkList, g, xs, dlNonces)[i]
         == SignedMessage(gm17, sha256, i, BD.Round2Payload(i, xs[i], VkOf(Round1Outputs(g, xs)).zIs), VkOf(Round1Outputs(g, xs)),
                          images[i], minBal, balances[i], blindings[i], BdState(PMul(g, xs[i]), xs[i]), dlNonces[i], upperbound, pkList[i])
  {
  }

  /** Round 2 of every party: the signed messages and the list of their
      payloads. */
  method Round2All(parties: seq<Party>, round1Outputs: seq<(nat, Point)>, sha256: Sha256, dlNonceDraws: seq<Scalar>, upperbound: U64,
                   ghost gm17: Gm17Darkpool, ghost images: seq<Fr>, ghost pvkList: seq<VerifyingKey>, ghost pkList: seq<ProvingKey>,
                   ghost minBal: U64, ghost balances: seq<U64>, ghost blindings: seq<Fr>, ghost g: Point, ghost xs: seq<Scalar>)
    returns (round2Outputs: seq<(OptimizedMessage, OptimizedSignatureAndSessionAuthentication)>, round2Payload: seq<Point>)
    requires Configured(parties, gm17, images, pvkList, pkList, minBal, balances, blindings)
    requires HonestInputs(minBal, balances, blindings, upperbound, pkList, xs, dlNonceDraws) && |xs| == |parties|
    requires Valid(gm17) && images == Images(gm17, upperbound, minBal, balances, blindings) && round1Outputs == Round1Outputs(g, xs)
    requires forall j | 0 <= j < |parties| :: parties[j].bd == Some(BdState(PMul(g, xs[j]), xs[j]))
    modifies (set j | 0 <= j < |parties| :: parties[j])`vk
    ensures forall j | 0 <= j < |parties| :: parties[j].vk == Some(VkOf(round1Outputs))
    ensures round2Payload == BD.Xs(g, xs)
    ensures round2Outputs == HonestRound2(gm17, sha256, minBal, balances, blindings, upperbound, pkList, g, xs, dlNonceDraws)
  {
    ghost var payloads := BD.Xs(g, xs);
    ghost var honest := HonestRound2(gm17, sha256, minBal, balances, blindings, upperbound, pkList, g, xs, dlNonceDraws);
    round2Outputs := [];
    round2Payload := [];
    var i := 0;
    while i < |parties|
      invariant 0 <= i <= |parties|
      invariant forall j | 0 <= j < i :: parties[j].vk == Some(VkOf(round1Outputs))
      invariant round2Payload == payloads[..i]
      invariant round2Outputs == honest[..i]
    {
      var message, signature := Round2Of(parties, i, round1Outputs, sha256, dlNonceDraws, upperbound, gm17, images, pvkList, pkList,
                                         minBal, balances, blindings, g, xs, round2Outputs);
      PrefixStep(payloads, i);
      round2Outputs := round2Outputs + [(message, signature)];
      round2Payload := round2Payload + [message.payload];
      i := i + 1;
    }
    PrefixAll(payloads);
    PrefixAll(honest);
  }

  /** Every party verifies the honest round-2 outputs, in index order,
      until one of them returns an error; that error can only be a
      rejected signature, and there is none when the keys and the circuit
      fit. */
  method VerifyAll(parties: seq<Party>, sha256: Sha256, round1Outputs: seq<(nat, Point)>,
                   round2Outputs: seq<(OptimizedMessage, OptimizedSignatureAndSessionAuthentication)>,
                   ghost gm17: Gm17Darkpool, ghost images: seq<Fr>, ghost pvkList: seq<VerifyingKey>, ghost pkList: seq<ProvingKey>,
                   ghost minBal: U64, ghost balances: seq<U64>, ghost blindings: seq<Fr>, ghost upperbound: U64,
                   ghost xs: seq<Scalar>, ghost dlNonces: seq<Scalar>)
    returns (res: Result<()>)
    requires Configured(parties, gm17, images, pvkList, pkList, minBal, balances, blindings)
    requires HonestInputs(minBal, balances, blindings, upperbound, pkList, xs, dlNonces) && |xs| == |parties| <= |pvkList|
    requires images == Images(gm17, upperbound, minBal, balances, blindings) && round1Outputs == Round1Outputs(BasePoint, xs)
    requires round2Outputs == HonestRound2(gm17, sha256, minBal, balances, blindings, upperbound, pkList, BasePoint, xs, dlNonces)
    requires forall j | 0 <= j < |parties| :: parties[j].vk == Some(VkOf(round1Outputs))
    ensures res == Ok(()) || res == Err(SignatureError)
    ensures KeysFit(gm17, upperbound, pkList, pvkList, |parties|) ==> res == Ok(())
  {
    var i := 0;
    while i < |parties|
      invariant 0 <= i <= |parties|
    {
      HonestRound2Outcome(gm17, sha256, minBal, balances, blindings, upperbound, pkList, pvkList, xs, dlNonces, i, images,
                          round1Outputs, round2Outputs);
      var verifyRes := parties[i].VerifyAllRound2Outputs(sha256, round1Outputs, round2Outputs);
      if verifyRes.Err? {
        return verifyRes;
      }
      i := i + 1;
    }
    return Ok(());
  }

  /** Every party computes its key. */
  method ComputeKeys(parties: seq<Party>, round1Payload: seq<Point>, round2Payload: seq<Point>, ghost g: Point, ghost xs: seq<Scalar>)
    returns (keys: seq<Point>)
    requires |xs| == |parties| >= 2 && round1Payload == BD.Zs(g, xs) && round2Payload == BD.Xs(g, xs)
    requires forall j | 0 <= j < |parties| :: parties[j].idx == j && parties[j].bd.Some? && parties[j].bd.value.xI == xs[j]
    ensures |keys| == |parties|
    ensures forall k | 0 <= k < |keys| :: keys[k] == BD.GroupKey(g, xs)
  {
    keys := [];
    var i := 0;
    while i < |parties|
      invariant 0 <= i <= |parties| && |keys| == i
      invariant forall k | 0 <= k < i :: keys[k] == BD.GroupKey(g, xs)
    {
      BD.KeyAgreement(g, xs, i);
      var key := parties[i].ComputeKey(round1Payload, round2Payload);
      keys := keys + [key];
      i := i + 1;
    }
  }

  /** The two rounds, the verification and the key computation of
      `run_optimized_key_exchange` for parties as `setup_parties` left
      them. */
  method RunRounds(parties: seq<Party>, sha256: Sha256, upperbound: U64, xDraws: seq<Scalar>, dlNonceDraws: seq<Scalar>,
                   ghost gm17: Gm17Darkpool, ghost images: seq<Fr>, ghost pvkList: seq<VerifyingKey>, ghost pkList: seq<ProvingKey>,
                   ghost minBal: U64, ghost balances: seq<U64>, ghost blindings: seq<Fr>)
    returns (res: Result<seq<Point>>)
    requires Configured(parties, gm17, images, pvkList, pkList, minBal, balances, blindings)
    requires Valid(gm17) && BalancesInRange(minBal, balances, upperbound)
    requires images == Images(gm17, upperbound, minBal, balances, blindings) && |parties| <= |pvkList|
    requires |xDraws| == |dlNonceDraws| == |parties| != 1
    modifies set j | 0 <= j < |parties| :: parties[j]
    ensures res.Ok? || res == Err(SignatureError)
    ensures res.Ok? ==> |res.value| == |parties| && forall k | 0 <= k < |parties| :: res.value[k] == BD.GroupKey(BasePoint, xDraws)
    ensures KeysFit(gm17, upperbound, pkList, pvkList, |parties|) ==> res.Ok?
  {
    if |parties| == 0 {
      // with no parties none of the loops runs
      return Ok([]);
    }
    var g := BasePoint;
    var round1Outputs, round1Payload := Round1All(parties, g, xDraws);
    var round2Outputs, round2Payload := Round2All(parties, round1Outputs, sha256, dlNonceDraws, upperbound, gm17, images, pvkList,
                                                  pkList, minBal, balances, blindings, g, xDraws);
    var verifyRes := VerifyAll(parties, sha256, round1Outputs, round2Outputs, gm17, images, pvkList, pkList, minBal, balances,
                               blindings, upperbound, xDraws, dlNonceDraws);
    if verifyRes.Err? {
      return Err(verifyRes.error);
    }
    var keys := ComputeKeys(parties, round1Payload, round2Payload, g, xDraws);
    return Ok(keys);
  }

  /** `run_optimized_key_exchange` with the random draws as parameters: the
      blindings of the setup, the round-1 secrets x_i and the nonces of the
      discrete-log proofs. An input the setup rejects gives its error.
      Otherwise the only possible failure is a rejected signature, and when
      every proving key matches its verifying key and the circuit's bit
      size covers the upper bound, every party obtains the group key
      B·Σ_j x_j·x_{j+1}. Excluded are the panics: one party (its round 2
      indexes out of bounds), a balance above upperbound + min_bal (the
      subtraction underflows), and key lists shorter than the parties. */
  method Run(partyAmount: nat, minBal: U64, balances: seq<U64>, upperbound: U64, gm17: Gm17Darkpool,
             pvkList: seq<VerifyingKey>, pkList: seq<ProvingKey>, sha256: Sha256,
             blindingDraws: seq<Fr>, xDraws: seq<Scalar>, dlNonceDraws: seq<Scalar>) returns (res: Result<seq<Point>>)
    requires Valid(gm17)
    requires |blindingDraws| == |xDraws| == |dlNonceDraws| == partyAmount
    requires SetupSubtractionsFit(partyAmount, minBal, balances, upperbound)
    requires SetupError(partyAmount, minBal, balances, upperbound).None? ==>
      partyAmount != 1 && partyAmount <= |pkList| && partyAmount <= |pvkList|
    ensures SetupError(partyAmount, minBal, balances, upperbound).Some? ==> res == Err(SetupError(partyAmount, minBal, balances, upperbound).value)
    ensures SetupError(partyAmount, minBal, balances, upperbound).None? ==> res.Ok? || res == Err(SignatureError)
    ensures res.Ok? ==> |res.value| == partyAmount && forall k | 0 <= k < partyAmount :: res.value[k] == BD.GroupKey(BasePoint, xDraws)
    ensures SetupError(partyAmount, minBal, balances, upperbound).None? && KeysFit(gm17, upperbound, pkList, pvkList, partyAmount) ==> res.Ok?
  {
    var setup := SetupParties(partyAmount, minBal, balances, upperbound, gm17, pvkList, pkList, blindingDraws);
    if setup.Err? {
      return Err(setup.error);
    }
    var parties := setup.value;
    assert SetupError(partyAmount, minBal, balances, upperbound).None?;
    ghost var images := Images(gm17, upperbound, minBal, balances, blindingDraws);
    assert forall j | 0 <= j < partyAmount :: SetUp(parties[j], j, gm17, images, minBal, balances[j], blindingDraws[j], pkList[j], pvkList);
    res := RunRounds(parties, sha256, upperbound, xDraws, dlNonceDraws, gm17, images, pvkList, pkList, minBal, balances, blindingDraws);
  }
}
