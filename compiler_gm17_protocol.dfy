/** The GM17 compiler WAKE (compiler_gm17_wake_protocol.rs): the compiler
    construction of the Bulletproofs variant, with each party's balance
    published as a MiMC image and every round-2 and round-3 message signed
    by a GM17 proof of knowledge of the value behind that image. */
module CompilerGm17Protocol {
  import opened Common
  import opened Groups
  import opened Utility
  import opened Gm17
  import opened WakeCommon
  import opened CompilerMessages
  import opened CompilerGm17Signature
  import BD = BurmesterDesmedt

  // ---------------------------------------------------------------------
  // Messages and their checks

  /** A message of a round with its signature, as `round_2` and `round_3`
      build them. */
  function SignedMessage(gm17: Gm17Darkpool, sha256: Sha256, idx: nat, roundIdx: nat, payload: Point, nonces: Nonces,
                         minBal: U64, balance: U64, blinding: Fr, upperbound: U64, pk: ProvingKey): (CompMessage, CompSignature)
    requires minBal <= balance <= upperbound + minBal
  {
    var message := CompMessage(idx, roundIdx, payload, nonces);
    (message, Signature(gm17, sha256, CompMessageString(message), minBal, balance, blinding, upperbound, pk))
  }

  /** The three checks `round_recieve` runs on one other party's message,
      in order: round number, nonces, signature. */
  function MessageCheck(ownNonces: Nonces, gm17: Gm17Darkpool, sha256: Sha256, pvk: VerifyingKey, image: Fr,
                        received: (CompMessage, CompSignature), roundIdx: nat): Option<string>
  {
    var message := received.0;
    if message.roundIdx != roundIdx then Some(RoundError(message.roundIdx))
    else if NoncesString(message.nonces) != NoncesString(ownNonces) then Some(NoncesError)
    else if !VerifySignature(received.1, gm17, sha256, pvk, image, CompMessageString(message)) then Some(SignatureError)
    else None
  }

  /** One check per message, against the sender's image and verifying key;
      the receiver's own message is skipped. */
  function ReceiveChecks(idx: nat, ownNonces: Nonces, images: seq<Fr>, pvkList: seq<VerifyingKey>, gm17: Gm17Darkpool,
                         sha256: Sha256, prev: seq<(CompMessage, CompSignature)>, roundIdx: nat): (checks: seq<Option<string>>)
    requires |images| == |prev| <= |pvkList|
    ensures |checks| == |prev|
  {
    seq(|prev|, i requires 0 <= i < |prev| =>
      if i == idx then None else MessageCheck(ownNonces, gm17, sha256, pvkList[i], images[i], prev[i], roundIdx))
  }

  /** What `round_recieve` returns: the length error, or the first failed
      check in index order. */
  function ReceiveResult(idx: nat, ownNonces: Nonces, images: seq<Fr>, pvkList: seq<VerifyingKey>, gm17: Gm17Darkpool,
                         sha256: Sha256, prev: seq<(CompMessage, CompSignature)>, roundIdx: nat): Result<()>
    requires |images| <= |pvkList|
  {
    if |images| != |prev| then Err(LengthMismatch(|prev|, |images|))
    else FirstError(ReceiveChecks(idx, ownNonces, images, pvkList, gm17, sha256, prev, roundIdx))
  }

  /** A receiver that accepts has seen, from every other party, a message
      of the expected round, carrying its own nonces (the same nonces when
      the indices agree), whose signature verifies against that party's
      image and verifying key. */
  lemma ReceiveAccepts(idx: nat, ownNonces: Nonces, images: seq<Fr>, pvkList: seq<VerifyingKey>, gm17: Gm17Darkpool,
                       sha256: Sha256, prev: seq<(CompMessage, CompSignature)>, roundIdx: nat, i: nat)
    requires |images| <= |pvkList|
    requires ReceiveResult(idx, ownNonces, images, pvkList, gm17, sha256, prev, roundIdx).Ok?
    requires i < |prev| && i != idx
    ensures |images| == |prev|
    ensures prev[i].0.roundIdx == roundIdx
    ensures NoncesString(prev[i].0.nonces) == NoncesString(ownNonces)
    ensures prev[i].0.nonces.idxs == ownNonces.idxs ==> prev[i].0.nonces == ownNonces
    ensures VerifySignature(prev[i].1, gm17, sha256, pvkList[i], images[i], CompMessageString(prev[i].0))
  {
    var checks := ReceiveChecks(idx, ownNonces, images, pvkList, gm17, sha256, prev, roundIdx);
    assert checks[i].None?;
    if prev[i].0.nonces.idxs == ownNonces.idxs {
      NoncesStringInjective(prev[i].0.nonces, ownNonces);
    }
  }

  // ---------------------------------------------------------------------
  // Honest executions

  /** The messages of one round when party i sends payloads[i]. */
  function HonestRound(gm17: Gm17Darkpool, sha256: Sha256, minBal: U64, balances: seq<U64>, blindings: seq<Fr>, upperbound: U64,
                       pkList: seq<ProvingKey>, nonces: Nonces, roundIdx: nat, payloads: seq<Point>): (out: seq<(CompMessage, CompSignature)>)
    requires |balances| == |blindings| == |payloads| <= |pkList| && BalancesInRange(minBal, balances, upperbound)
    ensures |out| == |payloads|
  {
    seq(|payloads|, i requires 0 <= i < |payloads| =>
      SignedMessage(gm17, sha256, i, roundIdx, payloads[i], nonces, minBal, balances[i], blindings[i], upperbound, pkList[i]))
  }

  /** A round of honest messages built from the shared nonces can only be
      rejected for a signature, and is accepted by every party when the
      keys and the circuit fit (completeness of the compiler). */
  lemma HonestRoundOutcome(gm17: Gm17Darkpool, sha256: Sha256, minBal: U64, balances: seq<U64>, blindings: seq<Fr>, upperbound: U64,
                           pkList: seq<ProvingKey>, pvkList: seq<VerifyingKey>, nonces: Nonces, roundIdx: nat, payloads: seq<Point>, idx: nat)
    requires |balances| == |blindings| == |payloads| <= |pkList| && |balances| <= |pvkList| && BalancesInRange(minBal, balances, upperbound)
    ensures var images := Images(gm17, upperbound, minBal, balances, blindings);
            var r := ReceiveResult(idx, nonces, images, pvkList, gm17, sha256,
                                   HonestRound(gm17, sha256, minBal, balances, blindings, upperbound, pkList, nonces, roundIdx, payloads), roundIdx);
            (r == Ok(()) || r == Err(SignatureError))
            && (KeysFit(gm17, upperbound, pkList, pvkList, |balances|) ==> r == Ok(()))
  {
    var images := Images(gm17, upperbound, minBal, balances, blindings);
    var prev := HonestRound(gm17, sha256, minBal, balances, blindings, upperbound, pkList, nonces, roundIdx, payloads);
    var fit := KeysFit(gm17, upperbound, pkList, pvkList, |balances|);
    forall i | 0 <= i < |prev| && i != idx
      ensures MessageCheck(nonces, gm17, sha256, pvkList[i], images[i], prev[i], roundIdx).None?
           || MessageCheck(nonces, gm17, sha256, pvkList[i], images[i], prev[i], roundIdx) == Some(SignatureError)
      ensures fit ==> MessageCheck(nonces, gm17, sha256, pvkList[i], images[i], prev[i], roundIdx).None?
    {
      HonestMessageCheck(gm17, sha256, minBal, balances, blindings, upperbound, pkList, pvkList, nonces, roundIdx, payloads, i);
    }
    ChecksOutcome(idx, nonces, images, pvkList, gm17, sha256, prev, roundIdx, fit);
  }

  /** The check of one honest message: it can only fail on the signature,
      and passes when the keys and the circuit fit. */
  lemma HonestMessageCheck(gm17: Gm17Darkpool, sha256: Sha256, minBal: U64, balances: seq<U64>, blindings: seq<Fr>, upperbound: U64,
                           pkList: seq<ProvingKey>, pvkList: seq<VerifyingKey>, nonces: Nonces, roundIdx: nat, payloads: seq<Point>, i: nat)
    requires |balances| == |blindings| == |payloads| <= |pkList| && |balances| <= |pvkList| && BalancesInRange(minBal, balances, upperbound)
    requires i < |payloads|
    ensures var images := Images(gm17, upperbound, minBal, balances, blindings);
            var m := SignedMessage(gm17, sha256, i, roundIdx, payloads[i], nonces, minBal, balances[i], blindings[i], upperbound, pkList[i]);
            var c := MessageCheck(nonces, gm17, sha256, pvkList[i], images[i], m, roundIdx);
            (c.None? || c == Some(SignatureError)) && (KeysFit(gm17, upperbound, pkList, pvkList, |balances|) ==> c.None?)
  {
    if KeysFit(gm17, upperbound, pkList, pvkList, |balances|) {
      var images := Images(gm17, upperbound, minBal, balances, blindings);
      var s := CompMessageString(CompMessage(i, roundIdx, payloads[i], nonces));
      SignVerify(gm17, sha256, s, minBal, balances[i], blindings[i], upperbound, pkList[i], pvkList[i], images[i], s);
    }
  }

  /** The receive result from the outcome of each message check. */
  lemma ChecksOutcome(idx: nat, ownNonces: Nonces, images: seq<Fr>, pvkList: seq<VerifyingKey>, gm17: Gm17Darkpool, sha256: Sha256,
                      prev: seq<(CompMessage, CompSignature)>, roundIdx: nat, fit: bool)
    requires |images| == |prev| <= |pvkList|
    requires forall i | 0 <= i < |prev| && i != idx ::
               MessageCheck(ownNonces, gm17, sha256, pvkList[i], images[i], prev[i], roundIdx).None?
               || MessageCheck(ownNonces, gm17, sha256, pvkList[i], images[i], prev[i], roundIdx) == Some(SignatureError)
    requires fit ==> forall i | 0 <= i < |prev| && i != idx ::
               MessageCheck(ownNonces, gm17, sha256, pvkList[i], images[i], prev[i], roundIdx).None?
    ensures ReceiveResult(idx, ownNonces, images, pvkList, gm17, sha256, prev, roundIdx) == Ok(())
         || ReceiveResult(idx, ownNonces, images, pvkList, gm17, sha256, prev, roundIdx) == Err(SignatureError)
    ensures fit ==> ReceiveResult(idx, ownNonces, images, pvkList, gm17, sha256, prev, roundIdx) == Ok(())
  {
    var checks := ReceiveChecks(idx, ownNonces, images, pvkList, gm17, sha256, prev, roundIdx);
    OnlySignatureFails(checks);
    if fit {
      assert forall i | 0 <= i < |checks| :: checks[i].None?;
    }
  }

  // ---------------------------------------------------------------------
  // Parties

  /** A party: public index, minimum balance, images and verifying keys;
      the circuit, secret balance, blinding and proving key; the nonces and
      the Burmester–Desmedt secret once the protocol has produced them. */
  class Party {
    const idx: nat
    const minBal: U64
    const images: seq<Fr>
    const pvkList: seq<VerifyingKey>
    const gm17: Gm17Darkpool
    const balance: U64
    const blinding: Fr
    const pk: ProvingKey
    var nonces: Option<Nonces>
    var bd: Option<Scalar>

    constructor (idx: nat, gm17: Gm17Darkpool, images: seq<Fr>, minBal: U64, balance: U64, blinding: Fr, pk: ProvingKey,
                 pvkList: seq<VerifyingKey>)
      ensures this.idx == idx && this.gm17 == gm17 && this.images == images && this.minBal == minBal
      ensures this.balance == balance && this.blinding == blinding && this.pk == pk && this.pvkList == pvkList
      ensures nonces == None && bd == None
    {
      this.idx := idx;
      this.gm17 := gm17;
      this.images := images;
      this.minBal := minBal;
      this.balance := balance;
      this.blinding := blinding;
      this.pk := pk;
      this.pvkList := pvkList;
      nonces := None;
      bd := None;
    }

    /** `round_1`: publish the party's index with a fresh nonce. */
    method Round1(nonce: Scalar) returns (out: (nat, Scalar))
      ensures out == (idx, nonce)
    {
      out := (idx, nonce);
    }

    /** `round1_recieve`: keep everybody's nonces. */
    method Round1Receive(round1Outputs: seq<(nat, Scalar)>)
      modifies this
      ensures nonces == Some(Unzip(round1Outputs)) && bd == old(bd)
    {
      nonces := Some(Unzip(round1Outputs));
    }

    /** `round_2`: draw r, send z = g·r with the nonces, signed. */
    method Round2(g: Point, sha256: Sha256, r: Scalar, upperbound: U64) returns (message: CompMessage, signature: CompSignature)
      requires nonces.Some? && Valid(gm17) && minBal <= balance <= upperbound + minBal
      modifies this
      ensures bd == Some(r) && nonces == old(nonces)
      ensures (message, signature) == SignedMessage(gm17, sha256, idx, 2, PMul(g, r), nonces.value, minBal, balance, blinding, upperbound, pk)
    {
      bd := Some(r);
      var z := PMul(g, r);
      message := CompMessage(idx, 2, z, nonces.value);
      signature := Sign(gm17, sha256, CompMessageString(message), minBal, balance, blinding, upperbound, pk);
    }

    /** `round_3`: send x = (z_{i+1} - z_{i-1})·r with the nonces, signed. */
    method Round3(zList: seq<Point>, sha256: Sha256, upperbound: U64) returns (message: CompMessage, signature: CompSignature)
      requires nonces.Some? && bd.Some? && 2 <= |zList| && idx < |zList|
      requires Valid(gm17) && minBal <= balance <= upperbound + minBal
      ensures (message, signature)
          == SignedMessage(gm17, sha256, idx, 3, BD.Round2Payload(idx, bd.value, zList), nonces.value, minBal, balance, blinding, upperbound, pk)
    {
      var (z1, z2) := GetAdjacentElements(zList, idx);
      var x := PMul(PSub(z2, z1), bd.value);
      message := CompMessage(idx, 3, x, nonces.value);
      signature := Sign(gm17, sha256, CompMessageString(message), minBal, balance, blinding, upperbound, pk);
    }

    /** `round_recieve`: check every other party's message of the previous
      round, stopping at the first failure. */
    method RoundReceive(sha256: Sha256, prevRoundRes: seq<(CompMessage, CompSignature)>, roundIdx: nat) returns (res: Result<()>)
      requires nonces.Some? && |images| <= |pvkList|
      ensures res == ReceiveResult(idx, nonces.value, images, pvkList, gm17, sha256, prevRoundRes, roundIdx)
    {
      if |images| != |prevRoundRes| {
        return Err(LengthMismatch(|prevRoundRes|, |images|));
      }
      ghost var checks := ReceiveChecks(idx, nonces.value, images, pvkList, gm17, sha256, prevRoundRes, roundIdx);
      assert ReceiveResult(idx, nonces.value, images, pvkList, gm17, sha256, prevRoundRes, roundIdx) == FirstError(checks);
      var i := 0;
      while i < |prevRoundRes|
        invariant 0 <= i <= |prevRoundRes|
        invariant forall j | 0 <= j < i :: checks[j].None?
      {
        if i == idx {
          PassedThrough(checks, i);
          i := i + 1;
          continue;
        }
        var currMessage := prevRoundRes[i].0;
        if currMessage.roundIdx != roundIdx {
          assert checks[i] == Some(RoundError(currMessage.roundIdx));
          FirstErrorAt(checks, i);
          return Err(RoundError(currMessage.roundIdx));
        }
        var received := NoncesToString(currMessage.nonces);
        var own := NoncesToString(nonces.value);
        if received != own {
          assert checks[i] == Some(NoncesError);
          FirstErrorAt(checks, i);
          return Err(NoncesError);
        }
        var verificationStatus := VerifySignature(prevRoundRes[i].1, gm17, sha256, pvkList[i], images[i], CompMessageString(currMessage));
        if !verificationStatus {
          assert checks[i] == Some(SignatureError);
          FirstErrorAt(checks, i);
          return Err(SignatureError);
        }
        PassedThrough(checks, i);
        i := i + 1;
      }
      assert FirstError(checks).Ok?;
      return Ok(());
    }

    /** `compute_key`. */
    method ComputeKey(zList: seq<Point>, xList: seq<Point>) returns (key: Point)
      requires bd.Some? && 1 <= |xList| && FindPrevIdx(idx, |xList|) < |zList|
      ensures key == BD.Key(idx, bd.value, zList, xList)
    {
      key := BD.AccumulateKey(idx, bd.value, zList, xList);
    }
  }

  /** A party as `setup_parties` creates it. */
  predicate SetUp(p: Party, i: nat, gm17: Gm17Darkpool, images: seq<Fr>, minBal: U64, balance: U64, blinding: Fr, pk: ProvingKey,
                  pvkList: seq<VerifyingKey>)
    reads p
  {
    p.idx == i && p.gm17 == gm17 && p.images == images && p.minBal == minBal && p.balance == balance
    && p.blinding == blinding && p.pk == pk && p.pvkList == pvkList && p.nonces == None && p.bd == None
  }

  /** `setup_parties`: validate the inputs in order, hash every signed
      value with its blinding draw, and create the parties. */
  method SetupParties(partyAmount: nat, minBal: U64, balances: seq<U64>, upperbound: U64, gm17: Gm17Darkpool,
                      pvkList: seq<VerifyingKey>, pkList: seq<ProvingKey>, blindingDraws: seq<Fr>)
    returns (res: Result<seq<Party>>)
    requires |blindingDraws| == partyAmount && SetupSubtractionsFit(partyAmount, minBal, balances, upperbound)
    requires SetupError(partyAmount, minBal, balances, upperbound).None? ==> partyAmount <= |pkList|
    ensures SetupError(partyAmount, minBal, balances, upperbound).Some? ==> res == Err(SetupError(partyAmount, minBal, balances, upperbound).value)
    ensures SetupError(partyAmount, minBal, balances, upperbound).None? ==>
      BalancesInRange(minBal, balances, upperbound)
      && res.Ok? && |res.value| == partyAmount
      && (forall j | 0 <= j < partyAmount :: fresh(res.value[j])
            && SetUp(res.value[j], j, gm17, Images(gm17, upperbound, minBal, balances, blindingDraws), minBal, balances[j],
                     blindingDraws[j], pkList[j], pvkList))
      && (forall a, b | 0 <= a < b < partyAmount :: res.value[a] != res.value[b])
  {
    ValidUpperboundIff(upperbound);
    if |balances| != partyAmount {
      return Err(LengthError);
    }
    if !ValidUpperbound(upperbound) {
      return Err(UpperboundError(upperbound));
    }
    var images: seq<Fr> := [];
    var blindings: seq<Fr> := [];
    var i := 0;
    while i < partyAmount
      invariant 0 <= i <= partyAmount
      invariant forall j | 0 <= j < i :: minBal <= balances[j] <= upperbound + minBal
      invariant blindings == blindingDraws[..i]
      invariant images == Images(gm17, upperbound, minBal, balances[..i], blindingDraws[..i])
    {
      if balances[i] < minBal {
        return Err(BalanceError);
      }
      var r := blindingDraws[i];
      blindings := blindings + [r];
      var v := FFrom(upperbound - (balances[i] - minBal));
      var image := Mimc(v, r, gm17.mimcConstants);
      images := images + [image];
      i := i + 1;
    }
    assert balances[..i] == balances && blindingDraws[..i] == blindingDraws;

    var parties: seq<Party> := [];
    i := 0;
    while i < partyAmount
      invariant 0 <= i <= partyAmount && |parties| == i
      invariant forall j | 0 <= j < i ::
                  fresh(parties[j]) && SetUp(parties[j], j, gm17, images, minBal, balances[j], blindings[j], pkList[j], pvkList)
      invariant forall a, b | 0 <= a < b < i :: parties[a] != parties[b]
    {
      var p := new Party(i, gm17, images, minBal, balances[i], blindings[i], pkList[i], pvkList);
      parties := parties + [p];
      i := i + 1;
    }
    return Ok(parties);
  }

  // ---------------------------------------------------------------------
  // The protocol run

  /** The values `setup_parties` gave the parties: party j has index j,
      the circuit, everybody's images and verifying keys, min_bal,
      balance j, blinding j and proving key j. */
  predicate Configured(parties: seq<Party>, gm17: Gm17Darkpool, images: seq<Fr>, pvkList: seq<VerifyingKey>, pkList: seq<ProvingKey>,
                       minBal: U64, balances: seq<U64>, blindings: seq<Fr>)
  {
    |parties| == |balances| == |blindings| <= |pkList|
    && (forall j | 0 <= j < |parties| ::
          parties[j].idx == j && parties[j].gm17 == gm17 && parties[j].images == images && parties[j].pvkList == pvkList
          && parties[j].minBal == minBal && parties[j].balance == balances[j] && parties[j].blinding == blindings[j]
          && parties[j].pk == pkList[j])
    && (forall a, b | 0 <= a < b < |parties| :: parties[a] != parties[b])
  }

  /** Round 1 of every party, in index order. */
  method Round1All(parties: seq<Party>, nonceDraws: seq<Scalar>) returns (round1Outputs: seq<(nat, Scalar)>)
    requires |parties| == |nonceDraws| && forall j | 0 <= j < |parties| :: parties[j].idx == j
    ensures round1Outputs == Round1Outputs(nonceDraws)
  {
    round1Outputs := [];
    var i := 0;
    while i < |parties|
      invariant 0 <= i <= |parties|
      invariant round1Outputs == Round1Outputs(nonceDraws)[..i]
    {
      var out := parties[i].Round1(nonceDraws[i]);
      round1Outputs := round1Outputs + [out];
      i := i + 1;
    }
  }

  /** Every party receives the round-1 outputs. */
  method Round1ReceiveAll(parties: seq<Party>, round1Outputs: seq<(nat, Scalar)>)
    requires forall a, b | 0 <= a < b < |parties| :: parties[a] != parties[b]
    modifies set j | 0 <= j < |parties| :: parties[j]
    ensures forall j | 0 <= j < |parties| :: parties[j].nonces == Some(Unzip(round1Outputs)) && parties[j].bd == old(parties[j].bd)
  {
    var i := 0;
    while i < |parties|
      invariant 0 <= i <= |parties|
      invariant forall j | 0 <= j < i :: parties[j].nonces == Some(Unzip(round1Outputs))
      invariant forall j | 0 <= j < |parties| :: parties[j].bd == old(parties[j].bd)
    {
      parties[i].Round1Receive(round1Outputs);
      i := i + 1;
    }
  }

  /** Round 2 of party i: its message extends the honest round-2 messages
      of parties 0..i-1. */
  method Round2Of(parties: seq<Party>, i: nat, g: Point, sha256: Sha256, bdDraws: seq<Scalar>, upperbound: U64,
                  ghost gm17: Gm17Darkpool, ghost images: seq<Fr>, ghost pvkList: seq<VerifyingKey>, ghost pkList: seq<ProvingKey>,
                  ghost minBal: U64, ghost balances: seq<U64>, ghost blindings: seq<Fr>, ghost nonces: Nonces,
                  ghost sent: seq<(CompMessage, CompSignature)>)
    returns (message: CompMessage, signature: CompSignature)
    requires Configured(parties, gm17, images, pvkList, pkList, minBal, balances, blindings)
    requires Valid(gm17) && BalancesInRange(minBal, balances, upperbound)
    requires |bdDraws| == |parties| && i < |parties| && parties[i].nonces == Some(nonces)
    requires sent == HonestRound(gm17, sha256, minBal, balances, blindings, upperbound, pkList, nonces, 2, BD.Zs(g, bdDraws))[..i]
    modifies parties[i]
    ensures parties[i].nonces == Some(nonces) && parties[i].bd == Some(bdDraws[i])
    ensures message.payload == BD.Zs(g, bdDraws)[i]
    ensures sent + [(message, signature)]
         == HonestRound(gm17, sha256, minBal, balances, blindings, upperbound, pkList, nonces, 2, BD.Zs(g, bdDraws))[..i + 1]
  {
    message, signature := parties[i].Round2(g, sha256, bdDraws[i], upperbound);
    PrefixStep(HonestRound(gm17, sha256, minBal, balances, blindings, upperbound, pkList, nonces, 2, BD.Zs(g, bdDraws)), i);
  }

  /** Round 2 of every party: the z_j = g·r_j and their signed messages. */
  method Round2All(parties: seq<Party>, g: Point, sha256: Sha256, bdDraws: seq<Scalar>, upperbound: U64,
                   ghost gm17: Gm17Darkpool, ghost images: seq<Fr>, ghost pvkList: seq<VerifyingKey>, ghost pkList: seq<ProvingKey>,
                   ghost minBal: U64, ghost balances: seq<U64>, ghost blindings: seq<Fr>, ghost nonces: Nonces)
    returns (round2Outputs: seq<(CompMessage, CompSignature)>, payloadList: seq<Point>)
    requires Configured(parties, gm17, images, pvkList, pkList, minBal, balances, blindings)
    requires Valid(gm17) && BalancesInRange(minBal, balances, upperbound)
    requires |bdDraws| == |parties| && forall j | 0 <= j < |parties| :: parties[j].nonces == Some(nonces)
    modifies set j | 0 <= j < |parties| :: parties[j]
    ensures forall j | 0 <= j < |parties| :: parties[j].nonces == Some(nonces) && parties[j].bd == Some(bdDraws[j])
    ensures payloadList == BD.Zs(g, bdDraws)
    ensures round2Outputs == HonestRound(gm17, sha256, minBal, balances, blindings, upperbound, pkList, nonces, 2, BD.Zs(g, bdDraws))
  {
    ghost var zs := BD.Zs(g, bdDraws);
    ghost var honest := HonestRound(gm17, sha256, minBal, balances, blindings, upperbound, pkList, nonces, 2, zs);
    round2Outputs := [];
    payloadList := [];
    var i := 0;
    while i < |parties|
      invariant 0 <= i <= |parties|
      invariant forall j | 0 <= j < |parties| :: parties[j].nonces == Some(nonces)
      invariant forall j | 0 <= j < i :: parties[j].bd == Some(bdDraws[j])
      invariant payloadList == zs[..i]
      invariant round2Outputs == honest[..i]
    {
      var message, signature := Round2Of(parties, i, g, sha256, bdDraws, upperbound, gm17, images, pvkList, pkList, minBal, balances,
                                         blindings, nonces, round2Outputs);
      PrefixStep(zs, i);
      payloadList := payloadList + [message.payload];
      round2Outputs := round2Outputs + [(message, signature)];
      i := i + 1;
    }
    assert zs[..i] == zs && honest[..i] == honest;
  }

  /** Round 3 of party i: its message extends the honest round-3 messages
      of parties 0..i-1. */
  method Round3Of(parties: seq<Party>, i: nat, payloadList: seq<Point>, sha256: Sha256, upperbound: U64,
                  ghost gm17: Gm17Darkpool, ghost images: seq<Fr>, ghost pvkList: seq<VerifyingKey>, ghost pkList: seq<ProvingKey>,
                  ghost minBal: U64, ghost balances: seq<U64>, ghost blindings: seq<Fr>, ghost nonces: Nonces,
                  ghost g: Point, ghost bdDraws: seq<Scalar>, ghost sent: seq<(CompMessage, CompSignature)>)
    returns (message: CompMessage, signature: CompSignature)
    requires Configured(parties, gm17, images, pvkList, pkList, minBal, balances, blindings)
    requires Valid(gm17) && BalancesInRange(minBal, balances, upperbound)
    requires |bdDraws| == |parties| >= 2 && i < |parties| && payloadList == BD.Zs(g, bdDraws)
    requires parties[i].nonces == Some(nonces) && parties[i].bd == Some(bdDraws[i])
    requires sent == HonestRound(gm17, sha256, minBal, balances, blindings, upperbound, pkList, nonces, 3, BD.Xs(g, bdDraws))[..i]
    ensures message.payload == BD.Xs(g, bdDraws)[i]
    ensures sent + [(message, signature)]
         == HonestRound(gm17, sha256, minBal, balances, blindings, upperbound, pkList, nonces, 3, BD.Xs(g, bdDraws))[..i + 1]
  {
    message, signature := parties[i].Round3(payloadList, sha256, upperbound);
    PrefixStep(HonestRound(gm17, sha256, minBal, balances, blindings, upperbound, pkList, nonces, 3, BD.Xs(g, bdDraws)), i);
  }

  /** Round 3 of every party: the x_j and their signed messages. */
  method Round3All(parties: seq<Party>, payloadList: seq<Point>, sha256: Sha256, upperbound: U64,
                   ghost gm17: Gm17Darkpool, ghost images: seq<Fr>, ghost pvkList: seq<VerifyingKey>, ghost pkList: seq<ProvingKey>,
                   ghost minBal: U64, ghost balances: seq<U64>, ghost blindings: seq<Fr>, ghost nonces: Nonces,
                   ghost g: Point, ghost bdDraws: seq<Scalar>)
    returns (round3Outputs: seq<(CompMessage, CompSignature)>, xList: seq<Point>)
    requires Configured(parties, gm17, images, pvkList, pkList, minBal, balances, blindings)
    requires Valid(gm17) && BalancesInRange(minBal, balances, upperbound)
    requires |bdDraws| == |parties| >= 2 && payloadList == BD.Zs(g, bdDraws)
    requires forall j | 0 <= j < |parties| :: parties[j].nonces == Some(nonces) && parties[j].bd == Some(bdDraws[j])
    ensures xList == BD.Xs(g, bdDraws)
    ensures round3Outputs == HonestRound(gm17, sha256, minBal, balances, blindings, upperbound, pkList, nonces, 3, BD.Xs(g, bdDraws))
  {
    ghost var xs := BD.Xs(g, bdDraws);
    ghost var honest := HonestRound(gm17, sha256, minBal, balances, blindings, upperbound, pkList, nonces, 3, xs);
    round3Outputs := [];
    xList := [];
    var i := 0;
    while i < |parties|
      invariant 0 <= i <= |parties|
      invariant xList == xs[..i]
      invariant round3Outputs == honest[..i]
    {
      var message, signature := Round3Of(parties, i, payloadList, sha256, upperbound, gm17, images, pvkList, pkList, minBal, balances,
                                         blindings, nonces, g, bdDraws, round3Outputs);
      PrefixStep(xs, i);
      xList := xList + [message.payload];
      round3Outputs := round3Outputs + [(message, signature)];
      i := i + 1;
    }
    assert xs[..i] == xs && honest[..i] == honest;
  }

  /** Every party receives an honest round, in index order, until one of
      them returns an error; that error can only be a rejected signature,
      and there is none when the keys and the circuit fit. */
  method ReceiveAll(parties: seq<Party>, sha256: Sha256, outputs: seq<(CompMessage, CompSignature)>, roundIdx: nat,
                    ghost gm17: Gm17Darkpool, ghost images: seq<Fr>, ghost pvkList: seq<VerifyingKey>, ghost pkList: seq<ProvingKey>,
                    ghost minBal: U64, ghost balances: seq<U64>, ghost blindings: seq<Fr>, ghost upperbound: U64,
                    ghost nonces: Nonces, ghost payloads: seq<Point>)
    returns (res: Result<()>)
    requires Configured(parties, gm17, images, pvkList, pkList, minBal, balances, blindings) && BalancesInRange(minBal, balances, upperbound)
    requires images == Images(gm17, upperbound, minBal, balances, blindings) && |parties| <= |pvkList|
    requires |payloads| == |parties| && outputs == HonestRound(gm17, sha256, minBal, balances, blindings, upperbound, pkList, nonces, roundIdx, payloads)
    requires forall j | 0 <= j < |parties| :: parties[j].nonces == Some(nonces)
    ensures res == Ok(()) || res == Err(SignatureError)
    ensures KeysFit(gm17, upperbound, pkList, pvkList, |parties|) ==> res == Ok(())
  {
    var i := 0;
    while i < |parties|
      invariant 0 <= i <= |parties|
    {
      HonestRoundOutcome(gm17, sha256, minBal, balances, blindings, upperbound, pkList, pvkList, nonces, roundIdx, payloads, i);
      var roundRes := parties[i].RoundReceive(sha256, outputs, roundIdx);
      if roundRes.Err? {
        return roundRes;
      }
      i := i + 1;
    }
    return Ok(());
  }

  /** Every party computes its key. */
  method ComputeKeys(parties: seq<Party>, zList: seq<Point>, xList: seq<Point>, ghost g: Point, ghost bdDraws: seq<Scalar>)
    returns (keys: seq<Point>)
    requires |bdDraws| == |parties| >= 2 && zList == BD.Zs(g, bdDraws) && xList == BD.Xs(g, bdDraws)
    requires forall j | 0 <= j < |parties| :: parties[j].idx == j && parties[j].bd == Some(bdDraws[j])
    ensures |keys| == |parties|
    ensures forall k | 0 <= k < |keys| :: keys[k] == BD.GroupKey(g, bdDraws)
  {
    keys := [];
    var i := 0;
    while i < |parties|
      invariant 0 <= i <= |parties| && |keys| == i
      invariant forall k | 0 <= k < i :: keys[k] == BD.GroupKey(g, bdDraws)
    {
      BD.KeyAgreement(g, bdDraws, i);
      var key := parties[i].ComputeKey(zList, xList);
      keys := keys + [key];
      i := i + 1;
    }
  }

  /** Rounds 1 to 3 and the key computation of `run_compiler_key_exchange`
      for parties as `setup_parties` left them. */
  method RunRounds(parties: seq<Party>, sha256: Sha256, upperbound: U64, nonceDraws: seq<Scalar>, bdDraws: seq<Scalar>,
                   ghost gm17: Gm17Darkpool, ghost images: seq<Fr>, ghost pvkList: seq<VerifyingKey>, ghost pkList: seq<ProvingKey>,
                   ghost minBal: U64, ghost balances: seq<U64>, ghost blindings: seq<Fr>)
    returns (res: Result<seq<Point>>)
    requires Configured(parties, gm17, images, pvkList, pkList, minBal, balances, blindings)
    requires Valid(gm17) && BalancesInRange(minBal, balances, upperbound)
    requires images == Images(gm17, upperbound, minBal, balances, blindings) && |parties| <= |pvkList|
    requires |nonceDraws| == |bdDraws| == |parties| != 1
    modifies set j | 0 <= j < |parties| :: parties[j]
    ensures res.Ok? || res == Err(SignatureError)
    ensures res.Ok? ==> |res.value| == |parties| && forall k | 0 <= k < |parties| :: res.value[k] == BD.GroupKey(BasePoint, bdDraws)
    ensures KeysFit(gm17, upperbound, pkList, pvkList, |parties|) ==> res.Ok?
  {
    var g := BasePoint;
    var round1Outputs := Round1All(parties, nonceDraws);
    Round1ReceiveAll(parties, round1Outputs);
    ghost var nonces := Unzip(round1Outputs);

    var round2Outputs, payloadList := Round2All(parties, g, sha256, bdDraws, upperbound, gm17, images, pvkList, pkList, minBal, balances, blindings, nonces);
    var round2Res := ReceiveAll(parties, sha256, round2Outputs, 2, gm17, images, pvkList, pkList, minBal, balances, blindings, upperbound, nonces, payloadList);
    if round2Res.Err? {
      return Err(round2Res.error);
    }

    if |parties| == 0 {
      // with no parties the remaining loops do not run
      return Ok([]);
    }
    var round3Outputs, xList := Round3All(parties, payloadList, sha256, upperbound, gm17, images, pvkList, pkList, minBal, balances, blindings, nonces, g, bdDraws);
    var round3Res := ReceiveAll(parties, sha256, round3Outputs, 3, gm17, images, pvkList, pkList, minBal, balances, blindings, upperbound, nonces, xList);
    if round3Res.Err? {
      return Err(round3Res.error);
    }

    var keys := ComputeKeys(parties, payloadList, xList, g, bdDraws);
    return Ok(keys);
  }

  /** `run_compiler_key_exchange` with the random draws as parameters: the
      blindings of the setup, the round-1 nonces and the Burmester–Desmedt
      secrets. An input the setup rejects gives its error. Otherwise the
      only possible failure is a rejected signature, and when every proving
      key matches its verifying key and the circuit's bit size covers the
      upper bound, every party obtains the group key B·Σ_j r_j·r_{j+1}.
      Excluded are the panics: one party (its round 3 indexes out of
      bounds), a balance above upperbound + min_bal (the subtraction
      underflows), and key lists shorter than the parties. */
  method Run(partyAmount: nat, minBal: U64, balances: seq<U64>, upperbound: U64, gm17: Gm17Darkpool,
             pvkList: seq<VerifyingKey>, pkList: seq<ProvingKey>, sha256: Sha256,
             blindingDraws: seq<Fr>, nonceDraws: seq<Scalar>, bdDraws: seq<Scalar>) returns (res: Result<seq<Point>>)
    requires Valid(gm17)
    requires |blindingDraws| == |nonceDraws| == |bdDraws| == partyAmount
    requires SetupSubtractionsFit(partyAmount, minBal, balances, upperbound)
    requires SetupError(partyAmount, minBal, balances, upperbound).None? ==>
      partyAmount != 1 && partyAmount <= |pkList| && partyAmount <= |pvkList|
    ensures SetupError(partyAmount, minBal, balances, upperbound).Some? ==> res == Err(SetupError(partyAmount, minBal, balances, upperbound).value)
    ensures SetupError(partyAmount, minBal, balances, upperbound).None? ==> res.Ok? || res == Err(SignatureError)
    ensures res.Ok? ==> |res.value| == partyAmount && forall k | 0 <= k < partyAmount :: res.value[k] == BD.GroupKey(BasePoint, bdDraws)
    ensures SetupError(partyAmount, minBal, balances, upperbound).None? && KeysFit(gm17, upperbound, pkList, pvkList, partyAmount) ==> res.Ok?
  {
    var setup := SetupParties(partyAmount, minBal, balances, upperbound, gm17, pvkList, pkList, blindingDraws);
    if setup.Err? {
      return Err(setup.error);
    }
    var parties := setup.value;
    assert SetupError(partyAmount, minBal, balances, upperbound).None?;
    ghost var images := Images(gm17, upperbound, minBal, balances, blindingDraws);
    assert forall j | 0 <= j < partyAmount :: SetUp(parties[j], j, gm17, images, minBal, balances[j], blindingDraws[j], pkList[j], pvkList);
    res := RunRounds(parties, sha256, upperbound, nonceDraws, bdDraws, gm17, images, pvkList, pkList, minBal, balances, blindingDraws);
  }
}
