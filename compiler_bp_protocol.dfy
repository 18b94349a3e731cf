/** The Bulletproofs compiler WAKE (compiler_bp_wake_protocol.rs):
    Burmester–Desmedt key exchange where every round-2 and round-3 message
    carries the round-1 nonces and is signed with a range proof that the
    sender's committed balance meets the minimum balance. */
module CompilerBpProtocol {
  import opened Common
  import opened Modular
  import opened Groups
  import opened Text
  import opened Utility
  import opened RangeProofSystem
  import opened WakeCommon
  import opened CompilerMessages
  import opened CompilerBpSignature
  import BD = BurmesterDesmedt

  /** The primitives the protocol takes from its libraries: the generators
      of `PedersenGens::default()` and SHA-256. */
  datatype Crypto = Crypto(pc: PedersenGens, sha256: Sha256)

  // ---------------------------------------------------------------------
  // Balance commitments

  /** u64 subtraction as a release build computes it (a debug build panics
      when b > a). */
  function WrappingSub(a: U64, b: U64): U64
  {
    if a >= b then a - b else a - b + U64Max + 1
  }

  /** The setup commitment as written: B·(upperbound - b) + B_blinding·r,
      with the difference computed in u64. */
  function SetupCommitmentAsWritten(pc: PedersenGens, upperbound: U64, balance: U64, r: Scalar): Point
  {
    PAdd(PMul(BasePoint, SFrom(WrappingSub(upperbound, balance))), PMul(pc.blinding, r))
  }

  /** The setup commitment with the difference taken among scalars, as the
      verifier's shift by min_bal requires. */
  function SetupCommitment(pc: PedersenGens, upperbound: U64, balance: U64, r: Scalar): Point
  {
    PAdd(PMul(BasePoint, SSub(SFrom(upperbound), SFrom(balance))), PMul(pc.blinding, r))
  }

  /** For every balance at most the upper bound the u64 difference does not
      wrap, and the corrected commitment is the one the setup writes. */
  lemma SetupCommitmentAgrees(pc: PedersenGens, upperbound: U64, balance: U64, r: Scalar)
    requires balance <= upperbound
    ensures SetupCommitment(pc, upperbound, balance, r) == SetupCommitmentAsWritten(pc, upperbound, balance, r)
  {
    assert WrappingSub(upperbound, balance) == upperbound - balance;
    ModOfSmall(upperbound, L);
    ModOfSmall(balance, L);
  }

  /** SetupCommitmentAgrees for every party whose balance is at most the
      upper bound. */
  lemma SetupCommitmentsAgree(pc: PedersenGens, upperbound: U64, balances: seq<U64>, blindings: seq<Scalar>)
    requires |blindings| == |balances|
    ensures forall i | 0 <= i < |balances| && balances[i] <= upperbound ::
              SetupCommitment(pc, upperbound, balances[i], blindings[i])
              == SetupCommitmentAsWritten(pc, upperbound, balances[i], blindings[i])
  {
    forall i | 0 <= i < |balances| && balances[i] <= upperbound
      ensures SetupCommitment(pc, upperbound, balances[i], blindings[i])
              == SetupCommitmentAsWritten(pc, upperbound, balances[i], blindings[i])
    {
      SetupCommitmentAgrees(pc, upperbound, balances[i], blindings[i]);
    }
  }

  /** The commitment a receiver checks a signature against: the published
      commitment plus g·min_bal. */
  function UpdatedCommitment(g: Point, commitment: Point, minBal: U64): Point
  {
    PAdd(commitment, PMul(g, SFrom(minBal)))
  }

  /** Shifted by B·min_bal, the setup commitment of any admissible balance
      opens to the value the signer's range proof is about. */
  lemma SetupCommitmentOpens(pc: PedersenGens, minBal: U64, upperbound: U64, balance: U64, r: Scalar)
    requires minBal <= balance <= upperbound + minBal
    ensures UpdatedCommitment(BasePoint, SetupCommitment(pc, upperbound, balance, r), minBal)
         == Commit(pc, ProvenValue(New(pc, minBal, upperbound), balance), r)
  {
    var v := ProvenValue(New(pc, minBal, upperbound), balance);
    UpdatedSetupValue(pc, minBal, upperbound, balance, r, v);
    CommitValue(pc, v, r);
  }

  /** The shifted setup commitment as an integer expression. */
  lemma UpdatedSetupValue(pc: PedersenGens, minBal: U64, upperbound: U64, balance: U64, r: Scalar, v: int)
    requires v == upperbound - balance + minBal
    ensures UpdatedCommitment(BasePoint, SetupCommitment(pc, upperbound, balance, r), minBal) == (v + PMul(pc.blinding, r)) % L
  {
    var x := SSub(SFrom(upperbound), SFrom(balance));
    assert x == (upperbound - balance) % L by {
      ModOfSmall(upperbound, L);
      ModOfSmall(balance, L);
    }
    BaseMul(x);
    assert SFrom(minBal) == minBal by {
      ModOfSmall(minBal, L);
    }
    BaseMul(minBal);
    ShiftSum(PMul(BasePoint, x), PMul(pc.blinding, r), PMul(BasePoint, SFrom(minBal)), upperbound - balance, minBal, v);
  }

  /** A commitment to a value below L as an integer expression. */
  lemma CommitValue(pc: PedersenGens, v: nat, r: Scalar)
    requires v < L
    ensures Commit(pc, v, r) == (v + PMul(pc.blinding, r)) % L
  {
    ModOfSmall(v, L);
    BaseMul(v);
  }

  /** Adding g·x mod L, then h, then m gives (x + m + h) mod L. */
  lemma ShiftSum(a: Point, h: Point, c: Point, x: int, m: int, v: int)
    requires a == x % L && c == m && v == x + m
    ensures PAdd(PAdd(a, h), c) == (v + h) % L
  {
    ModAddLeft(x, h, L);
    ModAddLeft(x + h, m, L);
    assert x + h + m == v + h;
  }

  /** With upperbound 255, min_bal 100 and balance 300 the balance meets
      the minimum and the surplus 200 is within the upper bound, so the
      signer's proof is about 55; but the wrapped setup commitment, shifted
      by min_bal, commits to 2^64 + 55, and the signature is rejected. */
  lemma AsWrittenRejectsHonestParty(pc: PedersenGens, sha256: Sha256, messageString: string, r: Scalar)
    ensures ProvenValue(New(pc, 100, 255), 300) == 55
    ensures !VerifySignature(Sign(pc, sha256, messageString, 100, 300, r, 255), sha256, messageString, New(pc, 100, 255),
                             UpdatedCommitment(BasePoint, SetupCommitmentAsWritten(pc, 255, 300, r), 100))
  {
    var h: int := PMul(pc.blinding, r);
    DistinctResidues(U64Max + 1 + 55 + h, 55 + h);
    var c := UpdatedCommitment(BasePoint, SetupCommitmentAsWritten(pc, 255, 300, r), 100);
    var e := Commit(pc, 55, r);
    AsWrittenValue(pc, r);
    CommitValue(pc, 55, r);
    assert c != e;
    SignVerify(pc, sha256, messageString, 100, 300, r, 255, messageString, c);
  }

  /** Integers 2^64 apart are distinct modulo L. */
  lemma DistinctResidues(a: int, b: int)
    requires a - b == U64Max + 1
    ensures a % L != b % L
  {
    ModSub(a, b, L);
    ModOfSmall(U64Max + 1, L);
  }

  /** The wrapped commitment of that example, shifted by min_bal, as an
      integer expression: it commits to 2^64 + 55. */
  lemma AsWrittenValue(pc: PedersenGens, r: Scalar)
    ensures UpdatedCommitment(BasePoint, SetupCommitmentAsWritten(pc, 255, 300, r), 100) == (U64Max + 1 + 55 + PMul(pc.blinding, r)) % L
  {
    var h: int := PMul(pc.blinding, r);
    var wrapped := WrappingSub(255, 300);
    assert wrapped == U64Max + 1 - 45;
    ModOfSmall(wrapped, L);
    BaseMul(wrapped);
    ModOfSmall(100, L);
    BaseMul(100);
    calc {
      UpdatedCommitment(BasePoint, SetupCommitmentAsWritten(pc, 255, 300, r), 100);
      ((wrapped + h) % L + 100) % L;
      { ModAddLeft(wrapped + h, 100, L); }
      (wrapped + h + 100) % L;
      { assert wrapped + h + 100 == U64Max + 1 + 55 + h; }
      (U64Max + 1 + 55 + h) % L;
    }
  }

  // ---------------------------------------------------------------------
  // Messages and their checks

  /** A message of a round with its signature, as `round_2` and `round_3`
      build them. */
  function SignedMessage(crypto: Crypto, idx: nat, roundIdx: nat, payload: Point, nonces: Nonces,
                         minBal: U64, balance: U64, blinding: Scalar, upperbound: U64): (CompMessage, CompSignature)
    requires minBal <= balance <= upperbound + minBal && UpperboundLog(upperbound).Ok?
  {
    var message := CompMessage(idx, roundIdx, payload, nonces);
    (message, Sign(crypto.pc, crypto.sha256, CompMessageString(message), minBal, balance, blinding, upperbound))
  }

  /** The three checks `round_recieve` runs on one other party's message,
      in order: round number, nonces, signature. */
  function MessageCheck(ownNonces: Nonces, minBal: U64, g: Point, crypto: Crypto, upperbound: U64,
                        commitment: Point, received: (CompMessage, CompSignature), roundIdx: nat): Option<string>
    requires UpperboundLog(upperbound).Ok?
  {
    var message := received.0;
    if message.roundIdx != roundIdx then Some(RoundError(message.roundIdx))
    else if NoncesString(message.nonces) != NoncesString(ownNonces) then Some(NoncesError)
    else if !VerifySignature(received.1, crypto.sha256, CompMessageString(message), New(crypto.pc, minBal, upperbound),
                             UpdatedCommitment(g, commitment, minBal)) then Some(SignatureError)
    else None
  }

  /** One check per message; the receiver's own message is skipped. */
  function ReceiveChecks(idx: nat, ownNonces: Nonces, minBal: U64, commitments: seq<Point>, g: Point, crypto: Crypto,
                         prev: seq<(CompMessage, CompSignature)>, roundIdx: nat, upperbound: U64): (checks: seq<Option<string>>)
    requires |commitments| == |prev| && UpperboundLog(upperbound).Ok?
    ensures |checks| == |prev|
  {
    seq(|prev|, i requires 0 <= i < |prev| =>
      if i == idx then None else MessageCheck(ownNonces, minBal, g, crypto, upperbound, commitments[i], prev[i], roundIdx))
  }

  /** What `round_recieve` returns: the length error, or the first failed
      check in index order. */
  function ReceiveResult(idx: nat, ownNonces: Nonces, minBal: U64, commitments: seq<Point>, g: Point, crypto: Crypto,
                         prev: seq<(CompMessage, CompSignature)>, roundIdx: nat, upperbound: U64): Result<()>
    requires UpperboundLog(upperbound).Ok?
  {
    if |commitments| != |prev| then Err(LengthMismatch(|prev|, |commitments|))
    else FirstError(ReceiveChecks(idx, ownNonces, minBal, commitments, g, crypto, prev, roundIdx, upperbound))
  }

  /** A receiver that accepts has seen, from every other party, a message
      of the expected round, carrying its own nonces (the same nonces when
      the indices agree), whose signature verifies against that party's
      shifted commitment. */
  lemma ReceiveAccepts(idx: nat, ownNonces: Nonces, minBal: U64, commitments: seq<Point>, g: Point, crypto: Crypto,
                       prev: seq<(CompMessage, CompSignature)>, roundIdx: nat, upperbound: U64, i: nat)
    requires UpperboundLog(upperbound).Ok?
    requires ReceiveResult(idx, ownNonces, minBal, commitments, g, crypto, prev, roundIdx, upperbound).Ok?
    requires i < |prev| && i != idx
    ensures |commitments| == |prev|
    ensures prev[i].0.roundIdx == roundIdx
    ensures NoncesString(prev[i].0.nonces) == NoncesString(ownNonces)
    ensures prev[i].0.nonces.idxs == ownNonces.idxs ==> prev[i].0.nonces == ownNonces
    ensures VerifySignature(prev[i].1, crypto.sha256, CompMessageString(prev[i].0), New(crypto.pc, minBal, upperbound),
                            UpdatedCommitment(g, commitments[i], minBal))
  {
    var checks := ReceiveChecks(idx, ownNonces, minBal, commitments, g, crypto, prev, roundIdx, upperbound);
    assert checks[i].None?;
    if prev[i].0.nonces.idxs == ownNonces.idxs {
      NoncesStringInjective(prev[i].0.nonces, ownNonces);
    }
  }

  // ---------------------------------------------------------------------
  // Honest executions

  function Commitments(pc: PedersenGens, upperbound: U64, balances: seq<U64>, blindings: seq<Scalar>): (cs: seq<Point>)
    requires |blindings| == |balances|
    ensures |cs| == |balances|
    ensures forall i | 0 <= i < |balances| && balances[i] <= upperbound ::
              cs[i] == SetupCommitmentAsWritten(pc, upperbound, balances[i], blindings[i])
  {
    SetupCommitmentsAgree(pc, upperbound, balances, blindings);
    seq(|balances|, i requires 0 <= i < |balances| => SetupCommitment(pc, upperbound, balances[i], blindings[i]))
  }

  predicate Admissible(minBal: U64, balances: seq<U64>, upperbound: U64) {
    UpperboundLog(upperbound).Ok? && BalancesInRange(minBal, balances, upperbound)
  }

  /** The messages of one round when party i sends payloads[i]. */
  function HonestRound(crypto: Crypto, minBal: U64, balances: seq<U64>, blindings: seq<Scalar>, upperbound: U64,
                       nonces: Nonces, roundIdx: nat, payloads: seq<Point>): (out: seq<(CompMessage, CompSignature)>)
    requires |balances| == |blindings| == |payloads| && Admissible(minBal, balances, upperbound)
    ensures |out| == |payloads|
  {
    seq(|payloads|, i requires 0 <= i < |payloads| =>
      SignedMessage(crypto, i, roundIdx, payloads[i], nonces, minBal, balances[i], blindings[i], upperbound))
  }

  /** Completeness of the compiler: every party accepts a round of honest
      messages built from the shared nonces. */
  lemma HonestRoundAccepted(crypto: Crypto, minBal: U64, balances: seq<U64>, blindings: seq<Scalar>, upperbound: U64,
                            nonces: Nonces, roundIdx: nat, payloads: seq<Point>, idx: nat)
    requires |balances| == |blindings| == |payloads| && Admissible(minBal, balances, upperbound)
    ensures ReceiveResult(idx, nonces, minBal, Commitments(crypto.pc, upperbound, balances, blindings), BasePoint, crypto,
                          HonestRound(crypto, minBal, balances, blindings, upperbound, nonces, roundIdx, payloads), roundIdx, upperbound) == Ok(())
  {
    var commitments := Commitments(crypto.pc, upperbound, balances, blindings);
    var prev := HonestRound(crypto, minBal, balances, blindings, upperbound, nonces, roundIdx, payloads);
    var checks := ReceiveChecks(idx, nonces, minBal, commitments, BasePoint, crypto, prev, roundIdx, upperbound);
    forall i | 0 <= i < |checks|
      ensures checks[i].None?
    {
      if i != idx {
        var s := CompMessageString(prev[i].0);
        SetupCommitmentOpens(crypto.pc, minBal, upperbound, balances[i], blindings[i]);
        SignVerify(crypto.pc, crypto.sha256, s, minBal, balances[i], blindings[i], upperbound, s,
                   UpdatedCommitment(BasePoint, commitments[i], minBal));
      }
    }
  }

  // ---------------------------------------------------------------------
  // Parties

  /** A party: public index, minimum balance and commitments; secret
      balance and blinding; the nonces and the Burmester–Desmedt secret
      once the protocol has produced them. */
  class Party {
    const idx: nat
    const minBal: U64
    const commitments: seq<Point>
    const balance: U64
    const blinding: Scalar
    var nonces: Option<Nonces>
    var bd: Option<Scalar>

    constructor (idx: nat, commitments: seq<Point>, minBal: U64, balance: U64, blinding: Scalar)
      ensures this.idx == idx && this.commitments == commitments && this.minBal == minBal
      ensures this.balance == balance && this.blinding == blinding
      ensures nonces == None && bd == None
    {
      this.idx := idx;
      this.commitments := commitments;
      this.minBal := minBal;
      this.balance := balance;
      this.blinding := blinding;
      nonces := None;
      bd := None;
    }

    /** `round_1`: publish the party's index with a fresh nonce. */
    method Round1(nonce: Scalar) returns (out: (nat, Scalar))
      ensures out == (idx, nonce)
    {
      out := (idx, nonce);
    }

    /** `round1_recieve`: keep everybody's nonces. */
    method Round1Receive(round1Outputs: seq<(nat, Scalar)>)
      modifies this
      ensures nonces == Some(Unzip(round1Outputs)) && bd == old(bd)
    {
      nonces := Some(Unzip(round1Outputs));
    }

    /** `round_2`: draw r, send z = g·r with the nonces, signed. */
    method Round2(g: Point, crypto: Crypto, r: Scalar, upperbound: U64) returns (message: CompMessage, signature: CompSignature)
      requires nonces.Some? && minBal <= balance <= upperbound + minBal && UpperboundLog(upperbound).Ok?
      modifies this
      ensures bd == Some(r) && nonces == old(nonces)
      ensures (message, signature) == SignedMessage(crypto, idx, 2, PMul(g, r), nonces.value, minBal, balance, blinding, upperbound)
    {
      bd := Some(r);
      var z := PMul(g, r);
      message := CompMessage(idx, 2, z, nonces.value);
      signature := Sign(crypto.pc, crypto.sha256, CompMessageString(message), minBal, balance, blinding, upperbound);
    }

    /** `round_3`: send x = (z_{i+1} - z_{i-1})·r with the nonces, signed. */
    method Round3(zList: seq<Point>, crypto: Crypto, upperbound: U64) returns (message: CompMessage, signature: CompSignature)
      requires nonces.Some? && bd.Some? && 2 <= |zList| && idx < |zList|
      requires minBal <= balance <= upperbound + minBal && UpperboundLog(upperbound).Ok?
      ensures (message, signature)
          == SignedMessage(crypto, idx, 3, BD.Round2Payload(idx, bd.value, zList), nonces.value, minBal, balance, blinding, upperbound)
    {
      var (z1, z2) := GetAdjacentElements(zList, idx);
      var x := PMul(PSub(z2, z1), bd.value);
      message := CompMessage(idx, 3, x, nonces.value);
      signature := Sign(crypto.pc, crypto.sha256, CompMessageString(message), minBal, balance, blinding, upperbound);
    }

    /** `round_recieve`: check every other party's message of the previous
      round, stopping at the first failure. */
    method RoundReceive(g: Point, crypto: Crypto, prevRoundRes: seq<(CompMessage, CompSignature)>, roundIdx: nat, upperbound: U64)
      returns (res: Result<()>)
      requires nonces.Some? && UpperboundLog(upperbound).Ok?
      ensures res == ReceiveResult(idx, nonces.value, minBal, commitments, g, crypto, prevRoundRes, roundIdx, upperbound)
    {
      if |commitments| != |prevRoundRes| {
        return Err(LengthMismatch(|prevRoundRes|, |commitments|));
      }
      ghost var checks := ReceiveChecks(idx, nonces.value, minBal, commitments, g, crypto, prevRoundRes, roundIdx, upperbound);
      assert ReceiveResult(idx, nonces.value, minBal, commitments, g, crypto, prevRoundRes, roundIdx, upperbound) == FirstError(checks);
      var i := 0;
      while i < |prevRoundRes|
        invariant 0 <= i <= |prevRoundRes|
        invariant forall j | 0 <= j < i :: checks[j].None?
      {
        if i == idx {
          PassedThrough(checks, i);
          i := i + 1;
          continue;
        }
        var currMessage := prevRoundRes[i].0;
        if currMessage.roundIdx != roundIdx {
          assert checks[i] == Some(RoundError(currMessage.roundIdx));
          FirstErrorAt(checks, i);
          return Err(RoundError(currMessage.roundIdx));
        }
        var received := NoncesToString(currMessage.nonces);
        var own := NoncesToString(nonces.value);
        if received != own {
          assert checks[i] == Some(NoncesError);
          FirstErrorAt(checks, i);
          return Err(NoncesError);
        }
        var rangeProofStruct := New(crypto.pc, minBal, upperbound);
        var updatedBalComm := PAdd(commitments[i], PMul(g, SFrom(minBal)));
        var verificationStatus := VerifySignature(prevRoundRes[i].1, crypto.sha256, CompMessageString(currMessage), rangeProofStruct, updatedBalComm);
        if !verificationStatus {
          assert checks[i] == Some(SignatureError);
          FirstErrorAt(checks, i);
          return Err(SignatureError);
        }
        PassedThrough(checks, i);
        i := i + 1;
      }
      assert FirstError(checks).Ok?;
      return Ok(());
    }

    /** `compute_key`. */
    method ComputeKey(zList: seq<Point>, xList: seq<Point>) returns (key: Point)
      requires bd.Some? && 1 <= |xList| && FindPrevIdx(idx, |xList|) < |zList|
      ensures key == BD.Key(idx, bd.value, zList, xList)
    {
      key := BD.AccumulateKey(idx, bd.value, zList, xList);
    }
  }

  /** A party as `setup_parties` creates it. */
  predicate SetUp(p: Party, i: nat, commitments: seq<Point>, minBal: U64, balance: U64, blinding: Scalar)
    reads p
  {
    p.idx == i && p.commitments == commitments && p.minBal == minBal && p.balance == balance && p.blinding == blinding
    && p.nonces == None && p.bd == None
  }

  /** `setup_parties`: validate the inputs in order, commit to every
      balance with its blinding draw, and create the parties. */
  method SetupParties(crypto: Crypto, partyAmount: nat, minBal: U64, balances: seq<U64>, upperbound: U64, blindingDraws: seq<Scalar>)
    returns (res: Result<seq<Party>>)
    requires |blindingDraws| == partyAmount
    ensures SetupError(partyAmount, minBal, balances, upperbound).Some? ==> res == Err(SetupError(partyAmount, minBal, balances, upperbound).value)
    ensures SetupError(partyAmount, minBal, balances, upperbound).None? ==>
      res.Ok? && |res.value| == partyAmount
      && (forall j | 0 <= j < partyAmount :: fresh(res.value[j])
            && SetUp(res.value[j], j, Commitments(crypto.pc, upperbound, balances, blindingDraws), minBal, balances[j], blindingDraws[j]))
      && (forall a, b | 0 <= a < b < partyAmount :: res.value[a] != res.value[b])
  {
    ValidUpperboundIff(upperbound);
    if |balances| != partyAmount {
      return Err(LengthError);
    }
    if !ValidUpperbound(upperbound) {
      return Err(UpperboundError(upperbound));
    }
    var commitments: seq<Point> := [];
    var blindings: seq<Scalar> := [];
    var i := 0;
    while i < partyAmount
      invariant 0 <= i <= partyAmount
      invariant forall j | 0 <= j < i :: minBal <= balances[j]
      invariant blindings == blindingDraws[..i]
      invariant commitments == Commitments(crypto.pc, upperbound, balances[..i], blindingDraws[..i])
    {
      if balances[i] < minBal {
        return Err(BalanceError);
      }
      var r := blindingDraws[i];
      blindings := blindings + [r];
      var commitment := SetupCommitment(crypto.pc, upperbound, balances[i], r);
      commitments := commitments + [commitment];
      i := i + 1;
    }
    assert balances[..i] == balances && blindingDraws[..i] == blindingDraws;

    var parties: seq<Party> := [];
    i := 0;
    while i < partyAmount
      invariant 0 <= i <= partyAmount && |parties| == i
      invariant forall j | 0 <= j < i :: fresh(parties[j]) && SetUp(parties[j], j, commitments, minBal, balances[j], blindings[j])
      invariant forall a, b | 0 <= a < b < i :: parties[a] != parties[b]
    {
      var p := new Party(i, commitments, minBal, balances[i], blindings[i]);
      parties := parties + [p];
      i := i + 1;
    }
    return Ok(parties);
  }

  // ---------------------------------------------------------------------
  // The protocol run

  /** The values `setup_parties` gave the parties: party j has index j,
      everybody's commitments, min_bal, balance j and blinding j. */
  predicate Configured(parties: seq<Party>, commitments: seq<Point>, minBal: U64, balances: seq<U64>, blindings: seq<Scalar>)
  {
    |parties| == |balances| == |blindings|
    && (forall j | 0 <= j < |parties| ::
          parties[j].idx == j && parties[j].commitments == commitments && parties[j].minBal == minBal
          && parties[j].balance == balances[j] && parties[j].blinding == blindings[j])
    && (forall a, b | 0 <= a < b < |parties| :: parties[a] != parties[b])
  }

  /** Round 1 of every party, in index order. */
  method Round1All(parties: seq<Party>, nonceDraws: seq<Scalar>) returns (round1Outputs: seq<(nat, Scalar)>)
    requires |parties| == |nonceDraws| && forall j | 0 <= j < |parties| :: parties[j].idx == j
    ensures round1Outputs == Round1Outputs(nonceDraws)
  {
    round1Outputs := [];
    var i := 0;
    while i < |parties|
      invariant 0 <= i <= |parties|
      invariant round1Outputs == Round1Outputs(nonceDraws)[..i]
    {
      var out := parties[i].Round1(nonceDraws[i]);
      round1Outputs := round1Outputs + [out];
      i := i + 1;
    }
  }

  /** Every party receives the round-1 outputs. */
  method Round1ReceiveAll(parties: seq<Party>, round1Outputs: seq<(nat, Scalar)>)
    requires forall a, b | 0 <= a < b < |parties| :: parties[a] != parties[b]
    modifies set j | 0 <= j < |parties| :: parties[j]
    ensures forall j | 0 <= j < |parties| :: parties[j].nonces == Some(Unzip(round1Outputs)) && parties[j].bd == old(parties[j].bd)
  {
    var i := 0;
    while i < |parties|
      invariant 0 <= i <= |parties|
      invariant forall j | 0 <= j < i :: parties[j].nonces == Some(Unzip(round1Outputs))
      invariant forall j | 0 <= j < |parties| :: parties[j].bd == old(parties[j].bd)
    {
      parties[i].Round1Receive(round1Outputs);
      i := i + 1;
    }
  }

  /** Round 2 of party i: its message extends the honest round-2 messages
      of parties 0..i-1. */
  method Round2Of(parties: seq<Party>, i: nat, g: Point, crypto: Crypto, bdDraws: seq<Scalar>, upperbound: U64,
                  ghost commitments: seq<Point>, ghost minBal: U64, ghost balances: seq<U64>, ghost blindings: seq<Scalar>, ghost nonces: Nonces, ghost sent: seq<(CompMessage, CompSignature)>)
    returns (message: CompMessage, signature: CompSignature)
    requires Configured(parties, commitments, minBal, balances, blindings) && Admissible(minBal, balances, upperbound)
    requires |bdDraws| == |parties| && i < |parties| && parties[i].nonces == Some(nonces)
    requires sent == HonestRound(crypto, minBal, balances, blindings, upperbound, nonces, 2, BD.Zs(g, bdDraws))[..i]
    modifies parties[i]
    ensures parties[i].nonces == Some(nonces) && parties[i].bd == Some(bdDraws[i])
    ensures message.payload == BD.Zs(g, bdDraws)[i]
    ensures sent + [(message, signature)] == HonestRound(crypto, minBal, balances, blindings, upperbound, nonces, 2, BD.Zs(g, bdDraws))[..i + 1]
  {
    message, signature := parties[i].Round2(g, crypto, bdDraws[i], upperbound);
    PrefixStep(HonestRound(crypto, minBal, balances, blindings, upperbound, nonces, 2, BD.Zs(g, bdDraws)), i);
  }

  /** Round 2 of every party: the z_j = g·r_j and their signed messages. */
  method Round2All(parties: seq<Party>, g: Point, crypto: Crypto, bdDraws: seq<Scalar>, upperbound: U64,
                   ghost commitments: seq<Point>, ghost minBal: U64, ghost balances: seq<U64>, ghost blindings: seq<Scalar>, ghost nonces: Nonces)
    returns (round2Outputs: seq<(CompMessage, CompSignature)>, payloadList: seq<Point>)
    requires Configured(parties, commitments, minBal, balances, blindings) && Admissible(minBal, balances, upperbound)
    requires |bdDraws| == |parties| && forall j | 0 <= j < |parties| :: parties[j].nonces == Some(nonces)
    modifies set j | 0 <= j < |parties| :: parties[j]
    ensures forall j | 0 <= j < |parties| :: parties[j].nonces == Some(nonces) && parties[j].bd == Some(bdDraws[j])
    ensures payloadList == BD.Zs(g, bdDraws)
    ensures round2Outputs == HonestRound(crypto, minBal, balances, blindings, upperbound, nonces, 2, BD.Zs(g, bdDraws))
  {
    ghost var zs := BD.Zs(g, bdDraws);
    ghost var honest := HonestRound(crypto, minBal, balances, blindings, upperbound, nonces, 2, zs);
    round2Outputs := [];
    payloadList := [];
    var i := 0;
    while i < |parties|
      invariant 0 <= i <= |parties|
      invariant forall j | 0 <= j < |parties| :: parties[j].nonces == Some(nonces)
      invariant forall j | 0 <= j < i :: parties[j].bd == Some(bdDraws[j])
      invariant payloadList == zs[..i]
      invariant round2Outputs == honest[..i]
    {
      var message, signature := Round2Of(parties, i, g, crypto, bdDraws, upperbound, commitments, minBal, balances, blindings, nonces,
                                         round2Outputs);
      PrefixStep(zs, i);
      payloadList := payloadList + [message.payload];
      round2Outputs := round2Outputs + [(message, signature)];
      i := i + 1;
    }
    assert zs[..i] == zs && honest[..i] == honest;
  }

  /** Round 3 of party i: its message extends the honest round-3 messages
      of parties 0..i-1. */
  method Round3Of(parties: seq<Party>, i: nat, payloadList: seq<Point>, crypto: Crypto, upperbound: U64,
                  ghost commitments: seq<Point>, ghost minBal: U64, ghost balances: seq<U64>, ghost blindings: seq<Scalar>, ghost nonces: Nonces, ghost g: Point, ghost bdDraws: seq<Scalar>, ghost sent: seq<(CompMessage, CompSignature)>)
    returns (message: CompMessage, signature: CompSignature)
    requires Configured(parties, commitments, minBal, balances, blindings) && Admissible(minBal, balances, upperbound)
    requires |bdDraws| == |parties| >= 2 && i < |parties| && payloadList == BD.Zs(g, bdDraws)
    requires parties[i].nonces == Some(nonces) && parties[i].bd == Some(bdDraws[i])
    requires sent == HonestRound(crypto, minBal, balances, blindings, upperbound, nonces, 3, BD.Xs(g, bdDraws))[..i]
    ensures message.payload == BD.Xs(g, bdDraws)[i]
    ensures sent + [(message, signature)] == HonestRound(crypto, minBal, balances, blindings, upperbound, nonces, 3, BD.Xs(g, bdDraws))[..i + 1]
  {
    message, signature := parties[i].Round3(payloadList, crypto, upperbound);
    PrefixStep(HonestRound(crypto, minBal, balances, blindings, upperbound, nonces, 3, BD.Xs(g, bdDraws)), i);
  }

  /** Round 3 of every party: the x_j and their signed messages. */
  method Round3All(parties: seq<Party>, payloadList: seq<Point>, crypto: Crypto, upperbound: U64,
                   ghost commitments: seq<Point>, ghost minBal: U64, ghost balances: seq<U64>, ghost blindings: seq<Scalar>,
                   ghost nonces: Nonces, ghost g: Point, ghost bdDraws: seq<Scalar>)
    returns (round3Outputs: seq<(CompMessage, CompSignature)>, xList: seq<Point>)
    requires Configured(parties, commitments, minBal, balances, blindings) && Admissible(minBal, balances, upperbound)
    requires |bdDraws| == |parties| >= 2 && payloadList == BD.Zs(g, bdDraws)
    requires forall j | 0 <= j < |parties| :: parties[j].nonces == Some(nonces) && parties[j].bd == Some(bdDraws[j])
    ensures xList == BD.Xs(g, bdDraws)
    ensures round3Outputs == HonestRound(crypto, minBal, balances, blindings, upperbound, nonces, 3, BD.Xs(g, bdDraws))
  {
    ghost var xs := BD.Xs(g, bdDraws);
    ghost var honest := HonestRound(crypto, minBal, balances, blindings, upperbound, nonces, 3, xs);
    round3Outputs := [];
    xList := [];
    var i := 0;
    while i < |parties|
      invariant 0 <= i <= |parties|
      invariant xList == xs[..i]
      invariant round3Outputs == honest[..i]
    {
      var message, signature := Round3Of(parties, i, payloadList, crypto, upperbound, commitments, minBal, balances, blindings, nonces,
                                         g, bdDraws, round3Outputs);
      PrefixStep(xs, i);
      xList := xList + [message.payload];
      round3Outputs := round3Outputs + [(message, signature)];
      i := i + 1;
    }
    assert xs[..i] == xs && honest[..i] == honest;
  }

  /** Every party receives an honest round; none of them returns an
      error. */
  method ReceiveAll(parties: seq<Party>, g: Point, crypto: Crypto, outputs: seq<(CompMessage, CompSignature)>, roundIdx: nat, upperbound: U64,
                    ghost commitments: seq<Point>, ghost minBal: U64, ghost balances: seq<U64>, ghost blindings: seq<Scalar>,
                    ghost nonces: Nonces, ghost payloads: seq<Point>)
    returns (res: Result<()>)
    requires Configured(parties, commitments, minBal, balances, blindings) && Admissible(minBal, balances, upperbound)
    requires g == BasePoint && commitments == Commitments(crypto.pc, upperbound, balances, blindings)
    requires |payloads| == |parties| && outputs == HonestRound(crypto, minBal, balances, blindings, upperbound, nonces, roundIdx, payloads)
    requires forall j | 0 <= j < |parties| :: parties[j].nonces == Some(nonces)
    ensures res == Ok(())
  {
    var i := 0;
    while i < |parties|
      invariant 0 <= i <= |parties|
    {
      HonestRoundAccepted(crypto, minBal, balances, blindings, upperbound, nonces, roundIdx, payloads, i);
      var roundRes := parties[i].RoundReceive(g, crypto, outputs, roundIdx, upperbound);
      if roundRes.Err? {
        assert false;
        return roundRes;
      }
      i := i + 1;
    }
    return Ok(());
  }

  /** Every party computes its key. */
  method ComputeKeys(parties: seq<Party>, zList: seq<Point>, xList: seq<Point>, ghost g: Point, ghost bdDraws: seq<Scalar>)
    returns (keys: seq<Point>)
    requires |bdDraws| == |parties| >= 2 && zList == BD.Zs(g, bdDraws) && xList == BD.Xs(g, bdDraws)
    requires forall j | 0 <= j < |parties| :: parties[j].idx == j && parties[j].bd == Some(bdDraws[j])
    ensures |keys| == |parties|
    ensures forall k | 0 <= k < |keys| :: keys[k] == BD.GroupKey(g, bdDraws)
  {
    keys := [];
    var i := 0;
    while i < |parties|
      invariant 0 <= i <= |parties| && |keys| == i
      invariant forall k | 0 <= k < i :: keys[k] == BD.GroupKey(g, bdDraws)
    {
      BD.KeyAgreement(g, bdDraws, i);
      var key := parties[i].ComputeKey(zList, xList);
      keys := keys + [key];
      i := i + 1;
    }
  }

  /** Rounds 1 to 3 and the key computation of `run_compiler_key_exchange`
      for parties as `setup_parties` left them. */
  method RunRounds(parties: seq<Party>, crypto: Crypto, upperbound: U64, nonceDraws: seq<Scalar>, bdDraws: seq<Scalar>,
                   ghost commitments: seq<Point>, ghost minBal: U64, ghost balances: seq<U64>, ghost blindings: seq<Scalar>)
    returns (keys: seq<Point>)
    requires Configured(parties, commitments, minBal, balances, blindings) && Admissible(minBal, balances, upperbound)
    requires commitments == Commitments(crypto.pc, upperbound, balances, blindings)
    requires |nonceDraws| == |bdDraws| == |parties| != 1
    modifies set j | 0 <= j < |parties| :: parties[j]
    ensures |keys| == |parties|
    ensures forall k | 0 <= k < |keys| :: keys[k] == BD.GroupKey(BasePoint, bdDraws)
  {
    var g := BasePoint;
    var round1Outputs := Round1All(parties, nonceDraws);
    Round1ReceiveAll(parties, round1Outputs);
    ghost var nonces := Unzip(round1Outputs);

    var round2Outputs, payloadList := Round2All(parties, g, crypto, bdDraws, upperbound, commitments, minBal, balances, blindings, nonces);
    var round2Res := ReceiveAll(parties, g, crypto, round2Outputs, 2, upperbound, commitments, minBal, balances, blindings, nonces, payloadList);

    if |parties| == 0 {
      // with no parties the remaining loops do not run
      return [];
    }
    var round3Outputs, xList := Round3All(parties, payloadList, crypto, upperbound, commitments, minBal, balances, blindings, nonces, g, bdDraws);
    var round3Res := ReceiveAll(parties, g, crypto, round3Outputs, 3, upperbound, commitments, minBal, balances, blindings, nonces, xList);

    keys := ComputeKeys(parties, payloadList, xList, g, bdDraws);
  }

  /** `run_compiler_key_exchange` with the random draws as parameters: the
      blindings of the setup, the round-1 nonces and the Burmester–Desmedt
      secrets. An input the setup rejects gives its error; otherwise every
      check of rounds 2 and 3 passes and every party obtains the group key
      B·Σ_j r_j·r_{j+1}. One party is excluded because its round 3 indexes
      out of bounds, and a balance above upperbound + min_bal because
      signing it subtracts below zero. */
  method Run(crypto: Crypto, partyAmount: nat, minBal: U64, balances: seq<U64>, upperbound: U64,
             blindingDraws: seq<Scalar>, nonceDraws: seq<Scalar>, bdDraws: seq<Scalar>) returns (res: Result<seq<Point>>)
    requires |blindingDraws| == |nonceDraws| == |bdDraws| == partyAmount
    requires SetupError(partyAmount, minBal, balances, upperbound).None? ==>
      partyAmount != 1 && forall i | 0 <= i < |balances| :: balances[i] <= upperbound + minBal
    ensures SetupError(partyAmount, minBal, balances, upperbound).Some? ==> res == Err(SetupError(partyAmount, minBal, balances, upperbound).value)
    ensures SetupError(partyAmount, minBal, balances, upperbound).None? ==>
      res.Ok? && |res.value| == partyAmount && forall k | 0 <= k < partyAmount :: res.value[k] == BD.GroupKey(BasePoint, bdDraws)
  {
    var setup := SetupParties(crypto, partyAmount, minBal, balances, upperbound, blindingDraws);
    if setup.Err? {
      return Err(setup.error);
    }
    var parties := setup.value;
    ghost var commitments := Commitments(crypto.pc, upperbound, balances, blindingDraws);
    assert SetupError(partyAmount, minBal, balances, upperbound).None?;
    assert forall j | 0 <= j < partyAmount :: SetUp(parties[j], j, commitments, minBal, balances[j], blindingDraws[j]);
    var keys := RunRounds(parties, crypto, upperbound, nonceDraws, bdDraws, commitments, minBal, balances, blindingDraws);
    return Ok(keys);
  }
}
