/** What the three WAKE protocols share: the checks `setup_parties` runs on
    its inputs, in order, the values and images the two GM17 variants
    derive from the balances, and the scan of the other parties' messages
    that reports the first failure. */
module WakeCommon {
  import opened Common
  import opened Modular
  import opened Text
  import opened Groups
  import opened Utility
  import opened Gm17

  const LengthError: string := "balances not correct length"
  const BalanceError: string := "one or more balances are smaller than minimum_balance"
  const UpperboundErrorPrefix: string := "upperbound was not among the valid values:"

  /** The message for an invalid upper bound, listing u8::MAX, u16::MAX,
      u32::MAX and u64::MAX and then the value given. */
  function UpperboundError(upperbound: U64): string
  {
    UpperboundErrorPrefix + " 255, 65535, 4294967295, 18446744073709551615\n was: " + Decimal(upperbound)
  }

  /** The upper-bound test of `setup_parties`. */
  predicate ValidUpperbound(upperbound: U64) {
    upperbound == 0xFF || upperbound == 0xFFFF || upperbound == 0xFFFF_FFFF || upperbound == U64Max
  }

  /** The setup accepts exactly the upper bounds `upperbound_log` accepts,
      so every later `unwrap` of the bit size succeeds. */
  lemma ValidUpperboundIff(upperbound: U64)
    ensures ValidUpperbound(upperbound) <==> UpperboundLog(upperbound).Ok?
  {
  }

  predicate AllAtLeast(balances: seq<U64>, minBal: U64) {
    forall i | 0 <= i < |balances| :: minBal <= balances[i]
  }

  /** The error `setup_parties` returns, if any: the length check, then the
      upper bound, then the balances. */
  function SetupError(partyAmount: nat, minBal: U64, balances: seq<U64>, upperbound: U64): (r: Option<string>)
    ensures r.None? <==> |balances| == partyAmount && UpperboundLog(upperbound).Ok? && AllAtLeast(balances, minBal)
    ensures |balances| != partyAmount ==> r == Some(LengthError)
    ensures |balances| == partyAmount && UpperboundLog(upperbound).Err? ==>
      r.Some? && StartsWith(r.value, UpperboundErrorPrefix)
    ensures |balances| == partyAmount && UpperboundLog(upperbound).Ok? && !AllAtLeast(balances, minBal) ==>
      r == Some(BalanceError)
  {
    ValidUpperboundIff(upperbound);
    if |balances| != partyAmount then Some(LengthError)
    else if !ValidUpperbound(upperbound) then Some(UpperboundError(upperbound))
    else if !AllAtLeast(balances, minBal) then Some(BalanceError)
    else None
  }

  // ---------------------------------------------------------------------
  // The signed values and public images of the GM17 variants

  /** The value a signer proves, `Fr::from(upperbound - (balance - min_bal))`:
      the u64 difference, which the field holds without reduction. */
  function SignedValue(minBal: U64, balance: U64, upperbound: U64): (v: Fr)
    requires minBal <= balance <= upperbound + minBal
    ensures v as int == upperbound - (balance - minBal)
    ensures balance == minBal ==> v == upperbound
  {
    ModOfSmall(upperbound - (balance - minBal), P);
    FFrom(upperbound - (balance - minBal))
  }

  predicate BalancesInRange(minBal: U64, balances: seq<U64>, upperbound: U64) {
    forall i | 0 <= i < |balances| :: minBal <= balances[i] <= upperbound + minBal
  }

  /** The public images `setup_parties` computes: the MiMC hash of each
      party's signed value under its blinding. */
  function Images(gm17: Gm17Darkpool, upperbound: U64, minBal: U64, balances: seq<U64>, blindings: seq<Fr>): (images: seq<Fr>)
    requires |blindings| == |balances| && BalancesInRange(minBal, balances, upperbound)
    ensures |images| == |balances|
  {
    seq(|balances|, i requires 0 <= i < |balances| =>
      MiMC(SignedValue(minBal, balances[i], upperbound), blindings[i], gm17.mimcConstants))
  }

  /** The keys and the circuit fit the protocol: every party's proving key
      was generated for this circuit and matches its verifying key, and the
      circuit's bit size covers the upper bound. */
  predicate KeysFit(gm17: Gm17Darkpool, upperbound: U64, pkList: seq<ProvingKey>, pvkList: seq<VerifyingKey>, n: nat) {
    upperbound < Pow2(gm17.upperbound) && n <= |pkList| && n <= |pvkList|
    && forall i | 0 <= i < n :: KeyFor(gm17, pkList[i]) && KeysMatch(pkList[i], pvkList[i])
  }

  /** The u64 subtraction `upperbound - (balance - min_bal)` of the setup
      loop does not underflow for any balance it reaches: once the length
      and upper bound are accepted, every balance that follows only
      balances of at least min_bal is at most upperbound + min_bal. */
  predicate SetupSubtractionsFit(partyAmount: nat, minBal: U64, balances: seq<U64>, upperbound: U64) {
    |balances| == partyAmount && ValidUpperbound(upperbound) ==>
      forall i | 0 <= i < |balances| :: (forall j | 0 <= j <= i :: minBal <= balances[j]) ==> balances[i] <= upperbound + minBal
  }

  // ---------------------------------------------------------------------
  // Receiving

  /** The errors of a receiver's scan of the previous round. */
  function LengthMismatch(expected: nat, found: nat): string
  {
    "Invalid length expected: " + Decimal(expected) + ", found " + Decimal(found)
  }

  function RoundError(roundIdx: nat): string
  {
    "Incorrect round number " + Decimal(roundIdx)
  }

  const NoncesError: string := "Invalid nonces"
  const SignatureError: string := "Verification of signature failed"
  const VkError: string := "Invalid VK was send"

  /** The first failure among per-message checks, in index order
      (`None` is a check that passed). */
  function FirstError(checks: seq<Option<string>>): (r: Result<()>)
    ensures r.Ok? <==> forall i | 0 <= i < |checks| :: checks[i].None?
    ensures r.Ok? ==> r == Ok(())
    ensures r.Err? ==> exists i | 0 <= i < |checks| :: checks[i] == Some(r.error) && forall j | 0 <= j < i :: checks[j].None?
  {
    if |checks| == 0 then Ok(())
    else if checks[0].Some? then Err(checks[0].value)
    else
      FirstErrorShift(checks);
      FirstError(checks[1..])
  }

  lemma FirstErrorShift(checks: seq<Option<string>>)
    requires |checks| > 0 && checks[0].None?
    ensures forall e: string ::
      (exists i | 0 <= i < |checks| - 1 :: checks[1..][i] == Some(e) && forall j | 0 <= j < i :: checks[1..][j].None?) ==>
      (exists i | 0 <= i < |checks| :: checks[i] == Some(e) && forall j | 0 <= j < i :: checks[j].None?)
  {
    forall e: string | exists i | 0 <= i < |checks| - 1 :: checks[1..][i] == Some(e) && forall j | 0 <= j < i :: checks[1..][j].None?
      ensures exists i | 0 <= i < |checks| :: checks[i] == Some(e) && forall j | 0 <= j < i :: checks[j].None?
    {
      var k :| 0 <= k < |checks| - 1 && checks[1..][k] == Some(e) && forall j | 0 <= j < k :: checks[1..][j].None?;
      assert checks[k + 1] == Some(e);
      assert forall j | 0 <= j < k + 1 :: checks[j].None? by {
        forall j | 0 <= j < k + 1
          ensures checks[j].None?
        {
          if j > 0 {
            assert checks[j] == checks[1..][j - 1];
          }
        }
      }
    }
  }

  /** A scan whose only possible failure is a rejected signature reports
      that failure or nothing. */
  lemma OnlySignatureFails(checks: seq<Option<string>>)
    requires forall i | 0 <= i < |checks| :: checks[i].None? || checks[i] == Some(SignatureError)
    ensures FirstError(checks) == Ok(()) || FirstError(checks) == Err(SignatureError)
  {
  }

  /** A scan that has passed checks 0..i-1 and passes check i has passed
      checks 0..i. */
  lemma PassedThrough(checks: seq<Option<string>>, i: nat)
    requires i < |checks| && checks[i].None?
    requires forall j | 0 <= j < i :: checks[j].None?
    ensures forall j | 0 <= j < i + 1 :: checks[j].None?
  {
  }

  /** When every check before i passed and check i failed, the scan reports
      check i's message. */
  lemma {:induction false} FirstErrorAt(checks: seq<Option<string>>, i: nat)
    requires i < |checks| && checks[i].Some?
    requires forall j | 0 <= j < i :: checks[j].None?
    ensures FirstError(checks) == Err(checks[i].value)
  {
    if i > 0 {
      FirstErrorAt(checks[1..], i - 1);
    }
  }
}
