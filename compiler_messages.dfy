/** The messages of the two compiler WAKE protocols (Bulletproofs and GM17
    variants, which define them identically): the round-1 nonce record and
    the signed round message, with their string renderings. */
module CompilerMessages {
  import opened Common
  import opened Groups
  import opened Text
  import opened Utility

  datatype NonceList = NonceList(idxs: seq<nat>, scalars: seq<Scalar>)

  /** `Nonces`: the round-1 indices and nonces, built by unzipping the
      round-1 outputs, so both lists have the same length. */
  type Nonces = n: NonceList | |n.idxs| == |n.scalars| witness NonceList([], [])

  /** The unzip of `round1_recieve`: the pairs split into two lists, order
      and pairing kept. */
  function Unzip(outputs: seq<(nat, Scalar)>): (n: Nonces)
    ensures |n.idxs| == |outputs|
    ensures forall i | 0 <= i < |outputs| :: outputs[i] == (n.idxs[i], n.scalars[i])
  {
    NonceList(seq(|outputs|, i requires 0 <= i < |outputs| => outputs[i].0),
              seq(|outputs|, i requires 0 <= i < |outputs| => outputs[i].1))
  }

  /** The round-1 outputs of an honest run: party i publishes (i, nonce i). */
  function Round1Outputs(nonceDraws: seq<Scalar>): (outputs: seq<(nat, Scalar)>)
    ensures |outputs| == |nonceDraws|
  {
    seq(|nonceDraws|, i requires 0 <= i < |nonceDraws| => (i, nonceDraws[i]))
  }

  /** One entry of the rendering: the decimal index, then the nonce in hex. */
  function NonceEntry(idx: nat, nonce: Scalar): string
  {
    Decimal(idx) + ScalarToString(nonce)
  }

  /** The rendering of the first k entries. */
  function NoncesPrefix(n: Nonces, k: nat): string
    requires k <= |n.idxs|
  {
    if k == 0 then "" else NoncesPrefix(n, k - 1) + NonceEntry(n.idxs[k - 1], n.scalars[k - 1])
  }

  function NoncesString(n: Nonces): string
  {
    NoncesPrefix(n, |n.idxs|)
  }

  /** `Nonces::to_string`: append one entry per index. */
  method NoncesToString(n: Nonces) returns (s: string)
    ensures s == NoncesString(n)
  {
    s := "";
    var i := 0;
    while i < |n.idxs|
      invariant 0 <= i <= |n.idxs|
      invariant s == NoncesPrefix(n, i)
    {
      s := s + (Decimal(n.idxs[i]) + ScalarToString(n.scalars[i]));
      i := i + 1;
    }
  }

  lemma {:induction false} NoncesPrefixNoHash(n: Nonces, k: nat)
    requires k <= |n.idxs|
    ensures NoHash(NoncesPrefix(n, k))
  {
    if k > 0 {
      NoncesPrefixNoHash(n, k - 1);
    }
  }

  /** Two nonce records with the same indices render equally only if their
      nonces are equal: comparing renderings compares the nonces. */
  lemma {:induction false} NoncesPrefixInjective(a: Nonces, b: Nonces, k: nat)
    requires a.idxs == b.idxs && k <= |a.idxs|
    requires NoncesPrefix(a, k) == NoncesPrefix(b, k)
    ensures a.scalars[..k] == b.scalars[..k]
  {
    if k > 0 {
      var pa, pb := NoncesPrefix(a, k - 1), NoncesPrefix(b, k - 1);
      var ea, eb := NonceEntry(a.idxs[k - 1], a.scalars[k - 1]), NonceEntry(b.idxs[k - 1], b.scalars[k - 1]);
      AppendCancel(pa, ea, pb, eb);
      NonceEntryInjective(a.idxs[k - 1], a.scalars[k - 1], b.scalars[k - 1]);
      NoncesPrefixInjective(a, b, k - 1);
      PrefixStep(a.scalars, k - 1);
      PrefixStep(b.scalars, k - 1);
    }
  }

  /** Entries for the same index are equal only for equal nonces. */
  lemma NonceEntryInjective(idx: nat, x: Scalar, y: Scalar)
    requires NonceEntry(idx, x) == NonceEntry(idx, y)
    ensures x == y
  {
    var d := Decimal(idx);
    AppendCancel(d, ScalarToString(x), d, ScalarToString(y));
    ScalarToStringInjective(x, y);
  }

  lemma NoncesStringInjective(a: Nonces, b: Nonces)
    requires a.idxs == b.idxs
    requires NoncesString(a) == NoncesString(b)
    ensures a == b
  {
    NoncesPrefixInjective(a, b, |a.idxs|);
    assert a.scalars == a.scalars[..|a.idxs|];
    assert b.scalars == b.scalars[..|b.idxs|];
  }

  /** `CompMessage`: sender index, round index, payload and the sender's
      nonce record. */
  datatype CompMessage = CompMessage(idx: nat, roundIdx: nat, payload: Point, nonces: Nonces)

  /** `CompMessage::to_string`. */
  function CompMessageString(m: CompMessage): string
  {
    Decimal(m.idx) + "##" + Decimal(m.roundIdx) + "##" + PointToString(m.payload) + "##" + NoncesString(m.nonces)
  }

  lemma DecimalNoHash(n: nat)
    ensures NoHash(Decimal(n))
  {
  }

  lemma HexNoHash(s: string)
    requires forall i | 0 <= i < |s| :: IsLowerHex(s[i])
    ensures NoHash(s)
  {
  }

  /** No field contains '#', so the rendering splits on "##" into exactly
      its four fields. */
  lemma CompMessageSplit(m: CompMessage)
    ensures Split(CompMessageString(m)) == [Decimal(m.idx), Decimal(m.roundIdx), PointToString(m.payload), NoncesString(m.nonces)]
  {
    var fields := [Decimal(m.idx), Decimal(m.roundIdx), PointToString(m.payload), NoncesString(m.nonces)];
    DecimalNoHash(m.idx);
    DecimalNoHash(m.roundIdx);
    HexNoHash(PointToString(m.payload));
    NoncesPrefixNoHash(m.nonces, |m.nonces.idxs|);
    assert Join(fields) == CompMessageString(m) by {
      assert Join(fields[3..]) == fields[3];
      assert Join(fields[2..]) == fields[2] + "##" + fields[3];
      assert Join(fields[1..]) == fields[1] + "##" + (fields[2] + "##" + fields[3]);
    }
    SplitJoin(fields);
  }

  /** Equal renderings come from messages with the same sender, round,
      payload and nonce rendering. */
  lemma CompMessageStringInjective(m: CompMessage, n: CompMessage)
    requires CompMessageString(m) == CompMessageString(n)
    ensures m.idx == n.idx && m.roundIdx == n.roundIdx && m.payload == n.payload
    ensures NoncesString(m.nonces) == NoncesString(n.nonces)
  {
    CompMessageSplit(m);
    CompMessageSplit(n);
    DecimalInjective(m.idx, n.idx);
    DecimalInjective(m.roundIdx, n.roundIdx);
    PointToStringInjective(m.payload, n.payload);
  }
}
