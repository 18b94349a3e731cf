/** Burmester–Desmedt group key agreement (src/protocols/burmester_desmedt).
    Every group element is its discrete log, so z_i = g·r_i and the key
    each party computes is an expression in the parties' secrets; the main
    theorem is that all of them equal g·Σ_j r_j·r_{j+1}. The key loop and
    the round-2 payload are shared with the three WAKE protocols. */
module BurmesterDesmedt {
  import opened Common
  import opened Modular
  import opened Groups
  import opened Utility

  // ---------------------------------------------------------------------
  // The protocol's arithmetic

  /** Round-2 payload x_i = (z_{i+1} - z_{i-1})·r_i. */
  function Round2Payload(idx: nat, r: Scalar, zList: seq<Point>): Point
    requires 2 <= |zList| && idx < |zList|
  {
    var (z1, z2) := GetAdjacentElements(zList, idx);
    PMul(PSub(z2, z1), r)
  }

  /** The key after the initial term and the first k summands of the
      accumulation loop: n·r·z_{i-1} + Σ_{t<k} (n-1-t)·x_{(i+t) mod n}. */
  function KeyPrefix(idx: nat, r: Scalar, zList: seq<Point>, xList: seq<Point>, k: nat): Point
    requires 1 <= |xList| && FindPrevIdx(idx, |xList|) < |zList| && k < |xList|
  {
    var n := |xList|;
    if k == 0 then PMul(zList[FindPrevIdx(idx, n)], SMul(r, SFrom(n)))
    else PAdd(KeyPrefix(idx, r, zList, xList, k - 1), PMul(xList[(idx + k - 1) % n], SFrom(n - k)))
  }

  /** `compute_key`: all n - 1 summands added. */
  function Key(idx: nat, r: Scalar, zList: seq<Point>, xList: seq<Point>): Point
    requires 1 <= |xList| && FindPrevIdx(idx, |xList|) < |zList|
  {
    KeyPrefix(idx, r, zList, xList, |xList| - 1)
  }

  /** The key accumulation loop shared by every `compute_key` in the
      system. */
  method AccumulateKey(idx: nat, r: Scalar, zList: seq<Point>, xList: seq<Point>) returns (key: Point)
    requires 1 <= |xList| && FindPrevIdx(idx, |xList|) < |zList|
    ensures key == Key(idx, r, zList, xList)
  {
    var numParties := |xList|;
    var z := zList[FindPrevIdx(idx, numParties)];
    var exponent := SMul(r, SFrom(numParties));
    key := PMul(z, exponent);
    var k := 0;
    while k < numParties - 1
      invariant 0 <= k <= numParties - 1
      invariant key == KeyPrefix(idx, r, zList, xList, k)
    {
      var i := (idx + k) % numParties;
      key := PAdd(key, PMul(xList[i], SFrom(numParties - k - 1)));
      k := k + 1;
    }
  }

  // ---------------------------------------------------------------------
  // Honest executions

  /** Round-1 outputs z_j = g·r_j. */
  function Zs(g: Point, rs: seq<Scalar>): (zs: seq<Point>)
    ensures |zs| == |rs|
  {
    seq(|rs|, j requires 0 <= j < |rs| => PMul(g, rs[j]))
  }

  /** Round-2 outputs of honest parties. */
  function Xs(g: Point, rs: seq<Scalar>): (xs: seq<Point>)
    requires 2 <= |rs|
    ensures |xs| == |rs|
  {
    var zs := Zs(g, rs);
    seq(|rs|, j requires 0 <= j < |rs| => Round2Payload(j, rs[j], zs))
  }

  /** r_j·r_{(j+1) mod n}. */
  function Edge(rs: seq<int>, j: nat): int
    requires j < |rs|
  {
    rs[j] * rs[(j + 1) % |rs|]
  }

  /** Σ_{a <= j < b} Edge(j). */
  function EdgeSum(rs: seq<int>, a: nat, b: nat): int
    requires b <= |rs|
    decreases b
  {
    if b <= a then 0 else EdgeSum(rs, a, b - 1) + Edge(rs, b - 1)
  }

  /** Σ_j r_j·r_{(j+1) mod n}. */
  function CyclicSum(rs: seq<int>): int
  {
    EdgeSum(rs, 0, |rs|)
  }

  /** The key every party should obtain: g·Σ_j r_j·r_{j+1}. */
  function GroupKey(g: Point, rs: seq<Scalar>): Point
  {
    (g * CyclicSum(rs)) % L
  }

  // ---------------------------------------------------------------------
  // The key-agreement theorem

  /** Every party of an honest run of two or more parties computes the
      same key, g·Σ_j r_j·r_{j+1}. */
  lemma KeyAgreement(g: Point, rs: seq<Scalar>, i: nat)
    requires 2 <= |rs| && i < |rs|
    ensures FindPrevIdx(i, |rs|) < |Zs(g, rs)|
    ensures Key(i, rs[i], Zs(g, rs), Xs(g, rs)) == GroupKey(g, rs)
  {
    var n := |rs|;
    var o := FindPrevIdx(i, n);
    var k := n - 1;
    KeyPrefixValue(g, rs, i, k);
    Telescope(rs, o, k);
    RotSumStep(rs, o, k);
    RotationSum(rs, o);
    assert KeyExponent(rs, i, k) == CyclicSum(rs) by {
      assert n - k == 1;
    }
  }

  /** B_t = Edge((o + t) mod n): the edges in the order the key loop
      visits them. */
  function Rot(rs: seq<int>, o: nat, t: nat): int
    requires 1 <= |rs|
  {
    Edge(rs, (o + t) % |rs|)
  }

  /** Σ_{t<k} B_t. */
  function RotSum(rs: seq<int>, o: nat, k: nat): int
    requires 1 <= |rs|
  {
    if k == 0 then 0 else RotSum(rs, o, k - 1) + Rot(rs, o, k - 1)
  }

  /** Σ_{t<k} (n-1-t)·(B_{t+1} - B_t). */
  function Tele(rs: seq<int>, o: nat, k: nat): int
    requires 1 <= |rs|
  {
    if k == 0 then 0
    else Tele(rs, o, k - 1) + (|rs| - k) * (Rot(rs, o, k) - Rot(rs, o, k - 1))
  }

  /** Telescoping: n·B_0 + Σ_{t<k} (n-1-t)(B_{t+1} - B_t)
      == Σ_{t<k} B_t + (n-k)·B_k. */
  lemma {:induction false} Telescope(rs: seq<int>, o: nat, k: nat)
    requires 1 <= |rs|
    ensures |rs| * Rot(rs, o, 0) + Tele(rs, o, k) == RotSum(rs, o, k) + (|rs| - k) * Rot(rs, o, k)
  {
    if k > 0 {
      Telescope(rs, o, k - 1);
      var n := |rs|;
      var b0, b1 := Rot(rs, o, k - 1), Rot(rs, o, k);
      assert (n - (k - 1)) * b0 + (n - k) * (b1 - b0) == b0 + (n - k) * b1 by {
        assert (n - (k - 1)) * b0 == (n - k) * b0 + b0;
        assert (n - k) * (b1 - b0) == (n - k) * b1 - (n - k) * b0;
      }
    }
  }

  lemma RotSumStep(rs: seq<int>, o: nat, k: nat)
    requires 1 <= |rs|
    ensures RotSum(rs, o, k + 1) == RotSum(rs, o, k) + Rot(rs, o, k)
  {
  }

  lemma {:induction false} EdgeSumSplit(rs: seq<int>, a: nat, b: nat)
    requires a <= b <= |rs|
    ensures EdgeSum(rs, 0, b) == EdgeSum(rs, 0, a) + EdgeSum(rs, a, b)
    decreases b
  {
    if a < b {
      EdgeSumSplit(rs, a, b - 1);
    }
  }

  /** While o + t stays below n the rotation does not wrap. */
  lemma {:induction false} RotSumLow(rs: seq<int>, o: nat, k: nat)
    requires 1 <= |rs| && o + k <= |rs|
    ensures RotSum(rs, o, k) == EdgeSum(rs, o, o + k)
  {
    if k > 0 {
      RotSumLow(rs, o, k - 1);
      ModOfSmall(o + k - 1, |rs|);
    }
  }

  /** Past n the rotation continues from index 0. */
  lemma {:induction false} RotSumHigh(rs: seq<int>, o: nat, k: nat)
    requires 1 <= |rs| && o <= |rs| <= o + k <= |rs| + o
    ensures RotSum(rs, o, k) == EdgeSum(rs, o, |rs|) + EdgeSum(rs, 0, o + k - |rs|)
    decreases k
  {
    var n := |rs|;
    if o + k == n {
      RotSumLow(rs, o, k);
    } else {
      RotSumHigh(rs, o, k - 1);
      ModOfWrapped(o + k - 1, n);
    }
  }

  /** Summing the edges from any starting point gives the cyclic sum. */
  lemma RotationSum(rs: seq<int>, o: nat)
    requires 1 <= |rs| && o < |rs|
    ensures RotSum(rs, o, |rs|) == CyclicSum(rs)
  {
    RotSumHigh(rs, o, |rs|);
    EdgeSumSplit(rs, o, |rs|);
  }

  /** ((a mod L) + ((b mod L)·(c mod L)) mod L) mod L == (a + b·c) mod L. */
  lemma ModMulAdd(a: int, b: int, c: int)
    ensures ((a % L) + ((b % L) * (c % L)) % L) % L == (a + b * c) % L
  {
    ModMul(b, c, L);
    ModAdd(a, b * c, L);
    ModOfResidue(b * c, L);
  }

  /** ((g·a mod L - g·b mod L) mod L · c) mod L == g·(c·a - b·c) mod L. */
  lemma PayloadArith(g: int, a: int, b: int, c: int)
    ensures ((((g * a) % L - (g * b) % L) % L) * c) % L == (g * (c * a - b * c)) % L
  {
    ModSub(g * a, g * b, L);
    ModMulLeft(g * a - g * b, c, L);
    assert (g * a - g * b) * c == g * (c * a - b * c);
  }

  /** x_j ≡ g·(Edge(j) - Edge(j - 1)) (mod L) for honest payloads. */
  lemma PayloadValue(g: Point, rs: seq<Scalar>, j: nat)
    requires 2 <= |rs| && j < |rs|
    ensures Xs(g, rs)[j] == (g * (Edge(rs, j) - Edge(rs, (j + |rs| - 1) % |rs|))) % L
  {
    var n := |rs|;
    var pv, nx := (j + n - 1) % n, (j + 1) % n;
    var zs := Zs(g, rs);
    CyclicIndexFacts(j, n);
    CyclicIndexFacts(pv, n);
    assert (pv + 1) % n == j;
    assert Xs(g, rs)[j] == PMul(PSub(zs[nx], zs[pv]), rs[j]);
    PayloadArith(g, rs[nx], rs[pv], rs[j]);
  }

  /** The rotated edge order seen from party i starts at o = i - 1:
      B_{t+1} is the edge of party (i + t) mod n ... */
  lemma RotNext(n: nat, i: nat, t: nat)
    requires 2 <= n && i < n
    ensures (FindPrevIdx(i, n) + t + 1) % n == (i + t) % n
  {
    ModAddLeft(i + n - 1, t + 1, n);
    assert i + n - 1 + t + 1 == i + t + n * 1;
    ModAddMultiple(i + t, 1, n);
  }

  /** ... and B_t is the edge of its predecessor. */
  lemma RotPrev(n: nat, i: nat, t: nat)
    requires 2 <= n && i < n
    ensures (((i + t) % n) + n - 1) % n == (FindPrevIdx(i, n) + t) % n
  {
    ModAddLeft(i + t, n - 1, n);
    ModAddLeft(i + n - 1, t, n);
  }

  /** The initial term z_o·(r_i·n) with z_o = g·r_o. */
  lemma InitialArith(g: int, ro: int, ri: int, n: int)
    ensures ((g * ro) % L * ((ri * (n % L)) % L)) % L == (g * (n * (ro * ri))) % L
  {
    ModMul(ri, n, L);
    ModOfResidue(n, L);
    ModMulLeft(ri, n % L, L);
    ModMul(ri, n % L, L);
    assert (ri * (n % L)) % L == (ri * n) % L;
    ModMul(g * ro, ri * n, L);
    ModOfResidue(g * ro, L);
    ModOfResidue(ri * n, L);
    assert (g * ro) * (ri * n) == g * (n * (ro * ri));
  }

  /** One loop step: adding x·c with x ≡ g·d. */
  lemma StepArith(g: int, s: int, d: int, c: int)
    ensures ((g * s) % L + (((g * d) % L) * (c % L)) % L) % L == (g * (s + c * d)) % L
  {
    ModMulAdd(g * s, g * d, c);
    assert g * s + (g * d) * c == g * (s + c * d);
  }

  /** Σ-free part of the key: n·B_0 plus the telescoped summands. */
  function KeyExponent(rs: seq<Scalar>, i: nat, k: nat): int
    requires 2 <= |rs| && i < |rs|
  {
    var o := FindPrevIdx(i, |rs|);
    |rs| * Rot(rs, o, 0) + Tele(rs, o, k)
  }

  lemma KeyPrefixBase(g: Point, rs: seq<Scalar>, i: nat)
    requires 2 <= |rs| && i < |rs|
    ensures FindPrevIdx(i, |rs|) < |Zs(g, rs)|
    ensures KeyPrefix(i, rs[i], Zs(g, rs), Xs(g, rs), 0) == (g * KeyExponent(rs, i, 0)) % L
  {
    var n := |rs|;
    var o := FindPrevIdx(i, n);
    var zs := Zs(g, rs);
    assert KeyPrefix(i, rs[i], zs, Xs(g, rs), 0) == PMul(zs[o], SMul(rs[i], SFrom(n)));
    assert zs[o] == (g as int * rs[o]) % L;
    InitialArith(g, rs[o], rs[i], n);
    assert KeyExponent(rs, i, 0) == n * Rot(rs, o, 0);
    RotZero(rs, i);
  }

  /** B_0 is the edge between party i - 1 and party i. */
  lemma RotZero(rs: seq<Scalar>, i: nat)
    requires 2 <= |rs| && i < |rs|
    ensures Rot(rs, FindPrevIdx(i, |rs|), 0) == rs[FindPrevIdx(i, |rs|)] as int * rs[i]
  {
    var n := |rs|;
    var o := FindPrevIdx(i, n);
    RotNext(n, i, 0);
    ModOfSmall(o, n);
    assert (o + 0) % n == o && (o + 1) % n == i;
    EdgeOf(rs, o, i);
  }

  /** The edge at j, once its successor index is known. */
  lemma EdgeOf(rs: seq<int>, j: nat, next: nat)
    requires j < |rs| && (j + 1) % |rs| == next
    ensures Edge(rs, j) == rs[j] * rs[next]
  {
  }

  lemma KeyPrefixStep(g: Point, rs: seq<Scalar>, i: nat, k: nat)
    requires 2 <= |rs| && i < |rs| && 0 < k < |rs|
    requires FindPrevIdx(i, |rs|) < |Zs(g, rs)|
    requires KeyPrefix(i, rs[i], Zs(g, rs), Xs(g, rs), k - 1) == (g * KeyExponent(rs, i, k - 1)) % L
    ensures KeyPrefix(i, rs[i], Zs(g, rs), Xs(g, rs), k) == (g * KeyExponent(rs, i, k)) % L
  {
    var n := |rs|;
    var o := FindPrevIdx(i, n);
    var xs := Xs(g, rs);
    var d := Rot(rs, o, k) - Rot(rs, o, k - 1);
    var prev, x := KeyPrefix(i, rs[i], Zs(g, rs), xs, k - 1), xs[(i + k - 1) % n];
    assert KeyPrefix(i, rs[i], Zs(g, rs), xs, k) == PAdd(prev, PMul(x, SFrom(n - k)));
    RotPayload(g, rs, i, k);
    assert KeyExponent(rs, i, k) == KeyExponent(rs, i, k - 1) + (n - k) * d;
    StepCombine(g, prev, x, n - k, KeyExponent(rs, i, k - 1), d, KeyExponent(rs, i, k));
  }

  /** Adding x·c to g·e with x = g·d gives g·(e + c·d). */
  lemma StepCombine(g: Point, prev: Point, x: Point, c: nat, e: int, d: int, e': int)
    requires prev == (g * e) % L && x == (g * d) % L && e' == e + c * d
    ensures PAdd(prev, PMul(x, SFrom(c))) == (g * e') % L
  {
    StepArith(g, e, d, c);
  }

  /** The payload added at step k is g·(B_k - B_{k-1}). */
  lemma RotPayload(g: Point, rs: seq<Scalar>, i: nat, k: nat)
    requires 2 <= |rs| && i < |rs| && 0 < k < |rs|
    ensures var o := FindPrevIdx(i, |rs|);
      Xs(g, rs)[(i + k - 1) % |rs|] == (g * (Rot(rs, o, k) - Rot(rs, o, k - 1))) % L
  {
    var n := |rs|;
    PayloadValue(g, rs, (i + k - 1) % n);
    RotNext(n, i, k - 1);
    RotPrev(n, i, k - 1);
  }

  /** The loop's partial key, as an integer expression reduced mod L. */
  lemma {:induction false} KeyPrefixValue(g: Point, rs: seq<Scalar>, i: nat, k: nat)
    requires 2 <= |rs| && i < |rs| && k < |rs|
    ensures FindPrevIdx(i, |rs|) < |Zs(g, rs)|
    ensures KeyPrefix(i, rs[i], Zs(g, rs), Xs(g, rs), k) == (g * KeyExponent(rs, i, k)) % L
  {
    if k == 0 {
      KeyPrefixBase(g, rs, i);
    } else {
      KeyPrefixValue(g, rs, i, k - 1);
      KeyPrefixStep(g, rs, i, k);
    }
  }

  // ---------------------------------------------------------------------
  // key_exchange.rs

  /** A party of the plain Burmester–Desmedt exchange. */
  class Party {
    const idx: nat
    const alpha: Point
    var r: Option<Scalar>
    var z: Option<Point>

    constructor (idx: nat, alpha: Point)
      ensures this.idx == idx && this.alpha == alpha
      ensures r == None && z == None
    {
      this.idx := idx;
      this.alpha := alpha;
      r := None;
      z := None;
    }

    /** `round1`: draw r, publish z = alpha·r. */
    method Round1(draw: Scalar) returns (out: Point)
      modifies this
      ensures r == Some(draw) && z == Some(PMul(alpha, draw))
      ensures out == PMul(alpha, draw)
    {
      r := Some(draw);
      z := Some(PMul(alpha, r.value));
      out := z.value;
    }

    /** `round2`: (z_{i+1} - z_{i-1})·r. */
    method Round2(zList: seq<Point>) returns (x: Point)
      requires r.Some? && 2 <= |zList| && idx < |zList|
      ensures x == Round2Payload(idx, r.value, zList)
    {
      var (z1, z2) := GetAdjacentElements(zList, idx);
      x := PMul(PSub(z2, z1), r.value);
    }

    /** `compute_key`. */
    method ComputeKey(zList: seq<Point>, xList: seq<Point>) returns (key: Point)
      requires r.Some? && 1 <= |xList| && FindPrevIdx(idx, |xList|) < |zList|
      ensures key == Key(idx, r.value, zList, xList)
    {
      key := AccumulateKey(idx, r.value, zList, xList);
    }
  }

  /** `key_exchange`: run the two rounds for `partyAmount` parties with
      the given secret draws and return every party's key. A lone party is
      excluded: its round 2 indexes out of bounds. */
  method KeyExchange(partyAmount: nat, draws: seq<Scalar>) returns (keys: seq<Point>)
    requires |draws| == partyAmount && partyAmount != 1
    ensures |keys| == partyAmount
    ensures forall k | 0 <= k < |keys| :: keys[k] == GroupKey(BasePoint, draws)
  {
    var alpha := BasePoint;
    var parties: seq<Party> := [];
    var i := 0;
    while i < partyAmount
      invariant 0 <= i <= partyAmount && |parties| == i
      invariant forall j | 0 <= j < i :: fresh(parties[j]) && parties[j].idx == j && parties[j].alpha == alpha
      invariant forall a, b | 0 <= a < b < i :: parties[a] != parties[b]
    {
      var p := new Party(i, alpha);
      parties := parties + [p];
      i := i + 1;
    }

    var round1Results: seq<Point> := [];
    i := 0;
    while i < partyAmount
      invariant 0 <= i <= partyAmount && |round1Results| == i
      invariant forall j | 0 <= j < i :: parties[j].r == Some(draws[j])
      invariant round1Results == Zs(alpha, draws)[..i]
    {
      var out := parties[i].Round1(draws[i]);
      PrefixStep(Zs(alpha, draws), i);
      round1Results := round1Results + [out];
      i := i + 1;
    }
    assert round1Results == Zs(alpha, draws);

    if partyAmount == 0 {
      keys := [];
      return;
    }
    var xs := Xs(alpha, draws);
    var round2Results: seq<Point> := [];
    i := 0;
    while i < partyAmount
      invariant 0 <= i <= partyAmount && |round2Results| == i
      invariant forall j | 0 <= j < partyAmount :: parties[j].r == Some(draws[j])
      invariant round2Results == xs[..i]
    {
      var out := parties[i].Round2(round1Results);
      assert out == xs[i];
      PrefixStep(xs, i);
      round2Results := round2Results + [out];
      i := i + 1;
    }
    assert round2Results == xs;

    keys := [];
    i := 0;
    while i < partyAmount
      invariant 0 <= i <= partyAmount && |keys| == i
      invariant forall j | 0 <= j < partyAmount :: parties[j].r == Some(draws[j])
      invariant forall k | 0 <= k < i :: keys[k] == GroupKey(BasePoint, draws)
    {
      KeyAgreement(alpha, draws, i);
      var key := parties[i].ComputeKey(round1Results, round2Results);
      keys := keys + [key];
      i := i + 1;
    }
  }
}
