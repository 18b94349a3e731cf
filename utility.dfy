/** Helpers shared by every protocol: the upper-bound exponent, cyclic
    neighbours, the fixed-width hex renderings of scalars and compressed
    points, hashing into the two fields, MiMC and the bit decomposition
    used by the GM17 circuit. */
module Utility {
  import opened Common
  import opened Modular
  import opened Groups
  import opened Text

  // ---------------------------------------------------------------------
  // Powers of two and the u64 range

  function Pow2(k: nat): (r: nat)
    ensures r >= 1
  {
    if k == 0 then 1 else 2 * Pow2(k - 1)
  }

  lemma {:induction false} Pow2Add(a: nat, b: nat)
    ensures Pow2(a + b) == Pow2(a) * Pow2(b)
  {
    if a > 0 {
      Pow2Add(a - 1, b);
    }
  }

  lemma Pow2Values()
    ensures Pow2(8) == 0x100
    ensures Pow2(16) == 0x1_0000
    ensures Pow2(32) == 0x1_0000_0000
    ensures Pow2(64) == 0x1_0000_0000_0000_0000
  {
    assert Pow2(4) == 16;
    Pow2Add(4, 4);
    Pow2Add(8, 8);
    Pow2Add(16, 16);
    Pow2Add(32, 32);
  }

  lemma Pow2Monotone(a: nat, b: nat)
    requires a <= b
    ensures Pow2(a) <= Pow2(b)
  {
    Pow2Add(a, b - a);
  }

  const U64Max: nat := 0xFFFF_FFFF_FFFF_FFFF

  /** Rust's `u64` (and `usize` on the 64-bit targets the system runs on). */
  type U64 = x: nat | x <= U64Max

  // ---------------------------------------------------------------------
  // upperbound_log

  const UpperboundLogError: string := "Upperbound should be either 2^8, 2^16, 2^32 or 2^64"

  /** The bit size of a valid upper bound 2^n - 1, tried in the order
      64, 32, 16, 8. */
  function UpperboundLog(upperbound: U64): (r: Result<nat>)
    ensures r.Err? ==> r.error == UpperboundLogError
  {
    if upperbound == U64Max then Ok(64)
    else if upperbound == 0xFFFF_FFFF then Ok(32)
    else if upperbound == 0xFFFF then Ok(16)
    else if upperbound == 0xFF then Ok(8)
    else Err(UpperboundLogError)
  }

  /** The four bit sizes Bulletproofs accepts. */
  predicate ValidBitsize(n: nat) {
    n == 8 || n == 16 || n == 32 || n == 64
  }

  /** `upperbound_log` returns n exactly for the upper bound 2^n - 1 with
      n one of the four Bulletproofs bit sizes, and fails for every other
      value. */
  lemma UpperboundLogExact(upperbound: U64, n: nat)
    ensures UpperboundLog(upperbound) == Ok(n) <==> (ValidBitsize(n) && upperbound + 1 == Pow2(n))
  {
    Pow2Values();
  }

  lemma UpperboundLogFails(upperbound: U64)
    requires forall n: nat | ValidBitsize(n) :: upperbound + 1 != Pow2(n)
    ensures UpperboundLog(upperbound) == Err(UpperboundLogError)
  {
    Pow2Values();
  }

  // ---------------------------------------------------------------------
  // Cyclic indices

  /** `find_prev_idx`: `idx - 1`, wrapping 0 to `len - 1` (the subtraction
      panics for idx == len == 0). */
  function FindPrevIdx(idx: nat, len: nat): (r: nat)
    requires idx > 0 || len >= 1
    ensures idx < len ==> r == (idx + len - 1) % len
  {
    CyclicIndexFacts(idx, len);
    if idx == 0 then len - 1 else idx - 1
  }

  lemma CyclicIndexFacts(idx: nat, len: nat)
    ensures idx < len ==> (idx + len - 1) % len == if idx == 0 then len - 1 else idx - 1
    ensures idx < len ==> (idx + 1) % len == if idx + 1 == len then 0 else idx + 1
  {
    if idx >= len {
      return;
    }
    if idx == 0 {
      ModOfSmall(len - 1, len);
    } else {
      ModAddMultiple(idx - 1, 1, len);
      ModOfSmall(idx - 1, len);
    }
    if idx + 1 == len {
      ModOfWrapped(idx + 1, len);
    } else {
      ModOfSmall(idx + 1, len);
    }
  }

  /** The index accesses of `get_adjacent_elements`, branch by branch: with
      `usize` arithmetic every subtraction and index must be in range. */
  predicate AdjacentInBounds(len: nat, idx: nat) {
    if idx == 0 then len >= 1 && 1 < len
    else if len >= 1 && idx == len - 1 then len >= 2
    else len >= 1 && idx + 1 < len
  }

  /** The accesses succeed exactly for two or more elements and an index in
      range; a one-element list is indexed out of bounds. */
  lemma AdjacentInBoundsIff(len: nat, idx: nat)
    ensures AdjacentInBounds(len, idx) <==> 2 <= len && idx < len
  {
  }

  /** `get_adjacent_elements`: the cyclic predecessor and successor. */
  function GetAdjacentElements<T>(z: seq<T>, idx: nat): (r: (T, T))
    requires 2 <= |z| && idx < |z|
    ensures r == (z[(idx + |z| - 1) % |z|], z[(idx + 1) % |z|])
  {
    var len := |z|;
    CyclicIndexFacts(idx, len);
    if idx == 0 then (z[len - 1], z[1])
    else if idx == len - 1 then (z[len - 2], z[0])
    else (z[idx - 1], z[idx + 1])
  }

  /** With two parties both neighbours are the other party. */
  lemma AdjacentOfTwo<T>(z: seq<T>, idx: nat)
    requires |z| == 2 && idx < 2
    ensures GetAdjacentElements(z, idx).0 == GetAdjacentElements(z, idx).1 == z[1 - idx]
  {
  }

  // ---------------------------------------------------------------------
  // Fixed-width encodings of scalars and points

  type Compressed = s: seq<Byte> | |s| == 32 witness seq(32, _ => 0 as Byte)

  lemma Pow256Of32()
    ensures Pow256(32) == 0x1_0000_0000_0000_0000_0000_0000_0000_0000_0000_0000_0000_0000_0000_0000_0000_0000
  {
    assert Pow256(2) == 0x1_0000;
    Pow256Add(2, 2);
    assert Pow256(4) == 0x1_0000_0000;
    Pow256Add(4, 4);
    assert Pow256(8) == 0x1_0000_0000_0000_0000;
    Pow256Add(8, 8);
    assert Pow256(16) == 0x1_0000_0000_0000_0000_0000_0000_0000_0000;
    Pow256Add(16, 16);
  }

  lemma {:induction false} Pow256Add(a: nat, b: nat)
    ensures Pow256(a + b) == Pow256(a) * Pow256(b)
  {
    if a > 0 {
      Pow256Add(a - 1, b);
    }
  }

  /** Point compression: 32 little-endian bytes of the discrete log, an
      injective stand-in for the Ristretto encoding. */
  function Compress(p: Point): (c: Compressed)
  {
    LeBytes(p, 32)
  }

  /** Decompression fails on encodings of no group element. */
  function Decompress(c: Compressed): Option<Point>
  {
    var v := LeValue(c);
    if v < L then Some(v) else None
  }

  lemma DecompressCompress(p: Point)
    ensures Decompress(Compress(p)) == Some(p)
  {
    Pow256Of32();
    LeRoundTrip(p, 32);
  }

  lemma CompressInjective(p: Point, q: Point)
    requires Compress(p) == Compress(q)
    ensures p == q
  {
    DecompressCompress(p);
    DecompressCompress(q);
  }

  /** `compressed_ristretto_to_string`: the 32 bytes as 64 lower-case hex
      characters, which decode back to the same bytes. */
  function CompressedToString(c: Compressed): (s: string)
    ensures |s| == 64
    ensures forall i | 0 <= i < |s| :: IsLowerHex(s[i])
    ensures FromHex(s).Some? && FromHex(s).value == c
  {
    HexRoundTrip(c);
    ToHex(c)
  }

  /** `ristretto_to_string`: compress, then render. */
  function PointToString(p: Point): (s: string)
    ensures |s| == 64
    ensures forall i | 0 <= i < |s| :: IsLowerHex(s[i])
  {
    CompressedToString(Compress(p))
  }

  lemma PointToStringInjective(p: Point, q: Point)
    requires PointToString(p) == PointToString(q)
    ensures p == q
  {
    HexInjective(Compress(p), Compress(q));
    CompressInjective(p, q);
  }

  /** `scalar_to_string`: the canonical 32 little-endian bytes of the
      scalar, in hex; decoding the string gives the scalar back. */
  function ScalarToString(x: Scalar): (s: string)
    ensures |s| == 64
    ensures forall i | 0 <= i < |s| :: IsLowerHex(s[i])
    ensures FromHex(s) == Some(LeBytes(x, 32))
  {
    HexRoundTrip(LeBytes(x, 32));
    ToHex(LeBytes(x, 32))
  }

  lemma ScalarFromString(x: Scalar)
    ensures FromHex(ScalarToString(x)).Some?
    ensures LeValue(FromHex(ScalarToString(x)).value) == x
  {
    Pow256Of32();
    LeRoundTrip(x, 32);
  }

  lemma ScalarToStringInjective(x: Scalar, y: Scalar)
    requires ScalarToString(x) == ScalarToString(y)
    ensures x == y
  {
    ScalarFromString(x);
    ScalarFromString(y);
  }

  function Reverse<T>(s: seq<T>): (r: seq<T>)
    ensures |r| == |s|
    ensures forall i | 0 <= i < |s| :: r[i] == s[|s| - 1 - i]
  {
    if s == [] then [] else Reverse(s[1..]) + [s[0]]
  }

  function UpperHexChar(c: char): char {
    if 'a' <= c <= 'f' then (c as int - 'a' as int + 'A' as int) as char else c
  }

  /** The arkworks `Display` of a field element, `Fp256 "(…)"` around 64
      upper-case hex digits of its big-endian bytes. */
  function FrToString(x: Fr): string
  {
    var h := ToHex(Reverse(LeBytes(x, 32)));
    "Fp256 \"(" + seq(|h|, i requires 0 <= i < |h| => UpperHexChar(h[i])) + ")\""
  }

  // ---------------------------------------------------------------------
  // Hashing (SHA-256 itself is a parameter)

  type Digest = s: seq<Byte> | |s| == 32 witness seq(32, _ => 0 as Byte)

  /** SHA-256 of the UTF-8 bytes of a string. */
  type Sha256 = string -> Digest

  /** `hash_string_to_scalar`: the digest read little-endian, reduced mod L. */
  function HashStringToScalar(sha256: Sha256, s: string): Scalar
  {
    LeValue(sha256(s)) % L
  }

  /** `hash_string`. */
  function HashString(sha256: Sha256, s: string): Digest
  {
    sha256(s)
  }

  /** `hash_string_to_fr`: the digest read big-endian, reduced mod P. */
  function HashStringToFr(sha256: Sha256, s: string): Fr
  {
    BeValue(sha256(s)) % P
  }

  // ---------------------------------------------------------------------
  // MiMC

  /** One round: (v + c)^3 + r. */
  function MimcRound(v: Fr, r: Fr, c: Fr): Fr
  {
    var t := FAdd(v, c);
    FAdd(FMul(FMul(t, t), t), r)
  }

  /** The pair (v, r) after one round per constant, in order; each round
      maps (v, r) to (MimcRound(v, r, c), v). */
  function MimcState(v: Fr, r: Fr, constants: seq<Fr>): (Fr, Fr)
  {
    if constants == [] then (v, r)
    else
      var s := MimcState(v, r, constants[..|constants| - 1]);
      (MimcRound(s.0, s.1, constants[|constants| - 1]), s.0)
  }

  function MiMC(v: Fr, r: Fr, constants: seq<Fr>): Fr
  {
    MimcState(v, r, constants).0
  }

  /** Running the rounds of `a` then those of `b` is running those of
      `a + b`: MiMC is the round function applied once per constant. */
  lemma {:induction false} MimcStateAppend(v: Fr, r: Fr, a: seq<Fr>, b: seq<Fr>)
    ensures MimcState(v, r, a + b) == MimcState(MimcState(v, r, a).0, MimcState(v, r, a).1, b)
  {
    if b == [] {
      assert a + b == a;
    } else {
      var last := b[|b| - 1];
      assert (a + b)[..|a + b| - 1] == a + b[..|b| - 1];
      MimcStateAppend(v, r, a, b[..|b| - 1]);
    }
  }

  /** `mimc`: one round per constant, updating (v, r) in place. */
  method Mimc(v0: Fr, r0: Fr, constants: seq<Fr>) returns (out: Fr)
    ensures out == MiMC(v0, r0, constants)
  {
    var v, r := v0, r0;
    var i := 0;
    while i < |constants|
      invariant 0 <= i <= |constants|
      invariant (v, r) == MimcState(v0, r0, constants[..i])
    {
      assert constants[..i + 1][..i] == constants[..i];
      var tmp1 := FAdd(v, constants[i]);
      var tmp2 := FMul(tmp1, tmp1);
      tmp2 := FMul(tmp2, tmp1);
      tmp2 := FAdd(tmp2, r);
      r := v;
      v := tmp2;
      i := i + 1;
    }
    assert constants[..|constants|] == constants;
    out := v;
  }

  // ---------------------------------------------------------------------
  // fr_to_bits, from the integer value on

  function DigitChar(d: nat): char
    requires d < 2
  {
    if d == 0 then '0' else '1'
  }

  /** Base-2 digits, most significant first, "0" for zero
      (`BigInt::to_str_radix(2)`). */
  function Binary(x: nat): (s: string)
    ensures 1 <= |s|
    ensures forall i | 0 <= i < |s| :: s[i] == '0' || s[i] == '1'
  {
    if x < 2 then [DigitChar(x)] else Binary(x / 2) + [DigitChar(x % 2)]
  }

  /** `format!("{:0>64}", …)`: left-pad with '0' to at least 64 characters. */
  function PadLeft(s: string, width: nat): (r: string)
    ensures |r| == if |s| < width then width else |s|
  {
    if |s| < width then seq(width - |s|, _ => '0') + s else s
  }

  /** Read from the right, the padded string is the input followed by
      '0's: character j from the right is the input's, or '0' past it. */
  lemma PadLeftFromRight(s: string, width: nat, j: nat)
    requires j < |PadLeft(s, width)|
    ensures PadLeft(s, width)[|PadLeft(s, width)| - 1 - j] == if j < |s| then s[|s| - 1 - j] else '0'
  {
  }

  function CharBit(c: char): Fr
  {
    if c == '1' then 1 else 0
  }

  /** The bit vector `fr_to_bits` returns: one field element per padded
      binary digit, most significant first. */
  function Bits(v: Fr): (bits: seq<Fr>)
    ensures |bits| >= 64
    ensures forall i | 0 <= i < |bits| :: bits[i] == 0 || bits[i] == 1
  {
    var s := PadLeft(Binary(v), 64);
    seq(|s|, i requires 0 <= i < |s| => CharBit(s[i]))
  }

  /** `fr_to_bits`: map each padded digit to 0 or 1, panicking on any other
      character (which the digits rule out). */
  method FrToBits(v: Fr) returns (bits: seq<Fr>)
    ensures bits == Bits(v)
  {
    var s := PadLeft(Binary(v), 64);
    bits := [];
    var i := 0;
    while i < |s|
      invariant 0 <= i <= |s|
      invariant bits == seq(i, k requires 0 <= k < i => CharBit(s[k]))
    {
      var c := s[i];
      if c == '0' {
        bits := bits + [0];
      } else if c == '1' {
        bits := bits + [1];
      } else {
        assert false;
      }
      i := i + 1;
    }
  }

  /** Sum of 2^j * bits[j] over the first n entries (least significant
      first). */
  function LsbValue(bits: seq<Fr>, n: nat): nat
    requires n <= |bits|
  {
    if n == 0 then 0 else LsbValue(bits, n - 1) + Pow2(n - 1) * bits[n - 1]
  }

  lemma BinaryBound(x: nat)
    ensures x < Pow2(|Binary(x)|)
  {
  }

  lemma DivDiv(x: nat, a: nat, b: nat)
    requires a > 0 && b > 0
    ensures x / a / b == x / (a * b)
  {
    var q := x / a / b;
    var r := (x / a) % b;
    var s := x % a;
    assert x / a == b * q + r;
    assert x == a * (b * q + r) + s;
    assert x == (a * b) * q + (a * r + s) by {
      assert a * (b * q + r) == (a * b) * q + a * r;
    }
    assert a * r + s < a * b by {
      MulMonotone(a, r, b - 1);
      assert a * (b - 1) == a * b - a;
    }
    DivModUnique(x, a * b, q, a * r + s);
  }

  /** Digit j from the right of `Binary(x)` is bit j of x. */
  lemma {:induction false} BinaryDigit(x: nat, j: nat)
    requires j < |Binary(x)|
    ensures Binary(x)[|Binary(x)| - 1 - j] == DigitChar(x / Pow2(j) % 2)
  {
    if x >= 2 && j > 0 {
      BinaryDigit(x / 2, j - 1);
      DivDiv(x, 2, Pow2(j - 1));
    }
  }

  /** Entry j from the right of `Bits(v)` is bit j of v: the vector is
      the binary expansion, most significant first, padded with zeros. */
  lemma BitsDigit(v: Fr, j: nat)
    requires j < |Bits(v)|
    ensures Bits(v)[|Bits(v)| - 1 - j] == (v / Pow2(j)) % 2
  {
    var b := Binary(v);
    var s := PadLeft(b, 64);
    assert Bits(v)[|Bits(v)| - 1 - j] == CharBit(s[|s| - 1 - j]);
    PadLeftFromRight(b, 64, j);
    if j < |b| {
      BinaryDigit(v, j);
    } else {
      BinaryBound(v);
      Pow2Monotone(|b|, j);
      SmallDiv(v, Pow2(j));
    }
  }

  lemma SmallDiv(x: nat, d: nat)
    requires x < d
    ensures x / d == 0
  {
    DivModUnique(x, d, 0, x);
  }

  /** Splitting off bit k: v mod 2^(k+1) == v mod 2^k + 2^k * bit k. */
  lemma ModPow2Step(v: nat, p: nat)
    requires p > 0
    ensures v % (p * 2) == v % p + p * ((v / p) % 2)
  {
    DivDiv(v, p, 2);
    var q := v / (p * 2);
    var bit := (v / p) % 2;
    assert v / p == 2 * q + bit;
    assert v == p * (v / p) + v % p;
    assert v == (p * 2) * q + (p * bit + v % p) by {
      assert p * (v / p) == p * (2 * q + bit) == (p * 2) * q + p * bit;
    }
    assert p * bit + v % p < p * 2 by {
      MulMonotone(p, bit, 1);
    }
    DivModUnique(v, p * 2, q, p * bit + v % p);
  }

  lemma {:induction false} LsbOfDigits(v: nat, bits: seq<Fr>, n: nat)
    requires n <= |bits|
    requires forall j | 0 <= j < n :: bits[j] == (v / Pow2(j)) % 2
    ensures LsbValue(bits, n) == v % Pow2(n)
  {
    if n > 0 {
      LsbOfDigits(v, bits, n - 1);
      LsbStep(v, Pow2(n - 1), Pow2(n), bits[n - 1], LsbValue(bits, n - 1), LsbValue(bits, n));
    }
  }

  /** One more digit extends the recomposed residue by one bit. */
  lemma LsbStep(v: nat, p: nat, p': nat, bit: nat, low: nat, low': nat)
    requires p > 0 && p' == 2 * p && bit == (v / p) % 2
    requires low == v % p && low' == low + p * bit
    ensures low' == v % p'
  {
    ModPow2Step(v, p);
  }

  /** Reversed so that index 0 is least significant, the first n entries
      recompose to v mod 2^n; for the full vector this is v itself. */
  lemma BitsLsbPrefix(v: Fr, n: nat)
    requires n <= |Bits(v)|
    ensures LsbValue(Reverse(Bits(v)), n) == v % Pow2(n)
  {
    var bits := Bits(v);
    var rev := Reverse(bits);
    forall j | 0 <= j < n
      ensures rev[j] == (v / Pow2(j)) % 2
    {
      BitsDigit(v, j);
    }
    LsbOfDigits(v, rev, n);
  }

  lemma BitsRecompose(v: Fr)
    ensures LsbValue(Reverse(Bits(v)), |Bits(v)|) == v
  {
    BitsLsbPrefix(v, |Bits(v)|);
    BinaryBound(v);
    Pow2Monotone(|Binary(v)|, |Bits(v)|);
    ModOfSmall(v, Pow2(|Bits(v)|));
  }
}
