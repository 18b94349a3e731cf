/** Byte strings, the hex and decimal renderings the system builds its
    messages from, and the "##" field separator. */
module Text {
  import opened Common

  type Byte = x: nat | x < 256

  function Pow256(k: nat): (r: nat)
    ensures r >= 1
  {
    if k == 0 then 1 else 256 * Pow256(k - 1)
  }

  // ---------------------------------------------------------------------
  // Little- and big-endian integers

  /** The low `k` bytes of `x`, least significant first (`to_bytes` of a
      scalar). */
  function LeBytes(x: nat, k: nat): (r: seq<Byte>)
    ensures |r| == k
  {
    if k == 0 then [] else [x % 256] + LeBytes(x / 256, k - 1)
  }

  /** The integer a little-endian byte string denotes. */
  function LeValue(bs: seq<Byte>): (v: nat)
    ensures v < Pow256(|bs|)
  {
    if bs == [] then 0 else bs[0] + 256 * LeValue(bs[1..])
  }

  /** The integer a big-endian byte string denotes. */
  function BeValue(bs: seq<Byte>): (v: nat)
    ensures v < Pow256(|bs|)
  {
    if bs == [] then 0 else BeValue(bs[..|bs| - 1]) * 256 + bs[|bs| - 1]
  }

  /** Decoding the little-endian encoding gives the value back, so the
      encoding of values below 256^k is injective. */
  lemma {:induction false} LeRoundTrip(x: nat, k: nat)
    requires x < Pow256(k)
    ensures LeValue(LeBytes(x, k)) == x
  {
    if k > 0 {
      LeRoundTrip(x / 256, k - 1);
    }
  }

  /** Re-encoding a byte string's value gives the byte string back. */
  lemma {:induction false} LeBytesOfValue(bs: seq<Byte>)
    ensures LeBytes(LeValue(bs), |bs|) == bs
  {
    if bs != [] {
      LeBytesOfValue(bs[1..]);
      var v := LeValue(bs);
      assert v % 256 == bs[0] && v / 256 == LeValue(bs[1..]);
    }
  }

  // ---------------------------------------------------------------------
  // Lower-case hex (the `hex` crate's `encode_hex`)

  predicate IsLowerHex(c: char) {
    ('0' <= c <= '9') || ('a' <= c <= 'f')
  }

  function HexDigit(d: nat): (c: char)
    requires d < 16
    ensures IsLowerHex(c)
  {
    if d < 10 then ('0' as int + d) as char else ('a' as int + d - 10) as char
  }

  function HexValue(c: char): (d: nat)
    requires IsLowerHex(c)
    ensures d < 16
  {
    if c <= '9' then c as int - '0' as int else c as int - 'a' as int + 10
  }

  /** Two characters per byte, high nibble first. */
  function ToHex(bs: seq<Byte>): (s: string)
    ensures |s| == 2 * |bs|
    ensures forall i | 0 <= i < |s| :: IsLowerHex(s[i])
  {
    if bs == [] then "" else [HexDigit(bs[0] / 16), HexDigit(bs[0] % 16)] + ToHex(bs[1..])
  }

  /** Decoder for `ToHex`; `None` for odd length or a non-hex character. */
  function FromHex(s: string): Option<seq<Byte>>
  {
    if |s| == 0 then Some([])
    else if |s| == 1 || !IsLowerHex(s[0]) || !IsLowerHex(s[1]) then None
    else
      match FromHex(s[2..])
      case None => None
      case Some(rest) => Some([HexValue(s[0]) * 16 + HexValue(s[1])] + rest)
  }

  lemma {:induction false} HexRoundTrip(bs: seq<Byte>)
    ensures FromHex(ToHex(bs)) == Some(bs)
  {
    if bs != [] {
      HexRoundTrip(bs[1..]);
      var s := ToHex(bs);
      assert s[2..] == ToHex(bs[1..]);
      assert s[0] == HexDigit(bs[0] / 16) && s[1] == HexDigit(bs[0] % 16);
      assert HexValue(s[0]) == bs[0] / 16 && HexValue(s[1]) == bs[0] % 16;
      assert [HexValue(s[0]) * 16 + HexValue(s[1])] + bs[1..] == bs;
    }
  }

  lemma HexInjective(a: seq<Byte>, b: seq<Byte>)
    requires ToHex(a) == ToHex(b)
    ensures a == b
  {
    HexRoundTrip(a);
    HexRoundTrip(b);
  }

  // ---------------------------------------------------------------------
  // Decimal (`usize::to_string`)

  predicate IsDigit(c: char) {
    '0' <= c <= '9'
  }

  function Decimal(n: nat): (s: string)
    ensures |s| > 0
    ensures forall i | 0 <= i < |s| :: IsDigit(s[i])
  {
    if n < 10 then [('0' as int + n) as char]
    else Decimal(n / 10) + [('0' as int + n % 10) as char]
  }

  function ParseDecimal(s: string): nat
    requires forall i | 0 <= i < |s| :: IsDigit(s[i])
  {
    if s == [] then 0
    else
      var last := s[|s| - 1];
      assert IsDigit(last);
      ParseDecimal(s[..|s| - 1]) * 10 + (last as int - '0' as int)
  }

  lemma {:induction false} DecimalRoundTrip(n: nat)
    ensures ParseDecimal(Decimal(n)) == n
  {
    if n >= 10 {
      DecimalRoundTrip(n / 10);
      var s := Decimal(n);
      assert s[..|s| - 1] == Decimal(n / 10);
    }
  }

  lemma DecimalInjective(a: nat, b: nat)
    requires Decimal(a) == Decimal(b)
    ensures a == b
  {
    DecimalRoundTrip(a);
    DecimalRoundTrip(b);
  }

  // ---------------------------------------------------------------------
  // The "##" separator

  predicate NoHash(s: string) {
    forall i | 0 <= i < |s| :: s[i] != '#'
  }

  /** Fields joined with "##" between consecutive ones. */
  function Join(fields: seq<string>): string {
    if |fields| == 0 then ""
    else if |fields| == 1 then fields[0]
    else fields[0] + "##" + Join(fields[1..])
  }

  /** Index of the first "##" at or after `from`, or |s| if there is none. */
  function FindSeparator(s: string, from: nat): (i: nat)
    requires from <= |s|
    ensures from <= i <= |s|
    ensures i < |s| ==> i + 1 < |s| && s[i] == '#' && s[i + 1] == '#'
    decreases |s| - from
  {
    if from + 1 >= |s| then |s|
    else if s[from] == '#' && s[from + 1] == '#' then from
    else FindSeparator(s, from + 1)
  }

  /** Rust's `str::split("##")`. */
  function Split(s: string): (r: seq<string>)
    ensures |r| >= 1
    decreases |s|
  {
    var i := FindSeparator(s, 0);
    if i == |s| then [s] else [s[..i]] + Split(s[i + 2..])
  }

  lemma {:induction false} FindSeparatorSkipsField(a: string, b: string, from: nat)
    requires NoHash(a) && from <= |a|
    ensures FindSeparator(a + b, from) == if |b| >= 2 && b[0] == '#' && b[1] == '#' then |a| else FindSeparator(a + b, |a|)
    decreases |a| - from
  {
    if from < |a| {
      FindSeparatorSkipsField(a, b, from + 1);
    }
  }

  /** Fields without '#' are recovered exactly by splitting their join, so
      a "##"-joined message is uniquely decodable. */
  lemma {:induction false} SplitJoin(fields: seq<string>)
    requires |fields| >= 1
    requires forall k | 0 <= k < |fields| :: NoHash(fields[k])
    ensures Split(Join(fields)) == fields
  {
    var f := fields[0];
    if |fields| == 1 {
      FindSeparatorSkipsField(f, "", 0);
      assert f + "" == f;
    } else {
      var rest := Join(fields[1..]);
      var s := f + "##" + rest;
      assert s == f + ("##" + rest);
      FindSeparatorSkipsField(f, "##" + rest, 0);
      assert s[..|f|] == f;
      assert s[|f| + 2..] == rest;
      SplitJoin(fields[1..]);
    }
  }
}
