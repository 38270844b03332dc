/**
 * Byte strings and the fixed-width big-endian integers that `struct.pack`
 * writes with the network-order formats '!H' (2 bytes), '!I' (4 bytes)
 * and '!Q' (8 bytes).
 */
module Bytes {

  type Byte = b: int | 0 <= b < 256

  function Pow2(n: nat): (r: nat)
    ensures r >= 1
  {
    if n == 0 then 1 else 2 * Pow2(n - 1)
  }

  /** 256^width: the number of values a `width`-byte unsigned field can hold. */
  function Pow256(width: nat): (r: nat)
    ensures r >= 1
  {
    if width == 0 then 1 else 256 * Pow256(width - 1)
  }

  lemma Pow256Values()
    ensures Pow256(2) == 0x1_0000
    ensures Pow256(4) == 0x1_0000_0000
    ensures Pow256(8) == 0x1_0000_0000_0000_0000
  {
    assert Pow256(1) == 256;
  }

  /** The unsigned big-endian encoding of `n` in exactly `width` bytes. */
  function ToBigEndian(n: nat, width: nat): (r: seq<Byte>)
    requires n < Pow256(width)
    ensures |r| == width
    decreases width
  {
    if width == 0 then []
    else
      assert n / 256 < Pow256(width - 1) by { DivBound(n, Pow256(width - 1)); }
      ToBigEndian(n / 256, width - 1) + [n % 256]
  }

  /** The unsigned integer whose big-endian encoding is `s`. */
  function FromBigEndian(s: seq<Byte>): (r: nat)
    ensures r < Pow256(|s|)
  {
    if s == [] then 0
    else
      var hi := FromBigEndian(s[..|s| - 1]);
      MulAddBound(hi, s[|s| - 1], Pow256(|s| - 1));
      hi * 256 + s[|s| - 1]
  }

  lemma DivBound(n: nat, p: nat)
    requires n < 256 * p
    ensures n / 256 < p
  {
  }

  lemma MulAddBound(hi: nat, lo: nat, p: nat)
    requires hi < p && lo < 256
    ensures hi * 256 + lo < 256 * p
  {
    assert hi * 256 <= (p - 1) * 256;
  }

  /** Decoding an encoding gives back the number. */
  lemma {:induction false} FromToBigEndian(n: nat, width: nat)
    requires n < Pow256(width)
    ensures FromBigEndian(ToBigEndian(n, width)) == n
    decreases width
  {
    if width > 0 {
      var s := ToBigEndian(n, width);
      assert s[..|s| - 1] == ToBigEndian(n / 256, width - 1);
      FromToBigEndian(n / 256, width - 1);
    }
  }

  /** Encoding a decoded byte string gives back the bytes. */
  lemma {:induction false} ToFromBigEndian(s: seq<Byte>)
    ensures ToBigEndian(FromBigEndian(s), |s|) == s
  {
    if s != [] {
      var hi := FromBigEndian(s[..|s| - 1]);
      var n := hi * 256 + s[|s| - 1];
      assert n / 256 == hi && n % 256 == s[|s| - 1];
      ToFromBigEndian(s[..|s| - 1]);
    }
  }

  /** The two-byte big-endian form written by struct.pack('!H', n). */
  lemma BigEndian16(n: nat)
    requires n < 0x1_0000
    ensures Pow256(2) == 0x1_0000
    ensures ToBigEndian(n, 2) == [n / 256, n % 256]
    ensures FromBigEndian([n / 256, n % 256]) == n
  {
    Pow256Values();
  }

  /** Lower-case two-character hexadecimal form of a byte, as `bytes.hex()` writes it. */
  function HexByte(b: Byte): (r: string)
    ensures |r| == 2
  {
    [HexDigit(b / 16), HexDigit(b % 16)]
  }

  function HexDigit(d: nat): char
    requires d < 16
  {
    "0123456789abcdef"[d]
  }

  /** `bytes.hex()`: two lower-case hex digits per byte. */
  function Hex(s: seq<Byte>): (r: string)
    ensures |r| == 2 * |s|
  {
    if s == [] then "" else HexByte(s[0]) + Hex(s[1..])
  }
}
