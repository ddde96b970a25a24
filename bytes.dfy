/** Machine-level helpers shared by every module: bytes, C integer widths,
    byte order and the XOR used by checksums. */
module Bytes {

  /** One octet, as the firmware's `uint8_t`. */
  type byte = x: int | 0 <= x < 256

  const U32: int := 0x1_0000_0000

  /** `uint32_t`. */
  type u32 = x: int | 0 <= x < 0x1_0000_0000

  datatype Option<T> = None | Some(value: T)

  /** C conversion of any integer to `uint8_t`: keep the low eight bits. */
  function ToByte(x: int): (r: byte)
    ensures r == x % 256
  {
    x % 256
  }

  /** `uint32_t` subtraction `a - b`, which wraps modulo 2^32. */
  function U32Sub(a: int, b: int): (r: int)
    ensures 0 <= r < U32
    ensures 0 <= b <= a < U32 ==> r == a - b
    ensures 0 <= a < b < U32 ==> r == a - b + U32
  {
    (a - b) % U32
  }

  lemma U32SubIsMod(a: int, b: int)
    ensures U32Sub(a, b) == (a - b) % U32
  {
  }

  /** The two's-complement reading of a 32-bit pattern as `int32_t`. */
  function ToInt32(x: int): (r: int)
    requires 0 <= x < U32
    ensures -0x8000_0000 <= r < 0x8000_0000
    ensures r % U32 == x
  {
    if x < 0x8000_0000 then x else x - U32
  }

  /** Signed `int8_t` arithmetic: wrap into [-128, 127]. */
  function ToInt8(x: int): (r: int)
    ensures -128 <= r < 128
    ensures (r - x) % 256 == 0
  {
    var m := x % 256;
    if m < 128 then m else m - 256
  }

  function Pow256(n: nat): (r: nat)
    ensures r >= 1
  {
    if n == 0 then 1 else 256 * Pow256(n - 1)
  }

  /** Four bytes span the 32-bit range. */
  lemma Pow256Four()
    ensures Pow256(2) == 0x1_0000 && Pow256(4) == U32
  {
    assert Pow256(2) == 0x1_0000;
  }

  /** The `n` bytes of `v` as they lie in the little-endian memory of the
      target (low byte first). */
  function LE(v: int, n: nat): (r: seq<byte>)
    ensures |r| == n
    decreases n
  {
    if n == 0 then [] else [ToByte(v)] + LE(v / 256, n - 1)
  }

  /** The value of a little-endian byte string. */
  function ValueLE(s: seq<byte>): (r: nat)
    ensures r < Pow256(|s|)
  {
    if |s| == 0 then 0 else s[0] + 256 * ValueLE(s[1..])
  }

  /** The value of a big-endian (network order) byte string. */
  function ValueBE(s: seq<byte>): (r: nat)
    ensures r < Pow256(|s|)
  {
    if |s| == 0 then 0 else ValueBE(s[..|s| - 1]) * 256 + s[|s| - 1]
  }

  /** Reversal: what `memcpyr` does to the bytes it copies. */
  function Reverse<T>(s: seq<T>): (r: seq<T>)
    ensures |r| == |s|
    ensures forall i :: 0 <= i < |s| ==> r[i] == s[|s| - 1 - i]
  {
    if |s| == 0 then [] else Reverse(s[1..]) + [s[0]]
  }

  /** The big-endian image of `v` on `n` bytes: the low `n` little-endian
      bytes, reversed. */
  function BE(v: int, n: nat): (r: seq<byte>)
    ensures |r| == n
  {
    Reverse(LE(v, n))
  }

  /** Reading the little-endian bytes back gives `v` modulo 256^n. */
  lemma {:induction false} ValueLEOfLE(v: int, n: nat)
    ensures ValueLE(LE(v, n)) == v % Pow256(n)
    decreases n
  {
    if n > 0 {
      var rest := LE(v / 256, n - 1);
      assert LE(v, n) == [ToByte(v)] + rest;
      assert LE(v, n)[1..] == rest;
      ValueLEOfLE(v / 256, n - 1);
      var p := Pow256(n - 1);
      // v == 256 * (v / 256) + v % 256 and (v / 256) % p is its high part
      var q := v / 256;
      assert v == 256 * q + v % 256;
      DivModCombine(v, q, p);
    }
  }

  lemma DivModCombine(v: int, q: int, p: int)
    requires p >= 1
    requires q == v / 256
    ensures v % 256 + 256 * (q % p) == v % (256 * p)
  {
    var a, b, r0 := q / p, q % p, v % 256;
    assert q == p * a + b;
    assert v == 256 * q + r0;
    assert 256 * q == (256 * p) * a + 256 * b by {
      assert 256 * (p * a + b) == (256 * p) * a + 256 * b;
    }
    ModUnique(v, 256 * p, a, 256 * b + r0);
  }

  /** Euclidean remainder is unique. */
  lemma ModUnique(v: int, d: int, a: int, r: int)
    requires d > 0 && 0 <= r < d
    requires v == d * a + r
    ensures v % d == r && v / d == a
  {
    var a', r' := v / d, v % d;
    var k := a - a';
    assert d * k == r' - r by {
      assert d * a == d * a' + d * k;
    }
    if k >= 1 {
      MulAtLeast(d, k);
    } else if k <= -1 {
      MulAtLeast(d, -k);
    }
  }

  lemma MulAtLeast(d: int, k: int)
    requires d > 0 && k >= 1
    ensures d * k >= d
  {
    assert d * k == d * (k - 1) + d;
    assert d * (k - 1) >= 0;
  }

  /** The big-endian value of a reversed string is its little-endian value. */
  lemma {:induction false} ValueBEOfReverse(s: seq<byte>)
    ensures ValueBE(Reverse(s)) == ValueLE(s)
  {
    if |s| > 0 {
      var r := Reverse(s);
      assert r[..|r| - 1] == Reverse(s[1..]);
      assert r[|r| - 1] == s[0];
      ValueBEOfReverse(s[1..]);
    }
  }

  /** Big-endian encoding round-trips through `ValueBE`. */
  lemma ValueBEOfBE(v: int, n: nat)
    ensures ValueBE(BE(v, n)) == v % Pow256(n)
  {
    ValueBEOfReverse(LE(v, n));
    ValueLEOfLE(v, n);
  }

  /** The two's-complement value of a big-endian string: how a signed
      field (`int8_t`, `int16_t`, `int32_t`) copied out big-endian reads
      back. */
  function SignedBE(s: seq<byte>): (r: int)
    ensures 2 * r < Pow256(|s|) && -(Pow256(|s|) as int) <= 2 * r
  {
    var v := ValueBE(s);
    if 2 * v < Pow256(|s|) then v else v - Pow256(|s|)
  }

  /** A signed value that fits in `n` bytes survives the big-endian copy. */
  lemma SignedBEOfBE(v: int, n: nat)
    requires -(Pow256(n) as int) <= 2 * v < Pow256(n)
    ensures SignedBE(BE(v, n)) == v
  {
    ValueBEOfBE(v, n);
    var p := Pow256(n);
    if v >= 0 {
      ModUnique(v, p, 0, v);
    } else {
      ModUnique(v, p, -1, v + p);
    }
  }

  function Pow2(n: nat): (r: nat)
    ensures r >= 1
  {
    if n == 0 then 1 else 2 * Pow2(n - 1)
  }

  /** Bitwise XOR of the low `n` bits of `a` and `b`, one bit at a time
      from the least significant: the sum of two bits modulo 2. */
  function XorBits(a: nat, b: nat, n: nat): (r: nat)
    ensures r < Pow2(n)
    decreases n
  {
    if n == 0 then 0 else (a + b) % 2 + 2 * XorBits(a / 2, b / 2, n - 1)
  }

  /** Bitwise XOR of two octets (C's `^` on `uint8_t`). */
  function Xor(a: byte, b: byte): (r: byte)
  {
    ByteBitsSpan();
    XorBits(a, b, ByteBits)
  }

  const ByteBits: nat := 8

  lemma ByteBitsSpan()
    ensures Pow2(ByteBits) == 256
  {
  }

  lemma {:induction false} XorBitsCommutes(a: nat, b: nat, n: nat)
    ensures XorBits(a, b, n) == XorBits(b, a, n)
    decreases n
  {
    if n > 0 {
      XorBitsCommutes(a / 2, b / 2, n - 1);
    }
  }

  /** XOR with zero keeps a value of `n` bits. */
  lemma {:induction false} XorBitsZero(a: nat, n: nat)
    requires a < Pow2(n)
    ensures XorBits(a, 0, n) == a
    decreases n
  {
    if n > 0 {
      XorBitsZero(a / 2, n - 1);
    }
  }

  lemma XorCommutes(a: byte, b: byte)
    ensures Xor(a, b) == Xor(b, a)
  {
    XorBitsCommutes(a, b, ByteBits);
  }

  lemma XorZero(a: byte)
    ensures Xor(a, 0) == a
  {
    ByteBitsSpan();
    XorBitsZero(a, ByteBits);
  }

  /** XOR of all octets of `s`, folded from the left, starting from `init`. */
  function XorFold(init: byte, s: seq<byte>): (r: byte)
    decreases |s|
  {
    if |s| == 0 then init else XorFold(Xor(init, s[0]), s[1..])
  }

  lemma {:induction false} XorFoldAppend(init: byte, s: seq<byte>, b: byte)
    ensures XorFold(init, s + [b]) == Xor(XorFold(init, s), b)
    decreases |s|
  {
    if |s| > 0 {
      assert (s + [b])[1..] == s[1..] + [b];
      XorFoldAppend(Xor(init, s[0]), s[1..], b);
    }
  }

  lemma XorFoldOne(b: byte)
    ensures XorFold(0, [b]) == b
  {
    XorZero(b);
    XorCommutes(0, b);
  }
}
