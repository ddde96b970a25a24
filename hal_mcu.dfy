/** The MCU helpers of the hardware abstraction layer: reversed copy,
    hexadecimal-text decoding, chunked sleeping and the sleep-break flag. */
module HalMcu {
  import opened Bytes

  // ---------------------------------------------------------------------
  // memcpyr
  // ---------------------------------------------------------------------

  /** `memcpyr(dst + off, src, size)`: copies `size` bytes of `src` into
      `dst` starting at `off`, in reverse order. The source is given by
      value; overlapping buffers are not modelled. */
  method Memcpyr(dst: array<byte>, off: nat, src: seq<byte>, size: nat)
    requires size <= |src| && off + size <= dst.Length
    modifies dst
    ensures dst[off..off + size] == Reverse(src[..size])
    ensures forall i :: 0 <= i < dst.Length && !(off <= i < off + size) ==> dst[i] == old(dst[i])
  {
    var d: int := off + size - 1;
    var s := 0;
    var n := size;
    while n > 0
      invariant 0 <= n <= size && s == size - n && d == off + n - 1
      invariant forall i :: off + n <= i < off + size ==> dst[i] == src[off + size - 1 - i]
      invariant forall i :: 0 <= i < dst.Length && !(off + n <= i < off + size) ==> dst[i] == old(dst[i])
    {
      dst[d] := src[s];
      d := d - 1;
      s := s + 1;
      n := n - 1;
    }
  }

  /** What every big-endian field of the uplinks is: `memcpyr` of the
      little-endian memory image of `v` reads back, in network order, as `v`
      reduced to `n` bytes. */
  lemma MemcpyrGivesBigEndian(v: int, n: nat)
    ensures ValueBE(Reverse(LE(v, n))) == v % Pow256(n)
  {
    ValueBEOfBE(v, n);
  }

  // ---------------------------------------------------------------------
  // hal_hex_to_bin
  // ---------------------------------------------------------------------

  predicate IsHexDigit(c: char)
  {
    ('0' <= c <= '9') || ('a' <= c <= 'f') || ('A' <= c <= 'F')
  }

  function HexDigitValue(c: char): (r: int)
    requires IsHexDigit(c)
    ensures 0 <= r < 16
  {
    if '0' <= c <= '9' then c as int - '0' as int
    else if 'a' <= c <= 'f' then c as int - 'a' as int + 10
    else c as int - 'A' as int + 10
  }

  predicate IsCSpace(c: char)
  {
    c == ' ' || c == '\t' || c == '\n' || c == '\r' || c == '\U{B}' || c == '\U{C}'
  }

  /** `(uint8_t)strtol(tmp, NULL, 16)` on the two-character string
      `tmp = [c0, c1]`: leading white space and a sign are accepted, the
      longest run of hexadecimal digits is read, and the result is truncated
      to a byte. */
  function Strtol2(c0: char, c1: char): (r: byte)
    ensures IsHexDigit(c0) && IsHexDigit(c1) ==> r == 16 * HexDigitValue(c0) + HexDigitValue(c1)
    ensures !IsHexDigit(c0) && !IsCSpace(c0) && c0 != '+' && c0 != '-' ==> r == 0
  {
    if IsHexDigit(c0) then
      if IsHexDigit(c1) then 16 * HexDigitValue(c0) + HexDigitValue(c1) else HexDigitValue(c0)
    else if (IsCSpace(c0) || c0 == '+') && IsHexDigit(c1) then HexDigitValue(c1)
    else if c0 == '-' && IsHexDigit(c1) then ToByte(-HexDigitValue(c1))
    else 0
  }

  /** Character `j` of a C string: the terminator and what follows it read
      as NUL. */
  function CharAt(s: seq<char>, j: int): char
  {
    if 0 <= j < |s| then s[j] else '\0'
  }

  /** The byte `hal_hex_to_bin` writes at `dst[k]`. */
  function PairValue(input: seq<char>, k: nat): byte
  {
    Strtol2(CharAt(input, 2 * k), CharAt(input, 2 * k + 1))
  }

  /** `strlen(input)` stored in a `uint16_t`. */
  function Len16(input: seq<char>): nat
  {
    |input| % 0x1_0000
  }

  function Min(a: int, b: int): int { if a <= b then a else b }

  function Max(a: int, b: int): int { if a >= b then a else b }

  /** How many bytes `hal_hex_to_bin` as written stores: one per character
      pair while pairs remain, and the bound test only runs after the
      store, so up to `len + 1`. */
  function WrittenAsIs(length: nat, len: int): nat
  {
    if length == 0 then 0 else Min((length + 1) / 2, Max(len, 0) + 1)
  }

  /** `hal_hex_to_bin(input, dst, len)` exactly as written. */
  method HexToBinAsWritten(input: seq<char>, dst: array<byte>, len: int) returns (written: nat)
    requires dst.Length >= WrittenAsIs(Len16(input), len)
    modifies dst
    ensures written == WrittenAsIs(Len16(input), len)
    ensures forall k :: 0 <= k < written ==> dst[k] == PairValue(input, k)
    ensures forall k :: written <= k < dst.Length ==> dst[k] == old(dst[k])
  {
    var length := Len16(input);
    var i := 0;
    written := 0;
    while i < length
      invariant 0 <= i == 2 * written
      invariant i <= length + 1
      invariant i > 0 ==> i - 2 < 2 * len
      invariant forall k :: 0 <= k < written ==> dst[k] == PairValue(input, k)
      invariant forall k :: written <= k < dst.Length ==> dst[k] == old(dst[k])
    {
      // dst[i / 2], with i / 2 == written
      dst[written] := Strtol2(CharAt(input, i), CharAt(input, i + 1));
      written := written + 1;
      if i >= 2 * len {
        break;
      }
      i := i + 2;
    }
  }

  /** The check `hal_hex_to_bin` evidently intends: at most `len` bytes. */
  function WrittenBounded(length: nat, len: int): nat
  {
    Min((length + 1) / 2, Max(len, 0))
  }

  /** `hal_hex_to_bin` with the bound tested before the store. */
  method HexToBin(input: seq<char>, dst: array<byte>, len: int) returns (written: nat)
    requires dst.Length >= len
    modifies dst
    ensures written == WrittenBounded(Len16(input), len) && written <= Max(len, 0)
    ensures forall k :: 0 <= k < written ==> dst[k] == PairValue(input, k)
    ensures forall k :: written <= k < dst.Length ==> dst[k] == old(dst[k])
  {
    var length := Len16(input);
    var i := 0;
    written := 0;
    while i < length && i < 2 * len
      invariant i % 2 == 0 && 0 <= i && written == i / 2
      invariant i <= length + 1 && (i > 0 ==> i <= 2 * len)
      invariant forall k :: 0 <= k < written ==> dst[k] == PairValue(input, k)
      invariant forall k :: written <= k < dst.Length ==> dst[k] == old(dst[k])
    {
      dst[i / 2] := Strtol2(CharAt(input, i), CharAt(input, i + 1));
      written := written + 1;
      i := i + 2;
    }
  }

  /** The buffer overrun of the code as written: a string longer than
      `2 * len` characters makes it store `len + 1` bytes into a buffer the
      callers size to `len`. */
  lemma HexToBinOverrun(input: seq<char>, len: nat)
    requires 2 * len < Len16(input)
    ensures WrittenAsIs(Len16(input), len) == len + 1
    ensures WrittenBounded(Len16(input), len) == len
  {
  }

  // Upper-case hexadecimal text of a byte string, as the credentials are
  // spelt in the firmware's build-time defaults.

  function HexChar(v: int): (c: char)
    requires 0 <= v < 16
    ensures IsHexDigit(c) && HexDigitValue(c) == v
  {
    if v < 10 then ('0' as int + v) as char else ('A' as int + v - 10) as char
  }

  function HexText(b: seq<byte>): (t: seq<char>)
    ensures |t| == 2 * |b|
  {
    if |b| == 0 then [] else [HexChar(b[0] / 16), HexChar(b[0] % 16)] + HexText(b[1..])
  }

  lemma {:induction false} HexTextChars(b: seq<byte>, k: nat)
    requires k < |b|
    ensures HexText(b)[2 * k] == HexChar(b[k] / 16)
    ensures HexText(b)[2 * k + 1] == HexChar(b[k] % 16)
  {
    if k > 0 {
      HexTextChars(b[1..], k - 1);
      assert HexText(b) == [HexChar(b[0] / 16), HexChar(b[0] % 16)] + HexText(b[1..]);
    }
  }

  /** Decoding the hexadecimal text of `b` pair by pair gives `b` back. */
  lemma HexTextRoundTrip(b: seq<byte>)
    ensures forall k :: 0 <= k < |b| ==> PairValue(HexText(b), k) == b[k]
  {
    forall k | 0 <= k < |b|
      ensures PairValue(HexText(b), k) == b[k]
    {
      HexTextChars(b, k);
    }
  }

  /** With a well-formed text of exactly `2 * |b|` characters, the bounded
      decoder stores exactly `b`. */
  lemma HexToBinDecodesHexText(b: seq<byte>)
    requires 2 * |b| < 0x1_0000
    ensures WrittenBounded(Len16(HexText(b)), |b|) == |b|
  {
    var n, t := |b|, HexText(b);
    SmallLen16(t);
    assert (2 * n + 1) / 2 == n;
  }

  lemma SmallLen16(t: seq<char>)
    requires |t| < 0x1_0000
    ensures Len16(t) == |t|
  {
  }

  // ---------------------------------------------------------------------
  // hal_mcu_set_sleep_for_ms and hal_sleep_exit
  // ---------------------------------------------------------------------

  /** How `hal_mcu_set_sleep_for_ms` splits `ms` into sleeps of at most
      `maxChunk` milliseconds. */
  function Chunks(ms: int, maxChunk: int): seq<int>
    requires ms > 0 && maxChunk > 0
    decreases ms
  {
    if ms > maxChunk then [maxChunk] + Chunks(ms - maxChunk, maxChunk) else [ms]
  }

  function Sum(s: seq<int>): int
  {
    if |s| == 0 then 0 else s[0] + Sum(s[1..])
  }

  /** The chunks add up to the request, each lies in (0, maxChunk], and all
      but the last are full. */
  lemma {:induction false} ChunksSplitRequest(ms: int, maxChunk: int)
    requires ms > 0 && maxChunk > 0
    ensures Sum(Chunks(ms, maxChunk)) == ms
    ensures forall i :: 0 <= i < |Chunks(ms, maxChunk)| ==> 0 < Chunks(ms, maxChunk)[i] <= maxChunk
    ensures forall i :: 0 <= i < |Chunks(ms, maxChunk)| - 1 ==> Chunks(ms, maxChunk)[i] == maxChunk
    decreases ms
  {
    if ms > maxChunk {
      ChunksSplitRequest(ms - maxChunk, maxChunk);
    }
  }

  /** The chunks long enough (over 50 ms) to be slept at all. */
  function Long(cs: seq<int>): (r: seq<int>)
    ensures forall i :: 0 <= i < |r| ==> r[i] > 50
  {
    if |cs| == 0 then [] else (if cs[0] > 50 then [cs[0]] else []) + Long(cs[1..])
  }

  predicate HasLong(cs: seq<int>)
  {
    exists i :: 0 <= i < |cs| && cs[i] > 50
  }

  /** The long chunks up to and including the first one, where a pending
      break ends the sleep. */
  function UntilLong(cs: seq<int>): (r: seq<int>)
    ensures |r| <= 1
  {
    if |cs| == 0 then [] else if cs[0] > 50 then [cs[0]] else UntilLong(cs[1..])
  }

  lemma {:induction false} LongAppend(a: seq<int>, c: int)
    ensures Long(a + [c]) == Long(a) + (if c > 50 then [c] else [])
  {
    if |a| > 0 {
      assert (a + [c])[1..] == a[1..] + [c];
      LongAppend(a[1..], c);
    }
  }

  lemma {:induction false} UntilLongAppend(a: seq<int>, c: int)
    ensures !HasLong(a) ==> UntilLong(a + [c]) == (if c > 50 then [c] else [])
    ensures HasLong(a) ==> UntilLong(a + [c]) == UntilLong(a)
  {
    if |a| > 0 {
      assert (a + [c])[1..] == a[1..] + [c];
      UntilLongAppend(a[1..], c);
      if a[0] <= 50 {
        assert HasLong(a) ==> HasLong(a[1..]) by {
          if HasLong(a) {
            var i :| 0 <= i < |a| && a[i] > 50;
            assert a[1..][i - 1] == a[i];
          }
        }
        assert HasLong(a[1..]) ==> HasLong(a) by {
          if HasLong(a[1..]) {
            var i :| 0 <= i < |a[1..]| && a[1..][i] > 50;
            assert a[i + 1] > 50;
          }
        }
      }
    }
  }

  lemma HasLongAppend(a: seq<int>, c: int)
    ensures HasLong(a + [c]) <==> HasLong(a) || c > 50
  {
    if HasLong(a) {
      var i :| 0 <= i < |a| && a[i] > 50;
      assert (a + [c])[i] > 50;
    }
    if c > 50 {
      assert (a + [c])[|a|] > 50;
    }
    if HasLong(a + [c]) {
      var i :| 0 <= i < |a + [c]| && (a + [c])[i] > 50;
      if i < |a| {
        assert a[i] > 50;
      }
    }
  }

  lemma AppendOne<T>(a: seq<T>, x: T, r: seq<T>)
    ensures a + ([x] + r) == (a + [x]) + r
  {
  }

  lemma AppendAssoc<T>(a: seq<T>, b: seq<T>, c: seq<T>)
    ensures (a + b) + c == a + (b + c)
  {
  }

  lemma HasLongPrefix(a: seq<int>, b: seq<int>)
    requires HasLong(a)
    ensures HasLong(a + b)
  {
    var i :| 0 <= i < |a| && a[i] > 50;
    assert (a + b)[i] > 50;
  }

  lemma {:induction false} UntilLongNone(cs: seq<int>)
    requires !HasLong(cs)
    ensures UntilLong(cs) == []
  {
    if |cs| > 0 {
      assert cs[0] <= 50;
      UntilLongNone(cs[1..]);
    }
  }

  lemma {:induction false} UntilLongPrefix(a: seq<int>, b: seq<int>)
    requires HasLong(a)
    ensures UntilLong(a + b) == UntilLong(a)
  {
    var i :| 0 <= i < |a| && a[i] > 50;
    if a[0] <= 50 {
      assert (a + b)[1..] == a[1..] + b;
      assert a[1..][i - 1] > 50;
      UntilLongPrefix(a[1..], b);
    }
  }

  /** The sleeps taken from chunk list `done`, with or without a pending
      break. */
  function Slept(done: seq<int>, brk: bool): seq<int>
  {
    if brk then UntilLong(done) else Long(done)
  }

  /** The break flag after chunk list `done`. */
  function FlagAfter(flag0: bool, done: seq<int>, brk: bool): bool
  {
    if brk then !HasLong(done) else flag0
  }

  lemma SleptAppend(done: seq<int>, c: int, brk: bool, flag0: bool)
    requires brk ==> flag0
    requires brk ==> !HasLong(done)
    ensures Slept(done + [c], brk) == Slept(done, brk) + (if c > 50 then [c] else [])
    ensures FlagAfter(flag0, done + [c], brk) == (FlagAfter(flag0, done, brk) && !(brk && c > 50))
    ensures HasLong(done + [c]) <==> HasLong(done) || c > 50
  {
    LongAppend(done, c);
    UntilLongAppend(done, c);
    HasLongAppend(done, c);
    if brk {
      UntilLongNone(done);
    }
  }

  /** The sleep-break flag and a record of the sleeps the MCU entered. */
  class Mcu {
    var sleepBreak: bool
    var naps: seq<int>

    constructor ()
      ensures !sleepBreak && naps == []
    {
      sleepBreak := false;
      naps := [];
    }

    /** `hal_sleep_exit`: request that the current sleep end. */
    method SleepExit()
      modifies this
      ensures sleepBreak && naps == old(naps)
    {
      sleepBreak := true;
    }

    /** `hal_mcu_set_sleep_for_ms(ms)` with the chunk bound `maxChunk` and
        the USB presence `usb`. Appends to `naps` each chunk actually slept;
        with USB present a pending break is consumed by the first such
        chunk and ends the call. */
    method SetSleepForMs(ms: int, maxChunk: int, usb: bool)
      requires maxChunk > 0
      modifies this
      ensures ms <= 0 ==> naps == old(naps) && sleepBreak == old(sleepBreak)
      ensures ms > 0 && !(usb && old(sleepBreak)) ==>
        naps == old(naps) + Long(Chunks(ms, maxChunk)) && sleepBreak == old(sleepBreak)
      ensures ms > 0 && usb && old(sleepBreak) ==>
        naps == old(naps) + UntilLong(Chunks(ms, maxChunk)) && sleepBreak == !HasLong(Chunks(ms, maxChunk))
    {
      if ms <= 0 {
        return;
      }
      hide Long, UntilLong, HasLong;
      ghost var brk := usb && sleepBreak;
      ghost var naps0, flag0 := naps, sleepBreak;
      ghost var done: seq<int> := [];
      ghost var rest := Chunks(ms, maxChunk);
      var last := false;
      var counter := ms;
      while !last
        invariant Chunks(ms, maxChunk) == done + rest
        invariant !last ==> counter > 0 && rest == Chunks(counter, maxChunk)
        invariant last ==> rest == [] || (brk && HasLong(done))
        invariant naps == naps0 + Slept(done, brk) && sleepBreak == FlagAfter(flag0, done, brk)
        invariant brk && HasLong(done) ==> last
        decreases if last then 0 else counter + 1
      {
        var sleep := 0;
        if counter > maxChunk {
          sleep := maxChunk;
          counter := counter - sleep;
        } else {
          sleep := counter;
          last := true;
        }
        ghost var done0 := done;
        assert rest == [sleep] + (if last then [] else Chunks(counter, maxChunk));
        done := done + [sleep];
        rest := if last then [] else Chunks(counter, maxChunk);
        AppendOne(done0, sleep, rest);
        SleptAppend(done0, sleep, brk, flag0);
        ghost var slept0 := Slept(done0, brk);
        if sleep > 50 {
          if usb && sleepBreak {
            sleepBreak := false;
            last := true;
          }
          AppendAssoc(naps0, slept0, [sleep]);
          naps := naps + [sleep];
        } else {
          assert slept0 + [] == slept0;
        }
      }
      if brk && HasLong(done) {
        UntilLongPrefix(done, rest);
        HasLongPrefix(done, rest);
      } else {
        assert Chunks(ms, maxChunk) == done;
        if brk {
          UntilLongNone(done);
        }
      }
    }
  }
}
