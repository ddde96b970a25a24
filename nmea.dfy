/** NMEA 0183 text handling of the GNSS receiver driver: the two checksum
    routines, the splitter that cuts a received chunk into sentences, and
    the `$PAIR382` sleep-lock commands. Text is a C string given by its
    bytes before the terminator. */
module Nmea {
  import opened Bytes
  import HalUart

  const Dollar: byte := 0x24
  const Star: byte := 0x2A
  const CR: byte := 0x0D
  const LF: byte := 0x0A
  const LineSize: int := 128

  function Max(a: int, b: int): int { if a >= b then a else b }

  function Min(a: int, b: int): int { if a <= b then a else b }

  /** The reference NMEA checksum of a sentence body (the text between '$'
      and '*'): the XOR of its octets. */
  function Checksum(body: seq<byte>): byte
  {
    XorFold(0, body)
  }

  // ---------------------------------------------------------------------
  // app_nmea_check_sum (GNSS driver)
  // ---------------------------------------------------------------------

  /** `app_nmea_check_sum(buf)`: starts from `buf[1]` and XORs the octets
      up to `strlen(buf)`, a length the driver keeps in a `uint8_t`. */
  method AppNmeaCheckSum(buf: seq<byte>) returns (chk: byte)
    requires |buf| >= 1
    ensures chk == XorFold(0, buf[1..Max(|buf| % 256, Min(2, |buf|))])
  {
    hide Xor;
    if |buf| < 2 {
      // buf[1] is the terminator
      return 0;
    }
    var len := |buf| % 256;
    chk := buf[1];
    XorFoldOne(buf[1]);
    assert buf[1..2] == [buf[1]];
    var i := 2;
    while i < len
      invariant 2 <= i <= Max(len, 2) && len <= |buf|
      invariant chk == XorFold(0, buf[1..i])
    {
      assert buf[1..i + 1] == buf[1..i] + [buf[i]];
      XorFoldAppend(0, buf[1..i], buf[i]);
      chk := Xor(chk, buf[i]);
      i := i + 1;
    }
  }

  /** For a text shorter than 256 octets, `app_nmea_check_sum` of
      "$" + body is the NMEA checksum of the body. */
  lemma AppNmeaCheckSumIsChecksum(body: seq<byte>)
    requires |body| + 1 < 256
    ensures var buf := [Dollar] + body;
      XorFold(0, buf[1..Max(|buf| % 256, Min(2, |buf|))]) == Checksum(body)
  {
    hide XorFold;
    var buf := [Dollar] + body;
    if |body| == 0 {
      assert buf[1..1] == body;
    } else {
      assert buf[1..|buf|] == body;
    }
  }

  // ---------------------------------------------------------------------
  // calculate_nmea_checksum (assistance module)
  // ---------------------------------------------------------------------

  /** The index where the checksummed part of `s` ends: the first '*' or
      NUL at or after `j`, else the end. */
  function BodyEnd(s: seq<byte>, j: nat): (k: nat)
    requires j <= |s|
    ensures j <= k <= |s|
    ensures forall m :: j <= m < k ==> s[m] != 0 && s[m] != Star
    ensures k < |s| ==> s[k] == 0 || s[k] == Star
    decreases |s| - j
  {
    if j == |s| || s[j] == 0 || s[j] == Star then j else BodyEnd(s, j + 1)
  }

  /** `calculate_nmea_checksum(sentence)`: skips the first character and
      XORs the rest up to '*' or the end of the string. */
  method CalculateNmeaChecksum(sentence: seq<byte>) returns (checksum: byte)
    requires |sentence| >= 1
    ensures checksum == Checksum(sentence[1..BodyEnd(sentence, 1)])
  {
    hide Xor;
    checksum := 0;
    var p := 1;
    while p < |sentence| && sentence[p] != 0 && sentence[p] != Star
      invariant 1 <= p <= BodyEnd(sentence, 1)
      invariant checksum == XorFold(0, sentence[1..p])
    {
      assert sentence[1..p + 1] == sentence[1..p] + [sentence[p]];
      XorFoldAppend(0, sentence[1..p], sentence[p]);
      checksum := Xor(checksum, sentence[p]);
      p := p + 1;
    }
  }

  /** The two checksum routines agree on "$" + body + "*..." when the body
      is free of '*' and NUL and the whole text is shorter than 256. */
  lemma ChecksumsAgree(body: seq<byte>, tail: seq<byte>)
    requires forall m :: 0 <= m < |body| ==> body[m] != 0 && body[m] != Star
    ensures var s := [Dollar] + body + [Star] + tail;
      s[1..BodyEnd(s, 1)] == body
  {
    var s := [Dollar] + body + [Star] + tail;
    assert s[|body| + 1] == Star;
    assert forall m :: 1 <= m < |body| + 1 ==> s[m] == body[m - 1];
  }

  // ---------------------------------------------------------------------
  // gnss_nmea_parse
  // ---------------------------------------------------------------------

  /** The segments `gnss_nmea_parse` cuts from `s`, scanning from `i` with
      `begin` the latest '$' since the last cut (0 if none): each '\r' at a
      non-zero index cuts [begin, i) and resets `begin` to 0. */
  function Segments(s: seq<byte>, i: nat, begin: nat): seq<seq<byte>>
    requires begin <= i <= |s|
    decreases |s| - i
  {
    if i == |s| then []
    else if s[i] == Dollar then Segments(s, i + 1, i)
    else if s[i] == CR && i > 0 then [s[begin..i]] + Segments(s, i + 1, 0)
    else Segments(s, i + 1, begin)
  }

  /** `strncmp(line, "$PAIR", 5) == 0`: a receiver reply, not passed on. */
  predicate IsPairReply(seg: seq<byte>)
  {
    |seg| >= 5 && seg[..5] == [Dollar, 0x50, 0x41, 0x49, 0x52]
  }

  /** The segments handed to the sentence parser. */
  function NotPair(segs: seq<seq<byte>>): (r: seq<seq<byte>>)
    ensures forall k :: 0 <= k < |r| ==> !IsPairReply(r[k])
  {
    if |segs| == 0 then []
    else (if IsPairReply(segs[0]) then [] else [segs[0]]) + NotPair(segs[1..])
  }

  lemma {:induction false} NotPairAppend(a: seq<seq<byte>>, b: seq<seq<byte>>)
    ensures NotPair(a + b) == NotPair(a) + NotPair(b)
  {
    if |a| == 0 {
      assert a + b == b;
    } else {
      assert (a + b)[0] == a[0];
      assert (a + b)[1..] == a[1..] + b;
      NotPairAppend(a[1..], b);
    }
  }

  /** `strlen(str)` kept in a `uint16_t`. */
  function Len16(s: seq<byte>): nat { |s| % 0x1_0000 }

  function Scanned(str: seq<byte>): seq<byte> { str[..Len16(str)] }

  /** A '\r' at index `i > 0` closes the next segment, `s[begin..i]`. */
  lemma CutStep(cut: seq<seq<byte>>, s: seq<byte>, i: nat, begin: nat)
    requires begin <= i < |s| && i > 0 && s[i] == CR
    requires cut + Segments(s, i, begin) == Segments(s, 0, 0)
    ensures |cut| < |Segments(s, 0, 0)| && Segments(s, 0, 0)[|cut|] == s[begin..i]
    ensures (cut + [s[begin..i]]) + Segments(s, i + 1, 0) == Segments(s, 0, 0)
  {
    assert Segments(s, i, begin) == [s[begin..i]] + Segments(s, i + 1, 0);
    assert (cut + [s[begin..i]]) + Segments(s, i + 1, 0) == cut + Segments(s, i, begin);
  }

  /** Any other octet only moves `begin` (to `i` on a '$'). */
  lemma SkipStep(s: seq<byte>, i: nat, begin: nat)
    requires begin <= i <= |s|
    ensures i == |s| ==> Segments(s, i, begin) == []
    ensures i < |s| && !(s[i] == CR && i > 0) ==>
      Segments(s, i, begin) == Segments(s, i + 1, if s[i] == Dollar then i else begin)
  {
  }

  /** The sentence splitter with its 128-byte line buffer. */
  class SentenceSplitter {
    var line: array<byte>
    var parsed: seq<seq<byte>>

    ghost predicate Valid()
      reads this
    {
      line.Length == LineSize
    }

    constructor ()
      ensures Valid() && fresh(line) && parsed == []
    {
      line := new byte[LineSize](_ => 0);
      parsed := [];
    }

    /** The copy of one segment into the cleared line buffer. */
    method CopyLine(s: seq<byte>, begin: int, end: int) returns (seg: seq<byte>)
      requires Valid() && 0 <= begin < end <= |s| && end - begin < LineSize
      modifies line
      ensures seg == s[begin..end]
      ensures line[..] == seg + seq(LineSize - (end - begin), _ => 0)
    {
      forall k | 0 <= k < LineSize {
        line[k] := 0;
      }
      forall k | 0 <= k < end - begin {
        line[k] := s[begin + k];
      }
      seg := line[..end - begin];
      assert line[..] == seg + seq(LineSize - (end - begin), _ => 0);
    }

    /** `gnss_nmea_parse(str)`. The copy into the line buffer is
        unchecked, so every segment must leave room for the terminator. */
    method Parse(str: seq<byte>)
      requires Valid()
      requires forall k :: 0 <= k < |Segments(Scanned(str), 0, 0)| ==> |Segments(Scanned(str), 0, 0)[k]| < LineSize
      modifies this, line
      ensures Valid() && line == old(line)
      ensures parsed == old(parsed) + NotPair(Segments(Scanned(str), 0, 0))
    {
      var s := Scanned(str);
      assert NotPair([]) == [];
      hide Segments, NotPair;
      var len := |s|;
      var begin := 0;
      var end := 0;
      ghost var cut: seq<seq<byte>> := [];
      var i := 0;
      while i < len
        invariant 0 <= begin <= i <= len && (begin == 0 || begin < i) && end == 0
        invariant line == old(line) && line.Length == LineSize
        invariant cut + Segments(s, i, begin) == Segments(s, 0, 0)
        invariant parsed == old(parsed) + NotPair(cut)
      {
        ghost var b0 := begin;
        if s[i] == Dollar {
          begin := i;
        }
        if s[i] == CR {
          end := i;
        }
        if end != 0 && end > begin {
          CutStep(cut, s, i, b0);
          var seg := CopyLine(s, begin, end);
          NotPairAppend(cut, [seg]);
          if !IsPairReply(seg) {
            parsed := parsed + [seg];
          }
          cut := cut + [seg];
          begin := 0;
          end := 0;
        } else {
          SkipStep(s, i, b0);
        }
        i := i + 1;
      }
      SkipStep(s, len, begin);
      assert cut + [] == cut;
    }
  }

  /** One sentence on the wire: '$', the body, CR, LF. */
  function Sentence(body: seq<byte>): seq<byte>
  {
    [Dollar] + body + [CR, LF]
  }

  function Stream(bodies: seq<seq<byte>>): seq<byte>
  {
    if |bodies| == 0 then [] else Sentence(bodies[0]) + Stream(bodies[1..])
  }

  predicate PlainBody(body: seq<byte>)
  {
    forall m :: 0 <= m < |body| ==> body[m] != Dollar && body[m] != CR
  }

  function WithDollar(bodies: seq<seq<byte>>): (r: seq<seq<byte>>)
    ensures |r| == |bodies|
    ensures forall k :: 0 <= k < |bodies| ==> r[k] == [Dollar] + bodies[k]
  {
    if |bodies| == 0 then [] else [[Dollar] + bodies[0]] + WithDollar(bodies[1..])
  }

  lemma {:induction false} SkipPlain(s: seq<byte>, from: nat, to: nat, begin: nat)
    requires begin <= from <= to <= |s|
    requires forall m :: from <= m < to ==> s[m] != Dollar && s[m] != CR
    ensures Segments(s, from, begin) == Segments(s, to, begin)
    decreases |s| - from
  {
    if from < to {
      SkipPlain(s, from + 1, to, begin);
    }
  }

  /** Splitting a stream of well-formed sentences gives back each sentence,
      '$' included, without its line end. */
  lemma {:induction false} SplitStream(p: seq<byte>, bodies: seq<seq<byte>>, begin: nat)
    requires begin <= |p|
    requires forall k :: 0 <= k < |bodies| ==> PlainBody(bodies[k])
    ensures Segments(p + Stream(bodies), |p|, begin) == WithDollar(bodies)
    decreases |bodies|
  {
    var s := p + Stream(bodies);
    if |bodies| == 0 {
      assert s == p;
    } else {
      var b := bodies[0];
      var q := p + Sentence(b);
      assert s == q + Stream(bodies[1..]);
      var at := |p|;
      var crAt := at + 1 + |b|;
      assert s[at] == Dollar;
      assert Segments(s, at, begin) == Segments(s, at + 1, at);
      forall m | at + 1 <= m < crAt
        ensures s[m] != Dollar && s[m] != CR
      {
        assert s[m] == b[m - at - 1];
      }
      SkipPlain(s, at + 1, crAt, at);
      assert s[crAt] == CR && s[crAt + 1] == LF;
      assert s[at..crAt] == [Dollar] + b;
      assert Segments(s, crAt, at) == [[Dollar] + b] + Segments(s, crAt + 1, 0);
      assert Segments(s, crAt + 1, 0) == Segments(s, crAt + 2, 0);
      assert |q| == crAt + 2;
      SplitStream(q, bodies[1..], 0);
      assert WithDollar(bodies) == [[Dollar] + b] + WithDollar(bodies[1..]);
    }
  }

  /** The round trip from the start of a received chunk. */
  lemma SplitWholeStream(bodies: seq<seq<byte>>)
    requires forall k :: 0 <= k < |bodies| ==> PlainBody(bodies[k])
    ensures Segments(Stream(bodies), 0, 0) == WithDollar(bodies)
  {
    SplitStream([], bodies, 0);
    assert [] + Stream(bodies) == Stream(bodies);
  }

  /** After a cut `begin` is 0, so a second '\r' with no '$' in between
      hands the whole text from index 0 to the parser: "$A\r\r" gives "$A"
      and then "$A\r". */
  lemma StaleBeginAfterCut()
    ensures Segments([Dollar, 0x41, CR, CR], 0, 0) == [[Dollar, 0x41], [Dollar, 0x41, CR]]
  {
    var s: seq<byte> := [Dollar, 0x41, CR, CR];
    assert Segments(s, 3, 0) == [s[0..3]] + Segments(s, 4, 0);
    assert Segments(s, 2, 0) == [s[0..2]] + Segments(s, 3, 0);
    assert s[0..2] == [Dollar, 0x41] && s[0..3] == [Dollar, 0x41, CR];
  }

  // ---------------------------------------------------------------------
  // $PAIR382 sleep lock / unlock
  // ---------------------------------------------------------------------

  /** `%X` digit. */
  function HexDigit(v: int): byte
    requires 0 <= v < 16
  {
    if v < 10 then 0x30 + v else 0x41 + v - 10
  }

  /** `%02X` of a byte. */
  function Hex2(b: byte): seq<byte>
  {
    [HexDigit(b / 16), HexDigit(b % 16)]
  }

  /** "PAIR382,1" (lock) or "PAIR382,0" (unlock). */
  function Pair382Body(lock: bool): seq<byte>
  {
    [0x50, 0x41, 0x49, 0x52, 0x33, 0x38, 0x32, 0x2C, if lock then 0x31 else 0x30]
  }

  /** A complete command "$" + body + "*" + checksum + CR LF. */
  function Command(body: seq<byte>): seq<byte>
  {
    [Dollar] + body + [Star] + Hex2(Checksum(body)) + [CR, LF]
  }

  /** The `sprintf` of a driver command: "$" + `body` + "*HH\r\n", with
      the checksum from `app_nmea_check_sum`. */
  method FormatCommand(body: seq<byte>) returns (cmd: seq<byte>)
    requires |body| + 1 < 256
    ensures cmd == Command(body)
  {
    var check := AppNmeaCheckSum([Dollar] + body);
    AppNmeaCheckSumIsChecksum(body);
    cmd := [Dollar] + body + [Star] + Hex2(check) + [CR, LF];
  }

  /** The send loop of the lock and unlock commands: `times` calls of
      `hal_uart_0_tx`. */
  method SendRepeated(port: HalUart.Port, cmd: seq<byte>, times: nat)
    modifies port
    ensures port.initialised == old(port.initialised)
    ensures port.sent == old(port.sent) + (if port.initialised then Repeat(cmd, times) else [])
  {
    var i := 0;
    while i < times
      invariant 0 <= i <= times && port.initialised == old(port.initialised)
      invariant port.sent == old(port.sent) + (if port.initialised then Repeat(cmd, i) else [])
    {
      port.Tx(cmd);
      RepeatOneMore(cmd, i);
      i := i + 1;
    }
  }

  /** `gnss_scan_lock_sleep` (`lock`) and `gnss_scan_unlock_sleep`: send
      "$PAIR382,1*HH\r\n" 25 times, or "$PAIR382,0*HH\r\n" 4 times. */
  method SleepLock(port: HalUart.Port, lock: bool) returns (cmd: seq<byte>)
    modifies port
    ensures cmd == Command(Pair382Body(lock))
    ensures port.initialised == old(port.initialised)
    ensures port.sent == old(port.sent) + (if port.initialised then Repeat(cmd, if lock then 25 else 4) else [])
  {
    cmd := FormatCommand(Pair382Body(lock));
    SendRepeated(port, cmd, if lock then 25 else 4);
  }

  /** `n` copies of `s` back to back. */
  function Repeat(s: seq<byte>, n: nat): seq<byte>
  {
    if n == 0 then [] else Repeat(s, n - 1) + s
  }

  lemma RepeatOneMore(s: seq<byte>, n: nat)
    ensures Repeat(s, n + 1) == Repeat(s, n) + s
  {
  }

  /** Every command this driver formats checks out with the assistance
      module's checksum routine. */
  lemma CommandChecksOut(body: seq<byte>)
    requires forall m :: 0 <= m < |body| ==> body[m] != 0 && body[m] != Star
    ensures var c := Command(body); c[1..BodyEnd(c, 1)] == body
  {
    var c := Command(body);
    assert c == [Dollar] + body + [Star] + (Hex2(Checksum(body)) + [CR, LF]);
    ChecksumsAgree(body, Hex2(Checksum(body)) + [CR, LF]);
  }
}
