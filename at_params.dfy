/** The parameter side of the AT interface: the character classes and
    hexadecimal readers of the command arguments, and the setters that
    validate an argument and store it into the persistent configuration
    `app_param`, raising the "device information changed" flag when the
    stored value changes. */
module AtParams {
  import opened Bytes
  import HalMcu
  import AtCommand
  import opened Regions

  // ---------------------------------------------------------------------
  // Characters
  // ---------------------------------------------------------------------

  /** `isHex(c) == 0`: the same digit classes the HAL's hexadecimal
      decoder reads, so no separator or line ending passes. */
  predicate IsHex(c: char): (r: bool)
    ensures r <==> HalMcu.IsHexDigit(c)
    ensures r ==> c != ':' && c != '\r' && c != '\n' && c != '\0'
  {
    ('0' <= c <= '9') || ('a' <= c <= 'f') || ('A' <= c <= 'F')
  }

  /** `isNum(c) == 0`: the decimal digits are exactly the hexadecimal
      digits below the letters. */
  predicate IsNum(c: char): (r: bool)
    ensures r <==> IsHex(c) && c <= '9'
  {
    '0' <= c <= '9'
  }

  /** `ascii_4bit_to_hex`: the value of a hexadecimal digit of either case,
      -1 for every other character. */
  function Nibble(c: char): (r: int)
    ensures r == -1 || 0 <= r < 16
    ensures r >= 0 <==> IsHex(c)
    ensures IsHex(c) <==> HalMcu.IsHexDigit(c)
    ensures r >= 0 ==> r == HalMcu.HexDigitValue(c)
    ensures IsNum(c) ==> r == c as int - '0' as int
  {
    if '0' <= c <= '9' then c as int - 0x30
    else if 'a' <= c <= 'f' then c as int - 'a' as int + 10
    else if 'A' <= c <= 'F' then c as int - 'A' as int + 10
    else -1
  }

  // ---------------------------------------------------------------------
  // Data_Analysis: "HH:HH:...:HH"
  // ---------------------------------------------------------------------

  /** Both digits of the `j`-th byte of a colon list are hexadecimal. */
  predicate PairOk(param: string, j: int)
  {
    Nibble(HalMcu.CharAt(param, 3 * j)) >= 0 && Nibble(HalMcu.CharAt(param, 3 * j + 1)) >= 0
  }

  /** The `j`-th byte of a colon list: three characters per byte, the
      third one (the separator) never looked at. */
  function PairByte(param: string, j: int): byte
  {
    var hi, lo := Nibble(HalMcu.CharAt(param, 3 * j)), Nibble(HalMcu.CharAt(param, 3 * j + 1));
    if hi >= 0 && lo >= 0 then hi * 16 + lo else 0
  }

  /** What `Data_Analysis(param, buff, n)` reads: the `n` bytes when all
      `2 * n` digits are hexadecimal, nothing otherwise. */
  function Analysed(param: string, n: nat): Option<seq<byte>>
  {
    if forall j :: 0 <= j < n ==> PairOk(param, j) then Some(seq(n, j => PairByte(param, j)))
    else None
  }

  /** `Data_Analysis`: `ok` is its return value 0. */
  method DataAnalysis(param: string, buff: array<byte>, n: nat) returns (ok: bool)
    requires n <= buff.Length && 3 * n < 256
    modifies buff
    ensures ok <==> Analysed(param, n).Some?
    ensures ok ==> buff[..n] == Analysed(param, n).value
  {
    var paramLength := 0;
    var j := 0;
    while j < n
      invariant 0 <= j <= n && paramLength == 3 * j
      invariant forall k :: 0 <= k < j ==> PairOk(param, k) && buff[k] == PairByte(param, k)
    {
      if paramLength > |param| {
        assert !PairOk(param, j);
        return false;
      }
      var result := Nibble(HalMcu.CharAt(param, paramLength));
      paramLength := paramLength + 1;
      if result == -1 {
        assert !PairOk(param, j);
        return false;
      }
      buff[j] := result * 16;
      result := Nibble(HalMcu.CharAt(param, paramLength));
      paramLength := paramLength + 1;
      if result == -1 {
        assert !PairOk(param, j);
        return false;
      }
      buff[j] := buff[j] + result;
      paramLength := paramLength + 1;     // the separator
      j := j + 1;
    }
    assert buff[..n] == seq(n, k => PairByte(param, k));
    ok := true;
  }

  /** The text the getters print for a byte field (without the quotes):
      upper-case digit pairs separated by colons. */
  function ColonHex(b: seq<byte>): (t: string)
    ensures |b| > 0 ==> |t| == 3 * |b| - 1
    ensures |b| == 0 ==> t == []
  {
    if |b| == 0 then []
    else if |b| == 1 then [HalMcu.HexChar(b[0] / 16), HalMcu.HexChar(b[0] % 16)]
    else [HalMcu.HexChar(b[0] / 16), HalMcu.HexChar(b[0] % 16), ':'] + ColonHex(b[1..])
  }

  lemma {:induction false} ColonHexChars(b: seq<byte>, k: nat)
    requires k < |b|
    ensures ColonHex(b)[3 * k] == HalMcu.HexChar(b[k] / 16)
    ensures ColonHex(b)[3 * k + 1] == HalMcu.HexChar(b[k] % 16)
  {
    if k > 0 {
      ColonHexChars(b[1..], k - 1);
    }
  }

  /** A colon list read back from what the getters print, followed by
      any terminator, gives the bytes it was printed from. */
  lemma AnalysedColonHex(b: seq<byte>, tail: string)
    ensures Analysed(ColonHex(b) + tail, |b|) == Some(b)
  {
    var p := ColonHex(b) + tail;
    forall j | 0 <= j < |b|
      ensures PairOk(p, j) && PairByte(p, j) == b[j]
    {
      ColonHexPair(b, tail, j);
    }
    AnalysedFromPairs(p, b);
  }

  lemma AnalysedFromPairs(p: string, b: seq<byte>)
    requires forall j :: 0 <= j < |b| ==> PairOk(p, j) && PairByte(p, j) == b[j]
    ensures Analysed(p, |b|) == Some(b)
  {
    assert seq(|b|, j => PairByte(p, j)) == b;
  }

  lemma ColonHexPair(b: seq<byte>, tail: string, j: nat)
    requires j < |b|
    ensures PairOk(ColonHex(b) + tail, j) && PairByte(ColonHex(b) + tail, j) == b[j]
  {
    var p := ColonHex(b) + tail;
    ColonHexChars(b, j);
    assert HalMcu.CharAt(p, 3 * j) == HalMcu.HexChar(b[j] / 16);
    assert HalMcu.CharAt(p, 3 * j + 1) == HalMcu.HexChar(b[j] % 16);
  }

  /** The separators are never read: two arguments that differ only in
      the characters at positions 3j+2 read the same. */
  lemma SeparatorsIgnored(p: string, q: string, n: nat)
    requires forall i :: 0 <= i < 3 * n && i % 3 != 2 ==> HalMcu.CharAt(p, i) == HalMcu.CharAt(q, i)
    ensures Analysed(p, n) == Analysed(q, n)
  {
    forall j | 0 <= j < n
      ensures PairOk(p, j) == PairOk(q, j) && PairByte(p, j) == PairByte(q, j)
    {
      assert (3 * j) % 3 == 0 && (3 * j + 1) % 3 == 1;
      assert HalMcu.CharAt(p, 3 * j) == HalMcu.CharAt(q, 3 * j);
      assert HalMcu.CharAt(p, 3 * j + 1) == HalMcu.CharAt(q, 3 * j + 1);
    }
    assert seq(n, j => PairByte(p, j)) == seq(n, j => PairByte(q, j));
  }

  /** What a byte-field setter accepts: exactly `3 * n + 1` characters
      (the list and its CR LF) that `Data_Analysis` can read. */
  function ByteParam(param: string, n: nat): Option<seq<byte>>
  {
    if |param| != 3 * n + 1 then None else Analysed(param, n)
  }

  /** The argument "HH:...:HH\r\n" for a field of `n` bytes is accepted
      and stores exactly those bytes. */
  lemma ByteParamAcceptsColonHex(b: seq<byte>)
    requires |b| > 0
    ensures ByteParam(ColonHex(b) + "\r\n", |b|) == Some(b)
  {
    AnalysedColonHex(b, "\r\n");
  }

  // ---------------------------------------------------------------------
  // stringToData: "HHHH..."
  // ---------------------------------------------------------------------

  /** What `stringToData(str, data, size)` reads: `size` bytes of two
      adjacent digits each, with no separator. */
  function PackedHex(str: string, size: nat): Option<seq<byte>>
  {
    if forall k :: 0 <= k < size ==> DigitPair(str, k)
    then Some(seq(size, k => PairValue(str, k)))
    else None
  }

  /** Characters `2k` and `2k+1` are both hexadecimal digits. */
  predicate DigitPair(str: string, k: int)
  {
    IsHex(HalMcu.CharAt(str, 2 * k)) && IsHex(HalMcu.CharAt(str, 2 * k + 1))
  }

  /** The byte spelt by characters `2k` and `2k+1`. */
  function PairValue(str: string, k: int): byte
  {
    var hi, lo := Nibble(HalMcu.CharAt(str, 2 * k)), Nibble(HalMcu.CharAt(str, 2 * k + 1));
    if hi >= 0 && lo >= 0 then hi * 16 + lo else 0
  }

  /** The upper-case text of `b`, whatever follows it, spells `b[k]` at
      pair `k`. */
  lemma HexTextPair(b: seq<byte>, tail: string, k: nat)
    requires k < |b|
    ensures DigitPair(HalMcu.HexText(b) + tail, k) && PairValue(HalMcu.HexText(b) + tail, k) == b[k]
  {
    var t := HalMcu.HexText(b) + tail;
    HalMcu.HexTextChars(b, k);
    assert HalMcu.CharAt(t, 2 * k) == HalMcu.HexChar(b[k] / 16);
    assert HalMcu.CharAt(t, 2 * k + 1) == HalMcu.HexChar(b[k] % 16);
  }

  lemma PairsSpell(t: string, b: seq<byte>)
    requires forall k :: 0 <= k < |b| ==> PairValue(t, k) == b[k]
    ensures seq(|b|, k => PairValue(t, k)) == b
  {
  }

  /** `stringToData`: `ok` is its return value 0. Its test for an odd
      number of digits (a NUL or a comma as second digit) is never reached,
      since neither is a hexadecimal digit; `Char2Nibble` is read as the
      digit value. */
  method StringToData(str: string, data: array<byte>, size: nat) returns (ok: bool)
    requires size <= data.Length
    modifies data
    ensures ok <==> PackedHex(str, size).Some?
    ensures ok ==> data[..size] == PackedHex(str, size).value
  {
    var ii := 0;
    while ii < size
      invariant 0 <= ii <= size
      invariant forall k :: 0 <= k < ii ==> DigitPair(str, k) && data[k] == PairValue(str, k)
    {
      var h0, h1 := HalMcu.CharAt(str, 2 * ii), HalMcu.CharAt(str, 2 * ii + 1);
      if !IsHex(h0) || !IsHex(h1) {
        assert !DigitPair(str, ii);
        return false;
      }
      data[ii] := Nibble(h0) * 16 + Nibble(h1);
      ii := ii + 1;
    }
    assert data[..size] == seq(size, k => PairValue(str, k));
    ok := true;
  }

  /** The upper-case text of a byte string reads back as that string. */
  lemma PackedHexOfHexText(b: seq<byte>)
    ensures PackedHex(HalMcu.HexText(b), |b|) == Some(b)
  {
    var t := HalMcu.HexText(b);
    forall k | 0 <= k < |b|
      ensures DigitPair(t, k) && PairValue(t, k) == b[k]
    {
      HexTextPair(b, [], k);
      assert t + [] == t;
    }
    PairsSpell(t, b);
  }

  // ---------------------------------------------------------------------
  // uint64_to_bytes and the DevAddr composition
  // ---------------------------------------------------------------------

  lemma DivDiv(v: nat, p: nat)
    requires p >= 1
    ensures v / 256 / p == v / (256 * p)
  {
    var q := v / 256;
    var a, b := q / p, q % p;
    assert v == 256 * q + v % 256;
    assert v == (256 * p) * a + (256 * b + v % 256) by {
      assert 256 * q == (256 * p) * a + 256 * b by {
        assert q == p * a + b;
      }
    }
    assert 256 * b + v % 256 < 256 * p by {
      assert b <= p - 1;
      assert 256 * b <= 256 * (p - 1);
    }
    ModUnique(v, 256 * p, a, 256 * b + v % 256);
  }

  /** Byte `k` of the little-endian image of `v`. */
  lemma {:induction false} LEAt(v: nat, n: nat, k: nat)
    requires k < n
    ensures LE(v, n)[k] == ToByte(v / Pow256(k))
    decreases k
  {
    if k > 0 {
      assert LE(v, n) == [ToByte(v)] + LE(v / 256, n - 1);
      LEAt(v / 256, n - 1, k - 1);
      DivDiv(v, Pow256(k - 1));
    }
  }

  /** Byte `i` of the big-endian image of `v` on `n` bytes. */
  lemma BEAt(v: nat, n: nat, i: nat)
    requires i < n
    ensures BE(v, n)[i] == ToByte(v / Pow256(n - 1 - i))
  {
    LEAt(v, n, n - 1 - i);
  }

  /** `uint64_to_bytes(data, bytes)`: `bytes[0]` is the most significant
      byte. */
  method U64ToBytes(data: nat, bytes: array<byte>)
    requires data < Pow256(8) && bytes.Length >= 8
    modifies bytes
    ensures bytes[..8] == BE(data, 8)
    ensures bytes[8..] == old(bytes[8..])
  {
    U64Image(data);
    hide *;
    bytes[0] := ToByte(data / Pow256(7));
    bytes[1] := ToByte(data / Pow256(6));
    bytes[2] := ToByte(data / Pow256(5));
    bytes[3] := ToByte(data / Pow256(4));
    bytes[4] := ToByte(data / Pow256(3));
    bytes[5] := ToByte(data / Pow256(2));
    bytes[6] := ToByte(data / Pow256(1));
    bytes[7] := ToByte(data / Pow256(0));
  }

  /** The eight shifted bytes of `uint64_to_bytes` spell the big-endian
      image of the value. */
  lemma U64Image(data: nat)
    ensures BE(data, 8) == [ToByte(data / Pow256(7)), ToByte(data / Pow256(6)), ToByte(data / Pow256(5)),
                            ToByte(data / Pow256(4)), ToByte(data / Pow256(3)), ToByte(data / Pow256(2)),
                            ToByte(data / Pow256(1)), ToByte(data / Pow256(0))]
  {
    hide *;
    BEAt(data, 8, 0); BEAt(data, 8, 1); BEAt(data, 8, 2); BEAt(data, 8, 3);
    BEAt(data, 8, 4); BEAt(data, 8, 5); BEAt(data, 8, 6); BEAt(data, 8, 7);
  }

  /** The `DevAddr` that `AT_DevAddr_set` composes from its four bytes
      with shifts: the big-endian value of the list. */
  function ComposeDevAddr(b: seq<byte>): (a: int)
    requires |b| == 4
    ensures a == ValueBE(b) && 0 <= a < U32
  {
    ValueBE4(b);
    b[0] as int * 0x100_0000 + b[1] as int * 0x1_0000 + b[2] as int * 0x100 + b[3] as int
  }

  lemma ValueBE4(b: seq<byte>)
    requires |b| == 4
    ensures ValueBE(b) == b[0] as int * 0x100_0000 + b[1] as int * 0x1_0000 + b[2] as int * 0x100 + b[3] as int
  {
    assert b[..3][..2] == b[..2] && b[..2][..1] == b[..1] && b[..1][..0] == [];
    assert ValueBE(b[..1]) == b[0];
    assert ValueBE(b[..2]) == b[0] as int * 256 + b[1] as int;
    assert ValueBE(b[..3]) == (b[0] as int * 256 + b[1] as int) * 256 + b[2] as int;
  }

  /** An address printed big-endian reads back as that address. */
  lemma DevAddrRoundTrip(a: int)
    requires 0 <= a < U32
    ensures ByteParam(ColonHex(BE(a, 4)) + "\r\n", 4) == Some(BE(a, 4))
    ensures ComposeDevAddr(BE(a, 4)) == a
  {
    ByteParamAcceptsColonHex(BE(a, 4));
    BEValue4(a);
  }

  lemma BEValue4(a: int)
    requires 0 <= a < U32
    ensures ValueBE(BE(a, 4)) == a
  {
    hide *;
    ValueBEOfBE(a, 4);
    Pow256Four();
  }

  // ---------------------------------------------------------------------
  // The configuration and its validators
  // ---------------------------------------------------------------------

  /** The byte-string fields of `app_param` the AT setters write. */
  datatype ByteField = JoinEui | NwkKey | AppKey | NwkSKey | AppSKey | DevEui | DeviceCode | Sn | DeviceKey

  /** The size of each field (`SE_EUI_SIZE`, `SE_KEY_SIZE`, nine for the
      serial number). */
  function Width(f: ByteField): nat
  {
    match f
    case JoinEui => 8
    case DevEui => 8
    case DeviceCode => 8
    case Sn => 9
    case _ => 16
  }

  /** The numeric fields of `app_param` the AT setters write. */
  datatype Setting =
    | ActiveRegion | ActivationType | ChannelGroup | Platform | AdrEnabled | DrMin | DrMax | Retry
    | PosStrategy | PosInterval | SosMode | AccEnabled | GnssOvertime | BeaconOvertime | BeaconMax | WifiMax

  const ActivationAbp: int := 1
  const ActivationOtaa: int := 2
  const RetryUnconfirmed: int := 0     // RETRY_STATE_1N
  const RetryConfirmed: int := 1       // RETRY_STATE_1C
  const PlatformMax: int := 3          // IOT_PLATFORM_MAX
  const MaxPosInterval: int := 7 * 24 * 60

  type Settings = map<Setting, int>

  predicate Complete(m: Settings)
  {
    forall s: Setting :: s in m
  }

  /** The data-rate window of `LR_DR_MIN`/`LR_DR_MAX` for a region. */
  predicate DrWindow(region: int, dr: int)
  {
    if LoRaMacAs923Family(region) then 3 <= dr <= 5
    else if region == LoRaMacAu915 then 3 <= dr <= 6
    else if region == LoRaMacUs915 then 1 <= dr <= 4
    else if region in {LoRaMacEu868, LoRaMacKr920, LoRaMacIn865, LoRaMacRu864} then dr <= 5
    else dr <= 6
  }

  /** The regions `AT+BAND` refuses. */
  predicate RegionRefused(v: int)
  {
    (v > LoRaMacAsGp4 && v != LoRaMacRegionMax) || v == LoRaMacCn470 || v == LoRaMacCn779 || v == LoRaMacEu433
  }

  /** Whether the setter of `s` accepts the scanned value `v`, given the
      argument length `len` and the current settings. */
  predicate Accepts(s: Setting, v: int, len: nat, m: Settings)
    requires Complete(m)
  {
    match s
    case ActiveRegion => !RegionRefused(v)
    case ActivationType => v <= ActivationOtaa
    case ChannelGroup => v <= 7 && m[ActiveRegion] in {LoRaMacUs915, LoRaMacAu915}
    case Platform => v < PlatformMax
    case AdrEnabled => len == 3 && v <= 1
    case DrMin => len == 3 && DrWindow(m[ActiveRegion], v) && v <= m[DrMax]
    case DrMax => len == 3 && DrWindow(m[ActiveRegion], v) && v >= m[DrMin]
    case Retry => v == RetryUnconfirmed || v == RetryConfirmed
    case PosStrategy => len == 3 && v <= 7
    case PosInterval => 1 <= v <= MaxPosInterval
    case SosMode => len == 3 && v <= 1
    case AccEnabled => len == 3 && v <= 1
    case GnssOvertime => 10 <= v <= 120
    case BeaconOvertime => 3 <= v <= 10
    case BeaconMax => 3 <= v <= 5
    case WifiMax => 3 <= v <= 5
  }

  /** The value stored for an accepted `v`: `AT+TYPE` stores ABP for
      every value other than OTAA. */
  function Stored(s: Setting, v: int): int
  {
    if s == ActivationType && v != ActivationOtaa then ActivationAbp else v
  }

  /** Every setting within the range its setter enforces. */
  predicate InRange(m: Settings)
    requires Complete(m)
  {
    && !RegionRefused(m[ActiveRegion])
    && m[ActivationType] in {ActivationAbp, ActivationOtaa}
    && 0 <= m[ChannelGroup] <= 7
    && 0 <= m[DrMin] <= m[DrMax]
    && m[Retry] in {RetryUnconfirmed, RetryConfirmed}
    && 0 <= m[PosStrategy] <= 7
    && 1 <= m[PosInterval] <= MaxPosInterval
    && 10 <= m[GnssOvertime] <= 120
    && 3 <= m[BeaconOvertime] <= 10
    && 3 <= m[BeaconMax] <= 5
    && 3 <= m[WifiMax] <= 5
  }

  /** The width of the scanned integer: `%hu` for `POS_INT`, `%hhu` for
      the others. */
  predicate Scanned(s: Setting, parsed: Option<int>)
  {
    parsed.Some? ==> 0 <= parsed.value < (if s == PosInterval then 0x1_0000 else 256)
  }

  /** The outcome of a numeric setter on settings `m`: its status, the
      new settings and whether the change flag is raised. */
  datatype Outcome = Outcome(status: nat, settings: Settings, flagged: bool)

  function SetOutcome(m: Settings, s: Setting, parsed: Option<int>, len: nat): (o: Outcome)
    requires Complete(m)
    ensures Complete(o.settings)
    ensures o.status == AtCommand.Ok <==> parsed.Some? && Accepts(s, parsed.value, len, m)
    ensures o.status != AtCommand.Ok ==> o.status == AtCommand.ParamError && o.settings == m && !o.flagged
    ensures forall t :: t != s ==> o.settings[t] == m[t]
  {
    if parsed.None? || !Accepts(s, parsed.value, len, m) then Outcome(AtCommand.ParamError, m, false)
    else if m[s] != parsed.value then Outcome(AtCommand.Ok, m[s := Stored(s, parsed.value)], true)
    else Outcome(AtCommand.Ok, m, false)
  }

  /** The setters keep every setting in its range, `DrMin <= DrMax`
      included. */
  lemma SetKeepsRanges(m: Settings, s: Setting, parsed: Option<int>, len: nat)
    requires Complete(m) && InRange(m) && Scanned(s, parsed)
    ensures InRange(SetOutcome(m, s, parsed, len).settings)
  {
    if parsed.Some? && Accepts(s, parsed.value, len, m) && m[s] != parsed.value {
      StoredInRange(m, s, parsed.value, len);
    }
  }

  lemma StoredInRange(m: Settings, s: Setting, v: int, len: nat)
    requires Complete(m) && InRange(m) && Scanned(s, Some(v)) && Accepts(s, v, len, m)
    ensures InRange(m[s := Stored(s, v)])
  {
    match s
    case ActiveRegion =>
    case ActivationType =>
    case ChannelGroup =>
    case Platform =>
    case AdrEnabled =>
    case DrMin =>
    case DrMax =>
    case Retry =>
    case PosStrategy =>
    case PosInterval =>
    case SosMode =>
    case AccEnabled =>
    case GnssOvertime =>
    case BeaconOvertime =>
    case BeaconMax =>
    case WifiMax =>
  }

  /** Apart from `AT+TYPE`, a setter raises the change flag exactly when
      the stored value changes. */
  lemma FlagIffChanged(m: Settings, s: Setting, parsed: Option<int>, len: nat)
    requires Complete(m) && s != ActivationType
    ensures SetOutcome(m, s, parsed, len).flagged <==> SetOutcome(m, s, parsed, len).settings != m
  {
    var o := SetOutcome(m, s, parsed, len);
    if o.flagged {
      assert o.settings[s] != m[s];
    }
  }

  /** Apart from `AT+TYPE`, setting a value a second time is accepted
      again and changes nothing. */
  lemma SetTwiceIsOnce(m: Settings, s: Setting, v: int, len: nat)
    requires Complete(m) && s != ActivationType
    requires SetOutcome(m, s, Some(v), len).status == AtCommand.Ok
    ensures var m1 := SetOutcome(m, s, Some(v), len).settings;
            SetOutcome(m1, s, Some(v), len) == Outcome(AtCommand.Ok, m1, false)
  {
    var m1 := SetOutcome(m, s, Some(v), len).settings;
    assert m1[s] == v;
    assert m1[ActiveRegion] == m[ActiveRegion] || s == ActiveRegion;
  }

  /** `AT+TYPE=0` stores ABP yet compares the stored ABP with 0, so
      repeating it raises the change flag every time. */
  lemma ActivationZeroAlwaysFlags(m: Settings)
    requires Complete(m) && m[ActivationType] == ActivationAbp
    ensures SetOutcome(m, ActivationType, Some(0), 3) == Outcome(AtCommand.Ok, m, true)
  {
    assert m[ActivationType := ActivationAbp] == m;
  }

  /** A region change does not re-check the data-rate bounds: on EU868
      with bounds 0..5, `AT+BAND=8` (US915) is accepted and leaves a
      minimum outside the US915 window 1..4. */
  lemma RegionChangeKeepsDataRates(m: Settings)
    requires Complete(m) && m[ActiveRegion] == LoRaMacEu868 && m[DrMin] == 0 && m[DrMax] == 5
    ensures var o := SetOutcome(m, ActiveRegion, Some(LoRaMacUs915), 3);
            o.status == AtCommand.Ok && o.settings[ActiveRegion] == LoRaMacUs915
            && !DrWindow(o.settings[ActiveRegion], o.settings[DrMin])
  {
  }

  // ---------------------------------------------------------------------
  // BEAC_UUID
  // ---------------------------------------------------------------------

  /** The filter `AT_BEAC_UUID_set` reads: `strlen - 2` digits taken as a
      `uint8_t` (so it wraps), even and at most 32, all hexadecimal. */
  function UuidParam(param: string): (r: Option<seq<byte>>)
    ensures r.Some? ==> |r.value| <= 16
  {
    var n := ToByte(|param| - 2);
    if n % 2 != 0 || n > 32 || |param| < 2 then None
    else if forall i :: 0 <= i < n ==> IsHex(param[i]) then Some(seq(n / 2, k => PairValue(param, k)))
    else None
  }

  /** The upper-case text of up to 16 bytes, with its two-character
      terminator, sets the filter to those bytes. */
  lemma UuidParamOfHexText(b: seq<byte>, tail: string)
    requires |b| <= 16 && |tail| == 2
    ensures UuidParam(HalMcu.HexText(b) + tail) == Some(b)
  {
    var p := HalMcu.HexText(b) + tail;
    forall k | 0 <= k < |b|
      ensures DigitPair(p, k) && PairValue(p, k) == b[k]
    {
      HexTextPair(b, tail, k);
    }
    UuidParamFromPairs(p, b);
  }

  lemma UuidParamFromPairs(p: string, b: seq<byte>)
    requires |b| <= 16 && |p| == 2 * |b| + 2
    requires forall k :: 0 <= k < |b| ==> DigitPair(p, k) && PairValue(p, k) == b[k]
    ensures UuidParam(p) == Some(b)
  {
    assert ToByte(|p| - 2) == 2 * |b|;
    forall i | 0 <= i < 2 * |b|
      ensures IsHex(p[i])
    {
      var k := i / 2;
      assert DigitPair(p, k);
      if i == 2 * k {
        assert HalMcu.CharAt(p, 2 * k) == p[i];
      } else {
        assert HalMcu.CharAt(p, 2 * k + 1) == p[i];
      }
    }
    PairsSpell(p, b);
  }

  /** The length wraps: any argument of 258 characters is accepted as an
      empty filter, which lets every beacon through. */
  lemma UuidLengthWraps(param: string)
    requires |param| == 258
    ensures UuidParam(param) == Some([])
  {
  }

  /** An argument shorter than its CR LF is refused. */
  lemma UuidShortRefused(param: string)
    requires |param| < 2
    ensures UuidParam(param).None?
  {
  }

  /** `app_param` as far as the AT setters write it, and the
      `DEVICE_INFO_CHANGE` bit of `at_config_flag`. */
  class AppParam {
    var bytes: map<ByteField, seq<byte>>
    var devAddr: int
    var settings: Settings
    var beaconUuid: seq<byte>
    var uuidNum: int
    var infoChanged: bool

    ghost predicate Valid()
      reads this
    {
      (forall f: ByteField :: f in bytes && |bytes[f]| == Width(f))
      && Complete(settings) && |beaconUuid| == 16 && 0 <= devAddr < U32
    }

    /** The configuration as loaded from flash. */
    constructor (bytes: map<ByteField, seq<byte>>, devAddr: int, settings: Settings, beaconUuid: seq<byte>, uuidNum: int)
      requires forall f: ByteField :: f in bytes && |bytes[f]| == Width(f)
      requires Complete(settings) && |beaconUuid| == 16 && 0 <= devAddr < U32
      ensures Valid() && !infoChanged
      ensures this.bytes == bytes && this.devAddr == devAddr && this.settings == settings
      ensures this.beaconUuid == beaconUuid && this.uuidNum == uuidNum
    {
      this.bytes := bytes;
      this.devAddr := devAddr;
      this.settings := settings;
      this.beaconUuid := beaconUuid;
      this.uuidNum := uuidNum;
      infoChanged := false;
    }

    /** `AT_JoinEUI_set`, `AT_NwkKey_set`, `AT_AppKey_set`,
        `AT_NwkSKey_set`, `AT_AppSKey_set`, `AT_DevEUI_set`,
        `AT_DevCODE_set`, `AT_Sn_set` and `AT_DeviceKey_set`: the field
        is overwritten, and the flag raised, only when the value differs. */
    method SetBytes(f: ByteField, param: string) returns (status: nat)
      requires Valid()
      modifies this
      ensures Valid()
      ensures var p := ByteParam(param, Width(f));
              && (status == AtCommand.Ok <==> p.Some?)
              && (p.Some? ==> bytes == old(bytes)[f := p.value]
                              && infoChanged == (old(infoChanged) || old(bytes[f]) != p.value))
              && (p.None? ==> status == AtCommand.ParamError && bytes == old(bytes)
                              && infoChanged == old(infoChanged))
      ensures devAddr == old(devAddr) && settings == old(settings)
      ensures beaconUuid == old(beaconUuid) && uuidNum == old(uuidNum)
    {
      var buf := new byte[Width(f)];
      var ok := DataAnalysis(param, buf, Width(f));
      if !ok || |param| != 3 * Width(f) + 1 {
        return AtCommand.ParamError;
      }
      var v := buf[..];
      assert v == buf[..Width(f)];
      if bytes[f] != v {
        bytes := bytes[f := v];
        infoChanged := true;
      }
      status := AtCommand.Ok;
    }

    /** `AT_DevAddr_set`: four bytes composed big-endian. */
    method SetDevAddr(param: string) returns (status: nat)
      requires Valid()
      modifies this
      ensures Valid()
      ensures var p := ByteParam(param, 4);
              && (status == AtCommand.Ok <==> p.Some?)
              && (p.Some? ==> devAddr == ValueBE(p.value)
                              && infoChanged == (old(infoChanged) || old(devAddr) != ValueBE(p.value)))
              && (p.None? ==> status == AtCommand.ParamError && devAddr == old(devAddr)
                              && infoChanged == old(infoChanged))
      ensures bytes == old(bytes) && settings == old(settings)
      ensures beaconUuid == old(beaconUuid) && uuidNum == old(uuidNum)
    {
      var tmp := new byte[4];
      var ok := DataAnalysis(param, tmp, 4);
      if !ok || |param| != 13 {
        return AtCommand.ParamError;
      }
      var a := tmp[0] as int * 0x100_0000 + tmp[1] as int * 0x1_0000 + tmp[2] as int * 0x100 + tmp[3] as int;
      assert tmp[..] == tmp[..4];
      assert a == ComposeDevAddr(tmp[..]);
      if devAddr != a {
        devAddr := a;
        infoChanged := true;
      }
      status := AtCommand.Ok;
    }

    /** The numeric setters, `parsed` being what `tiny_sscanf` scanned
        (None when it did not return 1) and `len` the argument's length. */
    method SetNumber(s: Setting, parsed: Option<int>, len: nat) returns (status: nat)
      requires Valid() && Scanned(s, parsed)
      modifies this
      ensures Valid()
      ensures var o := SetOutcome(old(settings), s, parsed, len);
              status == o.status && settings == o.settings && infoChanged == (old(infoChanged) || o.flagged)
      ensures bytes == old(bytes) && devAddr == old(devAddr)
      ensures beaconUuid == old(beaconUuid) && uuidNum == old(uuidNum)
    {
      ghost var o := SetOutcome(settings, s, parsed, len);
      if parsed.None? {
        return AtCommand.ParamError;
      }
      var v := parsed.value;
      var ok := Check(s, v, len);
      if !ok {
        return AtCommand.ParamError;
      }
      if settings[s] != v {
        assert o.settings == settings[s := Stored(s, v)];
        settings := settings[s := if s == ActivationType && v != ActivationOtaa then ActivationAbp else v];
        infoChanged := true;
      }
      status := AtCommand.Ok;
    }

    /** The validation branch of each numeric setter: a value it lets
        through, once stored, leaves every setting in range. */
    method Check(s: Setting, v: int, len: nat) returns (ok: bool)
      requires Valid()
      ensures ok == Accepts(s, v, len, settings)
      ensures ok && InRange(settings) && Scanned(s, Some(v)) ==> InRange(settings[s := Stored(s, v)])
    {
      hide InRange;
      match s {
        case ActiveRegion =>
          ok := !((v > LoRaMacAsGp4 && v != LoRaMacRegionMax) || v == LoRaMacCn470 || v == LoRaMacCn779 || v == LoRaMacEu433);
        case ActivationType => ok := v <= ActivationOtaa;
        case ChannelGroup =>
          ok := v <= 7 && (settings[ActiveRegion] == LoRaMacUs915 || settings[ActiveRegion] == LoRaMacAu915);
        case Platform => ok := v < PlatformMax;
        case AdrEnabled => ok := len == 3 && v <= 1;
        case DrMin =>
          ok := len == 3 && DrWindow(settings[ActiveRegion], v) && v <= settings[DrMax];
        case DrMax =>
          ok := len == 3 && DrWindow(settings[ActiveRegion], v) && v >= settings[DrMin];
        case Retry => ok := v == RetryUnconfirmed || v == RetryConfirmed;
        case PosStrategy => ok := len == 3 && v <= 7;
        case PosInterval => ok := !(v > MaxPosInterval || v < 1);
        case SosMode => ok := len == 3 && v <= 1;
        case AccEnabled => ok := len == 3 && v <= 1;
        case GnssOvertime => ok := !(v < 10 || v > 120);
        case BeaconOvertime => ok := !(v < 3 || v > 10);
        case BeaconMax => ok := !(v < 3 || v > 5);
        case WifiMax => ok := !(v < 3 || v > 5);
      }
      if ok && InRange(settings) && Scanned(s, Some(v)) {
        StoredInRange(settings, s, v, len);
      }
    }

    /** `AT_BEAC_UUID_set`: the digits are checked, then stored pair by
        pair; the flag is raised whatever was stored before. */
    method SetBeaconUuid(param: string) returns (status: nat)
      requires Valid()
      modifies this
      ensures Valid()
      ensures var p := UuidParam(param);
              && (status == AtCommand.Ok <==> p.Some?)
              && (p.Some? ==> beaconUuid == p.value + old(beaconUuid)[|p.value|..]
                              && uuidNum == |p.value| && infoChanged)
              && (p.None? ==> status == AtCommand.ParamError && beaconUuid == old(beaconUuid)
                              && uuidNum == old(uuidNum) && infoChanged == old(infoChanged))
      ensures bytes == old(bytes) && devAddr == old(devAddr) && settings == old(settings)
    {
      if |param| < 2 {
        // strlen - 2 wraps to 254 or 255: odd or above 32
        return AtCommand.ParamError;
      }
      var uuidLen := ToByte(|param| - 2);
      if uuidLen % 2 != 0 || uuidLen > 32 {
        return AtCommand.ParamError;
      }
      var digits := AllHex(param, uuidLen);
      if !digits {
        return AtCommand.ParamError;
      }
      ghost var b := UuidParam(param).value;
      assert |b| == uuidLen / 2;
      StoreUuid(param, uuidLen, b);
      uuidNum := uuidLen / 2;
      infoChanged := true;
      status := AtCommand.Ok;
    }

    /** The store loop of `AT_BEAC_UUID_set`: digit pair `k` becomes byte
        `k` of the UUID, the bytes after the last pair are kept. */
    method StoreUuid(param: string, n: nat, ghost b: seq<byte>)
      requires Valid() && n <= |param| && n % 2 == 0 && n <= 32
      requires forall i :: 0 <= i < n ==> IsHex(param[i])
      requires b == seq(n / 2, k => PairValue(param, k))
      modifies this
      ensures Valid() && beaconUuid == b + old(beaconUuid)[|b|..]
      ensures bytes == old(bytes) && devAddr == old(devAddr) && settings == old(settings)
      ensures uuidNum == old(uuidNum) && infoChanged == old(infoChanged)
    {
      var i := 0;
      while i < n
        invariant 0 <= i <= n && i % 2 == 0 && |beaconUuid| == 16
        invariant forall k :: 0 <= k < i / 2 ==> beaconUuid[k] == b[k]
        invariant forall k :: i / 2 <= k < 16 ==> beaconUuid[k] == old(beaconUuid)[k]
        invariant bytes == old(bytes) && devAddr == old(devAddr) && settings == old(settings)
        invariant uuidNum == old(uuidNum) && infoChanged == old(infoChanged)
      {
        var result := Nibble(param[i]);
        assert IsHex(param[i]) && IsHex(param[i + 1]);
        beaconUuid := beaconUuid[i / 2 := result * 16 + Nibble(param[i + 1])];
        assert beaconUuid[i / 2] == PairValue(param, i / 2);
        i := i + 2;
      }
      assert beaconUuid == b + old(beaconUuid)[|b|..];
    }
  }

  /** The digit check loop of `AT_BEAC_UUID_set`. */
  method AllHex(param: string, n: nat) returns (ok: bool)
    requires n <= |param|
    ensures ok <==> forall i :: 0 <= i < n ==> IsHex(param[i])
  {
    for i := 0 to n
      invariant forall k :: 0 <= k < i ==> IsHex(param[k])
    {
      if !IsHex(param[i]) {
        return false;
      }
    }
    ok := true;
  }
}
