/** The iBeacon scanner: advertisement reports are filtered, de-duplicated
    and stored in sixteen slots while a scan runs; the results are the
    strongest five beacons as 7-byte records (reversed MAC, RSSI).

    The peripheral driver and the tracker application carry two copies
    of this code that differ in two points, recorded by `Variant`: the
    peripheral one pads the results with 0xFF records to five and keeps a
    scanning flag, the application one does neither. */
module BleScan {
  import opened Bytes
  import HalMcu

  const SlotCount: int := 16           // BLE_BEACON_BUF_MAX
  const SendCount: int := 5            // BLE_BEACON_SEND_MUM
  const RecordSize: int := 7
  const BeaconDataLen: byte := 0x15
  const BeaconDataType: byte := 0x02
  const CompanyApple: int := 0x004C
  /** The advertising data start 5 bytes into the scan buffer; the
      iBeacon fields end at byte 24 of it. */
  const DataOffset: int := 5
  const ReportMinBytes: int := 30

  datatype Variant = Peripheral | Application

  /** One slot, `BleBeacons_t`: `power` is the measured power the beacon
      advertises, `rssi` the strength of its report (`rssi_`). */
  datatype Beacon = Beacon(companyId: int, uuid: seq<byte>, major: seq<byte>, minor: seq<byte>,
                           power: byte, rssi: int, mac: seq<byte>)

  const Empty: Beacon := Beacon(0, Zeros(16), Zeros(2), Zeros(2), 0, 0, Zeros(6))

  function Zeros(n: nat): (z: seq<byte>)
    ensures |z| == n && forall i :: 0 <= i < n ==> z[i] == 0
  {
    seq(n, _ => ZeroByte)
  }

  const ZeroByte: byte := 0

  /** An advertisement report: the length and bytes of the scan buffer,
      the report RSSI and the peer address. */
  datatype Report = Report(len: int, data: seq<byte>, rssi: int, mac: seq<byte>)

  predicate ReportOk(r: Report)
  {
    |r.data| >= ReportMinBytes && -128 <= r.rssi < 128 && |r.mac| == 6
  }

  /** The advertising data of a report. */
  function Payload(r: Report): (p: seq<byte>)
    requires ReportOk(r)
    ensures |p| >= 25
  {
    r.data[DataOffset..]
  }

  /** An Apple iBeacon: the data type, the little-endian company
      identifier and the data length of the advertisement. */
  predicate IsIBeacon(p: seq<byte>)
    requires |p| >= 25
  {
    p[2] == BeaconDataType && p[0] as int + 256 * p[1] as int == CompanyApple && p[3] == BeaconDataLen
  }

  /** The beacon a report describes. */
  function FromReport(r: Report): (b: Beacon)
    requires ReportOk(r)
  {
    var p := Payload(r);
    Beacon(p[0] as int + 256 * p[1] as int, p[4..20], p[20..22], p[22..24], p[24], r.rssi, r.mac)
  }

  /** The identity the de-duplication compares: UUID, major, minor and
      MAC (the measured power and the RSSI are not compared). */
  predicate Same(a: Beacon, b: Beacon)
  {
    a.uuid == b.uuid && a.major == b.major && a.minor == b.minor && a.mac == b.mac
  }

  predicate Wellformed(b: Beacon)
  {
    |b.uuid| == 16 && |b.major| == 2 && |b.minor| == 2 && |b.mac| == 6 && -128 <= b.rssi < 128
  }

  // ---------------------------------------------------------------------
  // The UUID filter
  // ---------------------------------------------------------------------

  /** `pat` occurs in `text` at position `i`. */
  predicate MatchAt(text: seq<char>, pat: seq<char>, i: int)
  {
    0 <= i <= |text| - |pat| && text[i..i + |pat|] == pat
  }

  /** `strstr(text, pat) != NULL`. */
  predicate Contains(text: seq<char>, pat: seq<char>)
  {
    exists i :: 0 <= i <= |text| - |pat| && MatchAt(text, pat, i)
  }

  /** The filter accepts a UUID when it is unset, or when the upper-case
      hexadecimal text of its `num` bytes occurs anywhere in that of the
      UUID, at a character position that need not be even. */
  predicate UuidAccepted(uuid: seq<byte>, filter: seq<byte>, num: int)
    requires 0 <= num <= |filter|
  {
    num == 0 || Contains(HalMcu.HexText(uuid), HalMcu.HexText(filter[..num]))
  }

  lemma {:induction false} HexTextAppend(b: seq<byte>, x: byte)
    ensures HalMcu.HexText(b + [x]) == HalMcu.HexText(b) + HalMcu.HexText([x])
    decreases |b|
  {
    if |b| > 0 {
      assert (b + [x])[1..] == b[1..] + [x];
      HexTextAppend(b[1..], x);
    }
  }

  /** A UUID always passes a filter that is a prefix of it. */
  lemma PrefixPasses(uuid: seq<byte>, filter: seq<byte>, num: int)
    requires 0 < num <= |filter| && num <= |uuid| && filter[..num] == uuid[..num]
    ensures UuidAccepted(uuid, filter, num)
  {
    HexTextPrefix(uuid, num);
    assert MatchAt(HalMcu.HexText(uuid), HalMcu.HexText(filter[..num]), 0);
  }

  lemma {:induction false} HexTextPrefix(b: seq<byte>, k: nat)
    requires k <= |b|
    ensures HalMcu.HexText(b)[..2 * k] == HalMcu.HexText(b[..k])
    decreases k
  {
    if k > 0 {
      assert b[..k][1..] == b[1..][..k - 1];
      HexTextPrefix(b[1..], k - 1);
    }
  }

  /** The filter matches text, not bytes: a one-byte filter 0x12 accepts a
      UUID that holds no byte 0x12, because "12" straddles the bytes 0x01
      and 0x20. */
  lemma OddOffsetMatch()
    ensures var uuid := [0x01, 0x20] + Zeros(14);
            UuidAccepted(uuid, [0x12] + Zeros(15), 1) && 0x12 !in uuid
  {
    var uuid: seq<byte> := [0x01, 0x20] + Zeros(14);
    var f: seq<byte> := [0x12] + Zeros(15);
    var t := HalMcu.HexText(uuid);
    HalMcu.HexTextChars(uuid, 0);
    HalMcu.HexTextChars(uuid, 1);
    assert f[..1] == [0x12];
    var pat := HalMcu.HexText(f[..1]);
    HalMcu.HexTextChars(f[..1], 0);
    assert t[1..3] == pat;
    assert MatchAt(t, pat, 1);
  }

  // ---------------------------------------------------------------------
  // Admission of a report
  // ---------------------------------------------------------------------

  /** Whether the advertisement-report handler stores report `r` in the
      slots: an iBeacon whose UUID passes the filter, that matches no
      slot (the empty ones included), while the next slot is free. */
  predicate Admitted(slots: seq<Beacon>, resNum: int, filter: seq<byte>, filterNum: int, r: Report)
    requires ReportOk(r) && 0 <= filterNum <= |filter|
  {
    var p := Payload(r);
    r.len != 0 && IsIBeacon(p) && UuidAccepted(p[4..20], filter, filterNum)
    && (forall j :: 0 <= j < |slots| ==> !Same(slots[j], FromReport(r)))
    && 0 <= resNum < |slots| && slots[resNum].companyId == 0
  }

  /** Once a beacon is stored, a later report of the same beacon (same
      UUID, major, minor and address, whatever its RSSI) is dropped. */
  lemma RepeatDropped(slots: seq<Beacon>, resNum: int, filter: seq<byte>, filterNum: int, r: Report, r': Report)
    requires ReportOk(r) && ReportOk(r') && 0 <= filterNum <= |filter|
    requires Admitted(slots, resNum, filter, filterNum, r) && Same(FromReport(r'), FromReport(r))
    ensures !Admitted(slots[resNum := FromReport(r)], resNum + 1, filter, filterNum, r')
  {
    var s' := slots[resNum := FromReport(r)];
    assert Same(s'[resNum], FromReport(r'));
  }

  /** A report whose UUID, major, minor and address are all zero matches
      an empty slot and is never stored. */
  lemma ZeroBeaconDropped(slots: seq<Beacon>, resNum: int, filter: seq<byte>, filterNum: int, r: Report)
    requires ReportOk(r) && 0 <= filterNum <= |filter|
    requires 0 <= resNum < |slots| && slots[resNum] == Empty && Same(FromReport(r), Empty)
    ensures !Admitted(slots, resNum, filter, filterNum, r)
  {
    assert Same(slots[resNum], FromReport(r));
  }

  // ---------------------------------------------------------------------
  // The results
  // ---------------------------------------------------------------------

  /** One record of the results: the MAC reversed by `memcpyr`, then the
      report RSSI as a byte. */
  function Record(b: Beacon): (r: seq<byte>)
    requires |b.mac| == 6
    ensures |r| == RecordSize
  {
    Reverse(b.mac) + [ToByte(b.rssi)]
  }

  /** `memcpyr(result + at, mac, 6)` then the RSSI byte: one record at
      `at`, the bytes before it untouched. */
  method PutRecord(result: array<byte>, at: nat, b: Beacon)
    requires |b.mac| == 6 && at + RecordSize <= result.Length
    modifies result
    ensures result[..at] == old(result[..at]) && result[at..at + RecordSize] == Record(b)
  {
    HalMcu.Memcpyr(result, at, b.mac, 6);
    result[at + 6] := ToByte(b.rssi);
    assert b.mac[..6] == b.mac;
    assert result[at..at + RecordSize] == result[at..at + 6] + [result[at + 6]];
  }

  /** Record `i` of `bs` written after the first `i`. */
  method AppendRecord(result: array<byte>, at: nat, b: Beacon, ghost bs: seq<Beacon>, ghost i: nat)
    requires i < |bs| && b == bs[i] && at == RecordSize * i && at + RecordSize <= result.Length
    requires forall j :: 0 <= j < |bs| ==> |bs[j].mac| == 6
    requires result[..at] == Records(bs[..i])
    modifies result
    ensures result[..at + RecordSize] == Records(bs[..i + 1])
  {
    PutRecord(result, at, b);
    assert bs[..i + 1][..i] == bs[..i];
    assert result[..at + RecordSize] == result[..at] + result[at..at + RecordSize];
  }

  /** The records of the beacons `bs`, in order. */
  function Records(bs: seq<Beacon>): (r: seq<byte>)
    requires forall i :: 0 <= i < |bs| ==> |bs[i].mac| == 6
    ensures |r| == RecordSize * |bs|
  {
    if |bs| == 0 then [] else Records(bs[..|bs| - 1]) + Record(bs[|bs| - 1])
  }

  /** Record `i` of the results is the record of beacon `i`. */
  lemma {:induction false} RecordsAt(bs: seq<Beacon>, i: int)
    requires forall k :: 0 <= k < |bs| ==> |bs[k].mac| == 6
    requires 0 <= i < |bs|
    ensures Records(bs)[RecordSize * i .. RecordSize * (i + 1)] == Record(bs[i])
    decreases |bs|
  {
    var last := |bs| - 1;
    assert Records(bs) == Records(bs[..last]) + Record(bs[last]);
    if i < last {
      RecordsAt(bs[..last], i);
      assert Records(bs)[RecordSize * i .. RecordSize * (i + 1)]
          == Records(bs[..last])[RecordSize * i .. RecordSize * (i + 1)];
    }
  }

  /** `n` records of 0xFF. */
  function Padding(n: nat): (r: seq<byte>)
    ensures |r| == RecordSize * n
  {
    seq(RecordSize * n, _ => PadByte)
  }

  const PadByte: byte := 0xFF

  predicate Indices(o: seq<int>, m: int)
  {
    forall k :: 0 <= k < |o| ==> 0 <= o[k] < m
  }

  /** The slots in the order of the index array. */
  function InOrder(slots: seq<Beacon>, order: seq<int>): (bs: seq<Beacon>)
    requires Indices(order, |slots|)
    ensures |bs| == |order| && forall i :: 0 <= i < |order| ==> bs[i] == slots[order[i]]
  {
    seq(|order|, i requires 0 <= i < |order| => slots[order[i]])
  }

  /** The index array is in decreasing order of RSSI. */
  predicate StrongestFirst(slots: seq<Beacon>, order: seq<int>)
    requires Indices(order, |slots|)
  {
    forall p, q :: 0 <= p < q < |order| ==> slots[order[p]].rssi >= slots[order[q]].rssi
  }

  /** The first `i` positions of the first `n` are final: each is at least
      as strong as every later one. */
  predicate SortedBelow(slots: seq<Beacon>, order: seq<int>, i: int, n: int)
    requires Indices(order, |slots|) && n <= |order|
  {
    forall p, q :: 0 <= p < q < n && p < i ==> slots[order[p]].rssi >= slots[order[q]].rssi
  }

  /** Position `i` is at least as strong as the positions after it up to `j`. */
  predicate HeadStrongest(slots: seq<Beacon>, order: seq<int>, i: int, j: int)
    requires Indices(order, |slots|) && 0 <= i && j <= |order|
  {
    forall q :: i < q < j ==> slots[order[i]].rssi >= slots[order[q]].rssi
  }

  /** The exchange in the inner loop of the sort keeps the final prefix
      and makes position `i` the strongest up to `j`. */
  lemma SwapKeepsOrder(slots: seq<Beacon>, order: seq<int>, n: int, i: int, j: int)
    requires Indices(order, |slots|) && 0 <= i <= j < n <= |order|
    requires SortedBelow(slots, order, i, n) && HeadStrongest(slots, order, i, j)
    requires slots[order[i]].rssi < slots[order[j]].rssi
    ensures var o := order[i := order[j]][j := order[i]];
            Indices(o, |slots|) && SortedBelow(slots, o, i, n) && HeadStrongest(slots, o, i, j + 1)
  {
    var o := order[i := order[j]][j := order[i]];
    forall p, q | 0 <= p < q < n && p < i
      ensures slots[o[p]].rssi >= slots[o[q]].rssi
    {
      assert o[p] == order[p];
      if q == i {
        assert slots[order[p]].rssi >= slots[order[j]].rssi;
      } else if q == j {
        assert slots[order[p]].rssi >= slots[order[i]].rssi;
      }
    }
  }

  /** A strongest head extends the sorted prefix by one. */
  lemma HeadSorted(slots: seq<Beacon>, order: seq<int>, i: int, n: int)
    requires Indices(order, |slots|) && 0 <= i < n <= |order|
    requires SortedBelow(slots, order, i, n) && HeadStrongest(slots, order, i, n)
    ensures SortedBelow(slots, order, i + 1, n)
  {
    forall p, q | 0 <= p < q < n && p < i + 1
      ensures slots[order[p]].rssi >= slots[order[q]].rssi
    {
      if p == i {
        assert HeadStrongest(slots, order, i, n);
      }
    }
  }

  /** The sorted prefix covers all `n` positions. */
  lemma SortedAll(slots: seq<Beacon>, order: seq<int>, n: int)
    requires Indices(order, |slots|) && 0 <= n <= |order| && SortedBelow(slots, order, n, n)
    ensures Indices(order[..n], |slots|) && StrongestFirst(slots, order[..n])
  {
    var o := order[..n];
    forall p, q | 0 <= p < q < |o|
      ensures slots[o[p]].rssi >= slots[o[q]].rssi
    {
      assert o[p] == order[p] && o[q] == order[q];
    }
  }

  function Iota(n: nat): (s: seq<int>)
    ensures |s| == n && forall i :: 0 <= i < n ==> s[i] == i
  {
    seq(n, i => i)
  }

  function Min(a: int, b: int): int { if a <= b then a else b }

  /** Every index of a permutation of 0..n-1 is below `n`. */
  lemma PermutationInRange(order: seq<int>, i: int)
    requires multiset(order) == multiset(Iota(|order|)) && 0 <= i < |order|
    ensures 0 <= order[i] < |order|
  {
    assert order[i] in multiset(Iota(|order|));
    var j :| 0 <= j < |order| && Iota(|order|)[j] == order[i];
  }

  /** The results sent are the strongest: a stored beacon whose index is
      not among the first `k` of the order is no stronger than any of the
      `k` beacons that are. */
  lemma StrongestSent(slots: seq<Beacon>, order: seq<int>, k: nat, s: int)
    requires |order| <= |slots| && Indices(order, |slots|)
    requires multiset(order) == multiset(Iota(|order|)) && StrongestFirst(slots, order)
    requires k <= |order| && 0 <= s < |order| && s !in order[..k]
    ensures forall i :: 0 <= i < k ==> slots[s].rssi <= slots[order[i]].rssi
  {
    assert s in multiset(Iota(|order|)) by { assert Iota(|order|)[s] == s; }
    assert s in order;
    var j :| 0 <= j < |order| && order[j] == s;
    assert forall i :: 0 <= i < k ==> order[..k][i] == order[i];
  }

  // ---------------------------------------------------------------------
  // The scanner state
  // ---------------------------------------------------------------------

  /** The globals of one copy of the scanner: the slots, their count
      `ble_beacon_res_num`, the index array `ble_beacon_rssi_array`, the
      UUID filter and the two flags. */
  class Scanner {
    const variant: Variant
    const slots: array<Beacon>
    var resNum: int
    const order: array<int>
    var filter: seq<byte>
    var filterNum: int
    var filterFlag: bool
    var scanning: bool

    /** The slots after the count are empty and the stored ones are
        distinct iBeacons. */
    ghost predicate SlotsOk()
      reads this, slots
    {
      slots.Length == SlotCount && 0 <= resNum <= SlotCount
      && |filter| == 16 && 0 <= filterNum <= 16
      && (forall k :: 0 <= k < SlotCount ==> Wellformed(slots[k]))
      && (forall k :: resNum <= k < SlotCount ==> slots[k] == Empty)
      && (forall k :: 0 <= k < resNum ==> slots[k].companyId == CompanyApple)
      && (forall i, j :: 0 <= i < j < resNum ==> !Same(slots[i], slots[j]))
    }

    /** The index array only names slots. */
    ghost predicate IndicesOk()
      reads order
    {
      order.Length == SlotCount && Indices(order[..], SlotCount)
    }

    ghost predicate Valid()
      reads this, slots, order
    {
      SlotsOk() && IndicesOk()
    }

    constructor (v: Variant)
      ensures Valid() && variant == v && resNum == 0 && !scanning && !filterFlag && filterNum == 0
      ensures fresh(slots) && fresh(order)
    {
      variant := v;
      slots := new Beacon[SlotCount](_ => Empty);
      resNum := 0;
      order := new int[SlotCount](_ => 0);
      filter := Zeros(16);
      filterNum := 0;
      filterFlag := false;
      scanning := false;
    }

    /** `ble_scan_start`: every slot cleared and the count reset; the
        peripheral copy raises the scanning flag and reports success. */
    method ScanStart() returns (ok: bool)
      requires Valid()
      modifies this, slots
      ensures Valid() && (variant == Peripheral ==> ok)
      ensures slots[..] == seq(SlotCount, _ => Empty) && resNum == 0
      ensures scanning == (variant == Peripheral || old(scanning))
      ensures filter == old(filter) && filterNum == old(filterNum) && filterFlag == old(filterFlag)
    {
      for i := 0 to SlotCount
        invariant forall k :: 0 <= k < i ==> slots[k] == Empty
        invariant forall k :: i <= k < SlotCount ==> slots[k] == old(slots[k])
        invariant filter == old(filter) && filterNum == old(filterNum)
        invariant filterFlag == old(filterFlag) && scanning == old(scanning)
      {
        slots[i] := Empty;
      }
      resNum := 0;
      if variant == Peripheral {
        scanning := true;
      }
      ok := true;
    }

    /** `ble_scan_stop`: the peripheral copy lowers the scanning flag. */
    method ScanStop()
      modifies this
      ensures scanning == (old(scanning) && variant == Application)
      ensures resNum == old(resNum) && filter == old(filter) && filterNum == old(filterNum)
      ensures filterFlag == old(filterFlag)
    {
      if variant == Peripheral {
        scanning := false;
      }
    }

    /** `ble_scan_is_active`. */
    method IsActive() returns (active: bool)
      requires variant == Peripheral
      ensures active == scanning
    {
      active := scanning;
    }

    /** `buf_cmp_value(a, b, len)`. */
    static method BufCmpValue(a: seq<byte>, b: seq<byte>, len: int) returns (same: bool)
      requires 0 <= len <= |a| && len <= |b|
      ensures same <==> a[..len] == b[..len]
    {
      var i := 0;
      while i < len
        invariant 0 <= i <= len && a[..i] == b[..i]
      {
        if a[i] != b[i] {
          assert a[..len][i] != b[..len][i];
          return false;
        }
        i := i + 1;
      }
      return true;
    }

    /** `beacon_uuid_filter(uuid)`. */
    method UuidFilter(uuid: seq<byte>) returns (ok: bool)
      requires SlotsOk() && |uuid| == 16
      ensures ok == UuidAccepted(uuid, filter, filterNum)
    {
      if filterNum == 0 {
        return true;
      }
      var raw: seq<char> := [];
      for i := 0 to 16
        invariant raw == HalMcu.HexText(uuid[..i])
      {
        HexTextAppend(uuid[..i], uuid[i]);
        assert uuid[..i + 1] == uuid[..i] + [uuid[i]];
        raw := raw + HalMcu.HexText([uuid[i]]);
      }
      var pat: seq<char> := [];
      for i := 0 to filterNum
        invariant pat == HalMcu.HexText(filter[..i])
      {
        HexTextAppend(filter[..i], filter[i]);
        assert filter[..i + 1] == filter[..i] + [filter[i]];
        pat := pat + HalMcu.HexText([filter[i]]);
      }
      assert uuid[..16] == uuid;
      ok := Contains(raw, pat);
    }

    /** The de-duplication loop: whether some slot, empty or not, holds
        the beacon `b`. */
    method IsDuplicate(b: Beacon) returns (dup: bool)
      requires SlotsOk() && Wellformed(b)
      ensures dup <==> exists j :: 0 <= j < SlotCount && Same(slots[j], b)
    {
      var j := 0;
      while j < SlotCount
        invariant 0 <= j <= SlotCount
        invariant forall k :: 0 <= k < j ==> !Same(slots[k], b)
      {
        var s := slots[j];
        var res1 := BufCmpValue(s.uuid, b.uuid, 16);
        var res2 := BufCmpValue(s.major, b.major, 2);
        var res3 := BufCmpValue(s.minor, b.minor, 2);
        var res5 := BufCmpValue(s.mac, b.mac, 6);
        assert s.uuid[..16] == s.uuid && b.uuid[..16] == b.uuid;
        assert s.major[..2] == s.major && b.major[..2] == b.major;
        assert s.minor[..2] == s.minor && b.minor[..2] == b.minor;
        assert s.mac[..6] == s.mac && b.mac[..6] == b.mac;
        if res1 && res2 && res3 && res5 {
          return true;
        }
        j := j + 1;
      }
      return false;
    }

    /** The advertisement-report branch of `ble_evt_handler`: an iBeacon
        report raises `s_filter_flag`; an admitted one goes into the next
        slot. */
    method OnAdvReport(r: Report)
      requires Valid() && ReportOk(r)
      modifies this, slots
      ensures Valid()
      ensures var stored := Admitted(old(slots[..]), old(resNum), filter, filterNum, r);
              slots[..] == (if stored then old(slots[..])[old(resNum) := FromReport(r)] else old(slots[..]))
              && resNum == (if stored then old(resNum) + 1 else old(resNum))
      ensures filterFlag == (old(filterFlag) || (r.len != 0 && IsIBeacon(Payload(r))))
      ensures filter == old(filter) && filterNum == old(filterNum) && scanning == old(scanning)
    {
      if r.len == 0 {
        return;
      }
      var p := r.data[DataOffset..];
      if !(p[2] == BeaconDataType && p[0] as int + 256 * p[1] as int == CompanyApple && p[3] == BeaconDataLen) {
        return;
      }
      filterFlag := true;
      assert p == Payload(r);
      OnIBeacon(r, p);
    }

    /** The part of the handler for an iBeacon report: the UUID filter,
        the duplicate check and the store. */
    method OnIBeacon(r: Report, p: seq<byte>)
      requires Valid() && ReportOk(r) && r.len != 0 && p == Payload(r) && IsIBeacon(p)
      modifies this, slots
      ensures Valid()
      ensures var stored := Admitted(old(slots[..]), old(resNum), filter, filterNum, r);
              slots[..] == (if stored then old(slots[..])[old(resNum) := FromReport(r)] else old(slots[..]))
              && resNum == (if stored then old(resNum) + 1 else old(resNum))
      ensures filterFlag == old(filterFlag) && filter == old(filter) && filterNum == old(filterNum)
      ensures scanning == old(scanning)
    {
      var pass := UuidFilter(p[4..20]);
      if !pass {
        return;
      }
      var b := Beacon(p[0] as int + 256 * p[1] as int, p[4..20], p[20..22], p[22..24], p[24], r.rssi, r.mac);
      assert b == FromReport(r);
      var dup := IsDuplicate(b);
      if !dup && resNum < SlotCount && slots[resNum].companyId == 0 {
        Store(b);
      }
    }

    /** A new beacon goes into the next slot. */
    method Store(b: Beacon)
      requires Valid() && resNum < SlotCount && Wellformed(b) && b.companyId == CompanyApple
      requires forall j :: 0 <= j < SlotCount ==> !Same(slots[j], b)
      modifies this, slots
      ensures Valid()
      ensures slots[..] == old(slots[..])[old(resNum) := b] && resNum == old(resNum) + 1
      ensures filter == old(filter) && filterNum == old(filterNum)
      ensures filterFlag == old(filterFlag) && scanning == old(scanning)
    {
      slots[resNum] := b;
      resNum := resNum + 1;
    }

    /** The exchange sort of `ble_get_results` on the index array: the
        first `n` indices end in decreasing order of RSSI. */
    method SortOrder(n: int)
      requires Valid() && 0 <= n <= resNum
      modifies order
      ensures Valid()
      ensures multiset(order[..n]) == multiset(old(order[..n])) && order[n..] == old(order[n..])
      ensures Indices(order[..n], slots.Length) && StrongestFirst(slots[..], order[..n])
    {
      ghost var s := slots[..];
      var i := 0;
      while i < n
        invariant 0 <= i <= n && IndicesOk()
        invariant multiset(order[..n]) == multiset(old(order[..n])) && order[n..] == old(order[n..])
        invariant SortedBelow(s, order[..], i, n)
      {
        PlaceStrongest(s, i, n);
        i := i + 1;
      }
      SortedAll(s, order[..], n);
      assert order[..][..n] == order[..n];
    }

    /** The inner loop of the sort: position `i` ends holding the
        strongest of positions `i` to `n - 1`. */
    method PlaceStrongest(ghost s: seq<Beacon>, i: int, n: int)
      requires IndicesOk() && slots.Length == SlotCount && s == slots[..]
      requires 0 <= i < n <= SlotCount && SortedBelow(s, order[..], i, n)
      modifies order
      ensures IndicesOk()
      ensures multiset(order[..n]) == multiset(old(order[..n])) && order[n..] == old(order[n..])
      ensures SortedBelow(s, order[..], i + 1, n)
    {
      var j := i;
      while j < n
        invariant i <= j <= n && IndicesOk()
        invariant multiset(order[..n]) == multiset(old(order[..n])) && order[n..] == old(order[n..])
        invariant SortedBelow(s, order[..], i, n) && HeadStrongest(s, order[..], i, j)
      {
        if slots[order[i]].rssi < slots[order[j]].rssi {
          SwapKeepsOrder(s, order[..], n, i, j);
          Swap(n, i, j);
        }
        j := j + 1;
      }
      HeadSorted(s, order[..], i, n);
    }

    /** Exchange two of the first `n` indices. */
    method Swap(n: int, i: int, j: int)
      requires IndicesOk() && 0 <= i <= j < n <= SlotCount
      modifies order
      ensures IndicesOk()
      ensures order[..] == old(order[..])[i := old(order[j])][j := old(order[i])]
      ensures multiset(order[..n]) == multiset(old(order[..n])) && order[n..] == old(order[n..])
    {
      var tmp := order[i];
      order[i] := order[j];
      order[j] := tmp;
      assert order[..n] == old(order[..n])[i := old(order[j])][j := old(order[i])];
    }

    /** `ble_get_results(result, size)`: `result == null` stands for a
        NULL result or size pointer, and `size` is None when nothing is
        written to it. */
    method GetResults(result: array?<byte>) returns (ok: bool, size: Option<int>)
      requires Valid()
      requires result != null ==> result.Length >= RecordSize * SendCount
      modifies order, result
      ensures Valid()
      ensures ok <==> result != null && resNum > 0
      ensures result == null ==> size.None?
      ensures result != null && resNum == 0 ==> size == Some(0)
      ensures ok ==>
        var k := Min(resNum, SendCount);
        Indices(order[..resNum], SlotCount)
        && multiset(order[..resNum]) == multiset(Iota(resNum)) && StrongestFirst(slots[..], order[..resNum])
        && size == Some(if variant == Peripheral then RecordSize * SendCount else RecordSize * k)
        && result[..size.value] == Records(InOrder(slots[..], order[..k]))
                                   + (if variant == Peripheral then Padding(SendCount - k) else [])
    {
      if result == null {
        return false, None;
      }
      if resNum == 0 {
        return false, Some(0);
      }
      var written := Deliver(result);
      return true, Some(written);
    }

    /** The sorted records into `result`, padded for the peripheral
        variant. */
    method Deliver(result: array<byte>) returns (written: int)
      requires Valid() && resNum > 0 && result.Length >= RecordSize * SendCount
      modifies order, result
      ensures Valid()
      ensures Indices(order[..resNum], SlotCount) && multiset(order[..resNum]) == multiset(Iota(resNum))
              && StrongestFirst(slots[..], order[..resNum])
      ensures var k := Min(resNum, SendCount);
              written == (if variant == Peripheral then RecordSize * SendCount else RecordSize * k)
              && result[..written] == Records(InOrder(slots[..], order[..k]))
                                      + (if variant == Peripheral then Padding(SendCount - k) else [])
    {
      hide Records, InOrder, Padding, StrongestFirst, Iota;
      var n := resNum;
      Arrange(n);
      var k := Min(n, SendCount);
      assert Indices(order[..k], SlotCount) by {
        assert forall i :: 0 <= i < k ==> order[..k][i] == order[..][i];
      }
      written := PackRecords(result, k);
      if variant == Peripheral {
        PadRecords(result, k);
        written := RecordSize * SendCount;
      } else {
        assert result[..written] == result[..written] + [];
      }
    }

    /** The first `n` indices, strongest first. */
    method Arrange(n: int)
      requires Valid() && 0 <= n <= resNum
      modifies order
      ensures Valid()
      ensures Indices(order[..n], SlotCount) && multiset(order[..n]) == multiset(Iota(n))
              && StrongestFirst(slots[..], order[..n])
    {
      ResetOrder(n);
      SortOrder(n);
    }

    /** The index array starts as the identity on the first `n` slots. */
    method ResetOrder(n: int)
      requires IndicesOk() && 0 <= n <= SlotCount
      modifies order
      ensures IndicesOk() && order[..n] == Iota(n)
    {
      for i := 0 to n
        invariant IndicesOk() && forall k :: 0 <= k < i ==> order[k] == k
      {
        order[i] := i;
      }
    }

    /** The first `k` records in the order of the index array. */
    method PackRecords(result: array<byte>, k: int) returns (written: int)
      requires slots.Length == SlotCount && order.Length == SlotCount
      requires forall j :: 0 <= j < SlotCount ==> |slots[j].mac| == 6
      requires 0 <= k <= SendCount && Indices(order[..k], SlotCount)
      requires result.Length >= RecordSize * SendCount
      modifies result
      ensures written == RecordSize * k
      ensures result[..written] == Records(InOrder(slots[..], order[..k]))
    {
      hide Records, InOrder;
      ghost var chosen := InOrder(slots[..], order[..k]);
      written := 0;
      for i := 0 to k
        invariant written == RecordSize * i
        invariant result[..written] == Records(chosen[..i])
      {
        assert order[..k][i] == order[i];
        var b := slots[order[i]];
        assert b == chosen[i];
        AppendRecord(result, written, b, chosen, i);
        written := written + RecordSize;
      }
      assert chosen[..k] == chosen;
    }

    /** The 0xFF records after the first `k`, up to five. */
    method PadRecords(result: array<byte>, k: int)
      requires 0 <= k <= SendCount && result.Length >= RecordSize * SendCount
      modifies result
      ensures result[..RecordSize * SendCount] == old(result[..RecordSize * k]) + Padding(SendCount - k)
    {
      for i := 0 to SendCount - k
        invariant result[..RecordSize * k] == old(result[..RecordSize * k])
        invariant forall m :: RecordSize * k <= m < RecordSize * (k + i) ==> result[m] == 0xFF
      {
        var base := RecordSize * (k + i);
        for m := 0 to RecordSize
          invariant result[..RecordSize * k] == old(result[..RecordSize * k])
          invariant forall q :: RecordSize * k <= q < base + m ==> result[q] == 0xFF
        {
          result[base + m] := 0xFF;
        }
      }
      assert result[RecordSize * k .. RecordSize * SendCount] == Padding(SendCount - k);
      assert result[..RecordSize * SendCount]
          == result[..RecordSize * k] + result[RecordSize * k .. RecordSize * SendCount];
    }
  }
}
