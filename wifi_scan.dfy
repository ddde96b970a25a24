/** The Wi-Fi scan results packer: the access points the radio driver
    reports are copied, MAC then RSSI, into 7-byte records. */
module WifiScan {
  import opened Bytes

  const AddressSize: int := 6          // WIFI_AP_ADDRESS_SIZE
  const RssiSize: int := 1             // WIFI_AP_RSSI_SIZE
  const ApRecordSize: int := AddressSize + RssiSize

  /** One access point of `wifi_scan_all_result_t`: its MAC address and
      the RSSI of its beacon (`int8_t`). */
  datatype AccessPoint = AccessPoint(mac: seq<byte>, rssi: int)

  predicate ApOk(ap: AccessPoint)
  {
    |ap.mac| == AddressSize && -128 <= ap.rssi < 128
  }

  predicate AllOk(aps: seq<AccessPoint>)
  {
    forall i :: 0 <= i < |aps| ==> ApOk(aps[i])
  }

  /** The record of one access point: the MAC as received, then the RSSI
      byte. */
  function ApRecord(ap: AccessPoint): (r: seq<byte>)
    requires ApOk(ap)
    ensures |r| == ApRecordSize
  {
    ap.mac + [ToByte(ap.rssi)]
  }

  /** The records of all access points, in the order the driver listed
      them. */
  function ApRecords(aps: seq<AccessPoint>): (r: seq<byte>)
    requires AllOk(aps)
    ensures |r| == ApRecordSize * |aps|
  {
    if |aps| == 0 then [] else ApRecords(aps[..|aps| - 1]) + ApRecord(aps[|aps| - 1])
  }

  /** The reading of one record by the receiver: the RSSI byte as
      `int8_t`. */
  function ReadRecord(r: seq<byte>): (ap: AccessPoint)
    requires |r| == ApRecordSize
    ensures ApOk(ap)
  {
    AccessPoint(r[..AddressSize], ToInt8(r[AddressSize]))
  }

  /** The reading of a whole payload of records. */
  function ReadRecords(bs: seq<byte>): (aps: seq<AccessPoint>)
    requires |bs| % ApRecordSize == 0
    ensures AllOk(aps) && |aps| == |bs| / ApRecordSize
  {
    if |bs| == 0 then []
    else ReadRecords(bs[..|bs| - ApRecordSize]) + [ReadRecord(bs[|bs| - ApRecordSize..])]
  }

  /** A signed byte survives the conversion to `uint8_t` and back. */
  lemma Int8RoundTrip(v: int)
    requires -128 <= v < 128
    ensures ToInt8(ToByte(v)) == v
  {
    if v < 0 {
      ModUnique(v, 256, -1, v + 256);
    }
  }

  /** The records read back as the access points they were made from. */
  lemma {:induction false} ReadApRecords(aps: seq<AccessPoint>)
    requires AllOk(aps)
    ensures ReadRecords(ApRecords(aps)) == aps
    decreases |aps|
  {
    if |aps| > 0 {
      var n := |aps| - 1;
      var bs := ApRecords(aps);
      assert bs == ApRecords(aps[..n]) + ApRecord(aps[n]);
      assert bs[..|bs| - ApRecordSize] == ApRecords(aps[..n]);
      assert bs[|bs| - ApRecordSize..] == ApRecord(aps[n]);
      ReadApRecords(aps[..n]);
      Int8RoundTrip(aps[n].rssi);
      assert ApRecord(aps[n])[..AddressSize] == aps[n].mac;
      assert aps[..n] + [aps[n]] == aps;
    }
  }

  /** The outcome of `smtc_wifi_get_results`: whether the driver call
      succeeded and the access points it listed. */
  datatype DriverResult = DriverResult(ok: bool, aps: seq<AccessPoint>)

  /** The globals `wifi_results` and `wifi_result_buffer`. The buffer
      holds `maxResults` records and eight spare bytes; `maxResults` is
      the `max_results` setting the driver honours. */
  class Scanner {
    const maxResults: nat
    var results: seq<AccessPoint>
    const buffer: array<byte>

    ghost predicate Valid()
      reads this
    {
      buffer.Length == 4 + ApRecordSize * maxResults + 4
      && ApRecordSize * maxResults < 256
    }

    constructor (maxResults: nat)
      requires ApRecordSize * maxResults < 256
      ensures Valid() && this.maxResults == maxResults && results == [] && fresh(buffer)
    {
      this.maxResults := maxResults;
      results := [];
      buffer := new byte[4 + ApRecordSize * maxResults + 4];
    }

    /** `wifi_get_results(radio, result, size)`: `driver` is what the radio
        driver returns, `result == null` a NULL result pointer and
        `wantSize` a non-NULL size pointer; `size` is None when nothing
        is written to it. */
    method GetResults(driver: DriverResult, result: array?<byte>, wantSize: bool)
      returns (ok: bool, size: Option<int>)
      requires Valid() && |driver.aps| <= maxResults && AllOk(driver.aps)
      requires result != null ==> result != buffer && result.Length >= ApRecordSize * |driver.aps|
      modifies this, buffer, result
      ensures Valid() && results == driver.aps
      ensures ok <==> driver.ok && |driver.aps| > 0
      ensures var n := ApRecordSize * |driver.aps|;
              ok ==> buffer[..n] == ApRecords(driver.aps)
                     && (result != null ==> result[..n] == ApRecords(driver.aps))
                     && buffer[n..] == old(buffer[n..])
                     && size == (if wantSize then Some(n) else None)
      ensures !ok ==> size.None? && buffer[..] == old(buffer[..])
                      && (result != null ==> result[..] == old(result[..]))
    {
      results := [];                 // the previous results are cleared
      results := driver.aps;
      if !driver.ok || |results| == 0 {
        return false, None;
      }
      var n := Pack();
      if result != null {
        CopyOut(result, n);
      }
      size := if wantSize then Some(n) else None;
      ok := true;
    }

    /** The packing loop: the records of `results` at the head of the
        buffer, `n` bytes in all. */
    method Pack() returns (n: int)
      requires Valid() && |results| <= maxResults && AllOk(results)
      modifies buffer
      ensures n == ApRecordSize * |results| && buffer[..n] == ApRecords(results)
      ensures buffer[n..] == old(buffer[n..])
    {
      n := 0;
      for i := 0 to |results|
        invariant n == ApRecordSize * i
        invariant buffer[..n] == ApRecords(results[..i])
        invariant buffer[n..] == old(buffer[n..])
      {
        ghost var before := buffer[..n];
        PutRecord(n, results[i]);
        assert results[..i + 1][..i] == results[..i];
        assert buffer[..n + ApRecordSize] == before + buffer[n .. n + ApRecordSize];
        n := n + ApRecordSize;
      }
      assert results[..|results|] == results;
    }

    /** One record at offset `n`: the `memcpy` of the MAC and the store
        of the RSSI. */
    method PutRecord(n: int, ap: AccessPoint)
      requires 0 <= n && n + ApRecordSize <= buffer.Length && ApOk(ap)
      modifies buffer
      ensures buffer[..n] == old(buffer[..n]) && buffer[n .. n + ApRecordSize] == ApRecord(ap)
      ensures buffer[n + ApRecordSize..] == old(buffer[n + ApRecordSize..])
    {
      for k := 0 to AddressSize
        invariant buffer[..n] == old(buffer[..n])
        invariant buffer[n + AddressSize..] == old(buffer[n + AddressSize..])
        invariant forall m :: 0 <= m < k ==> buffer[n + m] == ap.mac[m]
      {
        buffer[n + k] := ap.mac[k];
      }
      buffer[n + AddressSize] := ToByte(ap.rssi);
    }

    /** `memcpy(result, wifi_result_buffer, n)`. */
    method CopyOut(result: array<byte>, n: int)
      requires Valid() && result != buffer && 0 <= n <= result.Length && n <= buffer.Length
      modifies result
      ensures result[..n] == buffer[..n]
    {
      for k := 0 to n
        invariant forall m :: 0 <= m < k ==> result[m] == buffer[m]
      {
        result[k] := buffer[k];
      }
    }
  }
}
