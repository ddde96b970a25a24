/** Vessel position and time assistance for the GNSS receiver: the
    position/time cache, its freshness tiers, the time-uncertainty model,
    the almanac-maintenance rule, own-fix write-back and the position
    downlink. The RTC reading `now` is a parameter; coordinates are
    integers in units of 1e-7 degree. */
module VesselAssistance {
  import opened Bytes

  /** LoRaWAN port of the assistance downlinks. */
  const AssistancePort: int := 10

  const PositionUpdate: byte := 0x01

  /** `sizeof(vessel_position_msg_t)`: the record is packed. */
  const MsgSize: int := 9

  const MaxAgeExcellentMin: int := 30
  const MaxAgeGoodMin: int := 90
  const MaxAgeFairMin: int := 180

  /** Seconds of uncertainty assumed when nothing is cached. */
  const NoDataUncertainty: int := 3600

  /** Seconds of uncertainty of a received position (queuing delay). */
  const DownlinkUncertainty: int := 60

  const AlmanacScanDuration: int := 750

  /** `vessel_position_msg_t`: message type, latitude and longitude as
      `int32_t` in units of 1e-7 degree. */
  datatype PositionMsg = PositionMsg(msgType: byte, lat: int, lon: int)

  /** `assistance_quality_t`, best first. */
  datatype Quality = Excellent | Good | Fair | Poor
  {
    function Rank(): nat
    {
      match this
      case Excellent => 0
      case Good => 1
      case Fair => 2
      case Poor => 3
    }
  }

  /** `position_time_cache_t`; latitude and longitude in 1e-7 degree. */
  datatype PositionTimeCache = PositionTimeCache(
    latitude: int,
    longitude: int,
    unixTime: u32,
    rtcAtReceipt: u32,
    timeUncertainty: u32,
    valid: bool)

  /** The zeroed cache of `vessel_assistance_init`. */
  const Empty := PositionTimeCache(0, 0, 0, 0, 0, false)

  // ---------------------------------------------------------------------
  // The 9-byte position message
  // ---------------------------------------------------------------------

  predicate IsInt32(x: int) { -0x8000_0000 <= x < 0x8000_0000 }

  /** The packed little-endian record as it lies in the payload. */
  function EncodeMsg(m: PositionMsg): (r: seq<byte>)
    ensures |r| == MsgSize && r[0] == m.msgType
  {
    [m.msgType] + LE(m.lat, 4) + LE(m.lon, 4)
  }

  /** Reading the record through the cast `(const vessel_position_msg_t*)`. */
  function DecodeMsg(p: seq<byte>): (m: PositionMsg)
    requires |p| >= MsgSize
    ensures m.msgType == p[0] && IsInt32(m.lat) && IsInt32(m.lon)
  {
    assert Pow256(4) == U32;
    PositionMsg(p[0], ToInt32(ValueLE(p[1..5])), ToInt32(ValueLE(p[5..9])))
  }

  lemma Int32OfLE(v: int)
    requires IsInt32(v)
    ensures ToInt32(ValueLE(LE(v, 4))) == v
  {
    ValueLEOfLE(v, 4);
    assert Pow256(4) == U32;
    var w := ValueLE(LE(v, 4));
    if v >= 0 {
      ModUnique(v, U32, 0, v);
      assert w == v;
    } else {
      ModUnique(v, U32, -1, v + U32);
      assert w == v + U32;
    }
  }

  /** Every message with 32-bit coordinates survives encoding and decoding. */
  lemma DecodeEncodeMsg(m: PositionMsg)
    requires IsInt32(m.lat) && IsInt32(m.lon)
    ensures DecodeMsg(EncodeMsg(m)) == m
  {
    var p := EncodeMsg(m);
    assert p[1..5] == LE(m.lat, 4);
    assert p[5..9] == LE(m.lon, 4);
    Int32OfLE(m.lat);
    Int32OfLE(m.lon);
  }

  // ---------------------------------------------------------------------
  // Pure queries of (cache, now)
  // ---------------------------------------------------------------------

  /** Seconds since the cache was filled, in `uint32_t` arithmetic. */
  function Age(c: PositionTimeCache, now: u32): u32
  {
    U32Sub(now, c.rtcAtReceipt)
  }

  /** `vessel_assistance_get_quality`: the tier of the age in whole
      minutes; an empty cache is POOR. */
  function GetQuality(c: PositionTimeCache, now: u32): (q: Quality)
    ensures q == Excellent <==> c.valid && Age(c, now) < 1800
    ensures q == Good <==> c.valid && 1800 <= Age(c, now) < 5400
    ensures q == Fair <==> c.valid && 5400 <= Age(c, now) < 10800
    ensures q == Poor <==> !c.valid || Age(c, now) >= 10800
  {
    if !c.valid then Poor
    else
      var ageMinutes := Age(c, now) / 60;
      if ageMinutes < MaxAgeExcellentMin then Excellent
      else if ageMinutes < MaxAgeGoodMin then Good
      else if ageMinutes < MaxAgeFairMin then Fair
      else Poor
  }

  /** An older cache is never of better quality. */
  lemma QualityDegradesWithAge(c: PositionTimeCache, now1: u32, now2: u32)
    requires Age(c, now1) <= Age(c, now2)
    ensures GetQuality(c, now1).Rank() <= GetQuality(c, now2).Rank()
  {
  }

  /** `vessel_assistance_is_available`: valid and younger than three hours. */
  function IsAvailable(c: PositionTimeCache, now: u32): (r: bool)
    ensures r <==> c.valid && Age(c, now) < 10800
  {
    c.valid && GetQuality(c, now) != Poor
  }

  /** `vessel_assistance_get_estimated_time`: the cached Unix time advanced
      by the elapsed RTC seconds, or the raw RTC when nothing is cached. */
  function GetEstimatedTime(c: PositionTimeCache, now: u32): (t: u32)
    ensures !c.valid ==> t == now
  {
    if !c.valid then now else (c.unixTime + Age(c, now)) % U32
  }

  /** The estimate runs at the rate of the RTC: between two readings it
      advances by exactly the RTC difference (modulo 2^32). */
  lemma EstimatedTimeFollowsRtc(c: PositionTimeCache, now1: u32, now2: u32)
    requires c.valid
    ensures U32Sub(GetEstimatedTime(c, now2), GetEstimatedTime(c, now1)) == U32Sub(now2, now1)
  {
    var a1: int, a2: int := Age(c, now1), Age(c, now2);
    var u: int := c.unixTime;
    var r: int := c.rtcAtReceipt;
    var e1: int, e2: int := GetEstimatedTime(c, now1), GetEstimatedTime(c, now2);
    hide *;
    EstimateOfAge(c, now1);
    EstimateOfAge(c, now2);
    ModSub(u + a2, u + a1, a2 - a1, e2, e1);
    ModSub(now2 - r, now1 - r, now2 - now1, a2, a1);
    U32SubIsMod(e2, e1);
    U32SubIsMod(now2, now1);
  }

  /** A valid estimate is the received time plus the age, and the age
      the RTC difference, both modulo 2^32. */
  lemma EstimateOfAge(c: PositionTimeCache, now: u32)
    requires c.valid
    ensures GetEstimatedTime(c, now) == (c.unixTime + Age(c, now)) % U32
    ensures Age(c, now) == (now - c.rtcAtReceipt) % U32
  {
  }

  /** Reduction modulo 2^32 commutes with subtraction: `mx` and `my`
      are the residues of `x` and `y`, and `d` their difference. */
  lemma ModSub(x: int, y: int, d: int, mx: int, my: int)
    requires mx == x % U32 && my == y % U32 && x - y == d
    ensures (mx - my) % U32 == d % U32
  {
    var qx, qy, q := x / U32, y / U32, d / U32;
    var rem := d % U32;
    assert x == U32 * qx + mx;
    assert y == U32 * qy + my;
    assert d == U32 * q + rem;
    assert mx - my == U32 * (q - qx + qy) + rem;
    ModUnique(mx - my, U32, q - qx + qy, rem);
  }

  /** Right after receipt the estimate is the received Unix time. */
  lemma EstimatedTimeAtReceipt(c: PositionTimeCache)
    requires c.valid
    ensures GetEstimatedTime(c, c.rtcAtReceipt) == c.unixTime
  {
  }

  /** The drift term: 0.125 s per whole elapsed hour, rounded down. */
  function Drift(age: u32): (d: nat)
    ensures d <= age / 28800 + 1 && d * 28800 <= age
  {
    ((age / 3600) * 125) / 1000
  }

  /** `vessel_assistance_get_time_uncertainty`: 3600 s without data, else
      the cached base plus the drift, summed in `uint32_t`. */
  function GetTimeUncertainty(c: PositionTimeCache, now: u32): (u: u32)
    ensures !c.valid ==> u == NoDataUncertainty
    ensures c.valid ==> u == (c.timeUncertainty + Drift(Age(c, now))) % U32
  {
    if !c.valid then NoDataUncertainty
    else
      var elapsedHours := Age(c, now) / 3600;
      var drift := (elapsedHours * 125) / 1000;
      (c.timeUncertainty + drift) % U32
  }

  /** The drift term stays zero during the first eight hours. */
  lemma NoDriftForEightHours(c: PositionTimeCache, now: u32)
    requires c.valid && Age(c, now) < 8 * 3600
    ensures GetTimeUncertainty(c, now) == c.timeUncertainty
  {
  }

  /** The largest drift any 32-bit age can add. */
  const MaxDrift: int := 149130

  lemma DriftBounded(age: u32)
    ensures Drift(age) <= MaxDrift
  {
    assert age / 3600 <= 1193046;
  }

  /** Uncertainty never shrinks as the cache ages (absent 32-bit overflow
      of the sum). */
  lemma UncertaintyGrowsWithAge(c: PositionTimeCache, now1: u32, now2: u32)
    requires Age(c, now1) <= Age(c, now2)
    requires c.timeUncertainty + MaxDrift < U32
    ensures GetTimeUncertainty(c, now1) <= GetTimeUncertainty(c, now2)
  {
    if c.valid {
      DriftBounded(Age(c, now1));
      DriftBounded(Age(c, now2));
      DriftMonotone(Age(c, now1), Age(c, now2));
    }
  }

  lemma DriftMonotone(a: u32, b: u32)
    requires a <= b
    ensures Drift(a) <= Drift(b)
  {
    DivMonotone(a, b, 3600);
    MulMonotone(a / 3600, b / 3600, 125);
    DivMonotone((a / 3600) * 125, (b / 3600) * 125, 1000);
  }

  lemma DivMonotone(a: nat, b: nat, d: int)
    requires a <= b && d > 0
    ensures a / d <= b / d
  {
    var qa, qb := a / d, b / d;
    if qa > qb {
      MulAtLeast(d, qa - qb);
    }
  }

  lemma MulMonotone(a: nat, b: nat, k: nat)
    requires a <= b
    ensures a * k <= b * k
  {
  }

  /** The scan duration recommended for each tier, in seconds. */
  function ScanDuration(q: Quality): (s: nat)
    ensures s in {10, 15, 25, 60}
    ensures q == Poor <==> s == 60
  {
    match q
    case Excellent => 10
    case Good => 15
    case Fair => 25
    case Poor => 60
  }

  /** A better tier never asks for a longer scan. */
  lemma ScanDurationFollowsRank(q1: Quality, q2: Quality)
    requires q1.Rank() <= q2.Rank()
    ensures ScanDuration(q1) <= ScanDuration(q2)
  {
  }

  /** `vessel_assistance_get_recommended_scan_duration`. */
  function GetRecommendedScanDuration(c: PositionTimeCache, now: u32): (s: nat)
    ensures s == 10 <==> IsAvailable(c, now) && Age(c, now) < 1800
    ensures s == 60 <==> !IsAvailable(c, now)
  {
    ScanDuration(GetQuality(c, now))
  }

  /** `vessel_assistance_needs_almanac_maintenance(days)`: an empty cache
      never asks for maintenance; else whole days since receipt reach the
      threshold. */
  function NeedsAlmanacMaintenance(c: PositionTimeCache, now: u32, days: u32): (r: bool)
    ensures r <==> c.valid && Age(c, now) >= days * 86400
  {
    if !c.valid then false else Age(c, now) / 86400 >= days
  }

  /** Whether the cache passes the documented warm-start criteria: GPS time
      error below 3 s, a GNSS fix within 14 days, a valid position within
      4 hours. The time error and the fix age are inputs. */
  function WarmStartReady(c: PositionTimeCache, now: u32, timeErrorS: nat, fixAgeS: nat): (r: bool)
    ensures r ==> c.valid && Age(c, now) < 4 * 3600
  {
    timeErrorS < 3 && fixAgeS < 14 * 86400 && c.valid && Age(c, now) < 4 * 3600
  }

  /** A position recent enough for a warm start never triggers almanac
      maintenance at the 14-day threshold, yet may already be POOR. */
  lemma WarmStartPositionMayBePoor(c: PositionTimeCache, now: u32, timeErrorS: nat, fixAgeS: nat)
    requires WarmStartReady(c, now, timeErrorS, fixAgeS)
    ensures !NeedsAlmanacMaintenance(c, now, 14)
    ensures GetQuality(c, now) == Poor <==> Age(c, now) >= 10800
  {
  }

  /** The cache after `store_own_fix`: kept while better than POOR,
      otherwise the own fix, converted to 1e-7 degree and stamped with the
      RTC, with the uncertainty of the old base (no drift) or 3600 s. */
  function OwnFixStored(c: PositionTimeCache, lat: int, lon: int, now: u32): (r: PositionTimeCache)
    ensures IsAvailable(c, now) ==> r == c
    ensures !IsAvailable(c, now) ==>
              r.valid && r.rtcAtReceipt == now && r.unixTime == now
              && r.latitude == lat * 10 && r.longitude == lon * 10
              && r.timeUncertainty == (if c.valid then c.timeUncertainty else NoDataUncertainty)
  {
    if c.valid && GetQuality(c, now) != Poor then c
    else
      var stamped := c.(latitude := lat * 10, longitude := lon * 10, unixTime := now, rtcAtReceipt := now);
      stamped.(timeUncertainty := GetTimeUncertainty(stamped, now), valid := true)
  }

  // ---------------------------------------------------------------------
  // The cache owner
  // ---------------------------------------------------------------------

  /** The static `position_cache` and the operations that write it. */
  class Assistance {
    var cache: PositionTimeCache

    constructor ()
      ensures cache == Empty
    {
      cache := Empty;
    }

    /** `vessel_assistance_init`: clear the cache. */
    method Init()
      modifies this
      ensures cache == Empty
    {
      cache := Empty;
    }

    /** `vessel_assistance_handle_downlink`: `payload` is None for NULL,
        `size` the length the caller passes. The Unix time of the message
        is `unixTime` (the record carries none). Returns whether the
        message was accepted, and the time written to the RTC. */
    method HandleDownlink(payload: Option<seq<byte>>, size: byte, now: u32, unixTime: u32)
      returns (ok: bool, rtcSet: Option<u32>)
      requires payload.Some? ==> |payload.value| >= size
      modifies this
      ensures ok <==> payload.Some? && size >= MsgSize && payload.value[0] == PositionUpdate
      ensures !ok ==> cache == old(cache) && rtcSet == None
      ensures ok ==> (rtcSet == Some(unixTime)
        && cache == PositionTimeCache(DecodeMsg(payload.value).lat, DecodeMsg(payload.value).lon,
                                      unixTime, now, DownlinkUncertainty, true))
    {
      if payload.None? || size < MsgSize {
        return false, None;
      }
      var msg := DecodeMsg(payload.value);
      if msg.msgType != PositionUpdate {
        return false, None;
      }
      cache := cache.(latitude := msg.lat);
      cache := cache.(longitude := msg.lon);
      cache := cache.(unixTime := unixTime);
      cache := cache.(rtcAtReceipt := now);
      cache := cache.(timeUncertainty := DownlinkUncertainty);
      cache := cache.(valid := true);
      ok, rtcSet := true, Some(unixTime);
    }

    /** `vessel_assistance_store_own_fix(lat, lon)` with coordinates in
        1e-6 degree: kept out while the cached data is better than POOR;
        otherwise the fix replaces it, stamped with the RTC. The uncertainty
        is read after the receipt time is reset, so it is the old base
        (no drift) or 3600 s for an empty cache. */
    method StoreOwnFix(lat: int, lon: int, now: u32)
      modifies this
      ensures cache == OwnFixStored(old(cache), lat, lon, now)
    {
      if cache.valid {
        var quality := GetQuality(cache, now);
        if quality != Poor {
          return;
        }
      }
      cache := cache.(latitude := lat * 10);
      cache := cache.(longitude := lon * 10);
      cache := cache.(unixTime := now);
      cache := cache.(rtcAtReceipt := now);
      cache := cache.(timeUncertainty := GetTimeUncertainty(cache, now));
      cache := cache.(valid := true);
    }
  }

  /** What a stored own fix or an accepted downlink leaves behind is fresh:
      EXCELLENT and available at the RTC reading that stored it. */
  lemma FreshCacheIsExcellent(c: PositionTimeCache, now: u32)
    requires c.valid && c.rtcAtReceipt == now
    ensures GetQuality(c, now) == Excellent && IsAvailable(c, now)
    ensures GetRecommendedScanDuration(c, now) == 10
    ensures GetTimeUncertainty(c, now) == c.timeUncertainty
  {
  }

  /** An accepted downlink takes its receipt stamp from the RTC and only
      then sets the RTC to the message's Unix time. If the RTC reads
      `unixTime + d` a moment `d` later, the age of the cache is `d` only
      when the clock already showed `unixTime` at receipt: any other jump
      of the RTC is counted as elapsed time. */
  lemma AgeSpansRtcSet(c: PositionTimeCache, now: u32, unixTime: u32, d: u32)
    requires c.valid && c.rtcAtReceipt == now && c.unixTime == unixTime
    ensures Age(c, (unixTime + d) % U32) == d <==> unixTime == now
    ensures GetEstimatedTime(c, (unixTime + d) % U32) == (2 * unixTime + d - now) % U32
  {
    var later := (unixTime + d) % U32;
    assert Age(c, later) == (unixTime + d - now) % U32 by {
      U32SubIsMod(later, now);
    }
  }

  /** Own-fix write-back never overrides data that is still useful, and
      whatever it does, the cache is available right after it. */
  lemma OwnFixKeepsUsefulData(c: PositionTimeCache, lat: int, lon: int, now: u32)
    ensures IsAvailable(c, now) ==> OwnFixStored(c, lat, lon, now) == c
    ensures IsAvailable(OwnFixStored(c, lat, lon, now), now)
  {
    var r := OwnFixStored(c, lat, lon, now);
    if !IsAvailable(c, now) {
      FreshCacheIsExcellent(r, now);
    }
  }
}
