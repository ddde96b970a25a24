/** The LoRaWAN tracker application: the scan session that one re-armed
    modem alarm drives through its BLE, Wi-Fi and GNSS phases, the uplink
    frames it builds from the results, and the pacing of those frames
    within the periodic interval. */
module Tracker {
  import opened Bytes
  import VA = VesselAssistance
  import HalMcu

  // ---------------------------------------------------------------------
  // Constants. The headers defining TRACKER_SCAN_*, DATA_ID_UP_PACKET_*,
  // RETRY_STATE_*, TRACKER_STATE_BIT8_USER and LORWAN_SEND_INTERVAL_MIN
  // are not part of this model: the values below are placeholders and no
  // proof depends on them beyond their being distinct.
  // ---------------------------------------------------------------------

  /** `tracker_scan_type`: the positioning strategies. */
  const GnssOnly: byte := 0
  const WifiOnly: byte := 1
  const WifiGnss: byte := 2
  const GnssWifi: byte := 3
  const BleOnly: byte := 4
  const BleWifi: byte := 5
  const BleGnss: byte := 6
  const BleWifiGnss: byte := 7

  /** `tracker_scan_status`: 0 between sessions, 1..3 while the phase of
      that rank is running, 0xff while results wait to be sent. */
  const Idle: byte := 0
  const Sending: byte := 0xff

  /** Size of every scan buffer and of the frame buffer. */
  const BufferSize: int := 64
  /** A BLE or Wi-Fi record: 6-byte MAC and one RSSI byte. */
  const RecordSize: int := 7
  /** The scan drivers report at most five records. */
  const DriverMaxBytes: int := 35
  /** Days after which a charging tracker refreshes its almanac. */
  const MaintenanceDays: u32 := 14

  /** `DATA_ID_UP_PACKET_*`: frame identifiers, per source and with or
      without the accelerometer block. */
  const IdSensor: byte := 0x01
  const IdSensorAcc: byte := 0x02
  const IdGps: byte := 0x03
  const IdGpsAcc: byte := 0x04
  const IdWifi: byte := 0x05
  const IdWifiAcc: byte := 0x06
  const IdBle: byte := 0x07
  const IdBleAcc: byte := 0x08

  /** `packet_policy` values `RETRY_STATE_1N` and `RETRY_STATE_1C`. */
  const RetryUnconfirmed: byte := 0
  const RetryConfirmed: byte := 1
  /** `TRACKER_STATE_BIT8_USER`: the event state of a user alarm. */
  const UserEvent: byte := 0x80
  /** `LORWAN_SEND_INTERVAL_MIN`: seconds between the frames of one
      session. */
  const SendIntervalMin: u32 := 30

  // ---------------------------------------------------------------------
  // The phase plan of each strategy
  // ---------------------------------------------------------------------

  datatype Phase = Ble | Wifi | Gnss

  /** The phases a strategy runs, in order, when no phase finds anything;
      an unknown strategy runs none. */
  function Plan(scanType: byte): (p: seq<Phase>)
    ensures |p| <= 3
    ensures scanType in {BleOnly, BleWifi, BleGnss, BleWifiGnss} <==> |p| > 0 && p[0] == Ble
    ensures forall i, j :: 0 <= i < j < |p| ==> p[i] != p[j]
  {
    if scanType == GnssOnly then [Gnss]
    else if scanType == WifiOnly then [Wifi]
    else if scanType == WifiGnss then [Wifi, Gnss]
    else if scanType == GnssWifi then [Gnss, Wifi]
    else if scanType == BleOnly then [Ble]
    else if scanType == BleWifi then [Ble, Wifi]
    else if scanType == BleGnss then [Ble, Gnss]
    else if scanType == BleWifiGnss then [Ble, Wifi, Gnss]
    else []
  }

  /** What one alarm tick does with the scan phases. */
  datatype Step =
    | Start(first: Phase, next: byte)               // a session begins
    | Continue(ended: Phase, begun: Phase, next: byte)
    | Finish(last: Phase)                           // results go to sending
    | Retry                                         // still sending
    | Stall                                         // no branch applies

  /** The reference for the flat switch over strategy and status: status k
      (1 <= k <= |plan|) means phase k-1 of the plan is running; ending it
      finishes the session when it found something or was the last one,
      and otherwise begins the next phase. `shortcut` is the charging
      tracker due for almanac maintenance under WIFI_GNSS, which skips
      straight to the GNSS phase; `found` is `scan_result` after the end
      of the running phase. */
  function NextStep(plan: seq<Phase>, status: byte, shortcut: bool, found: bool): (s: Step)
    requires |plan| <= 3
    ensures s.Start? || s.Continue? ==> status < s.next <= |plan|
    ensures s.Continue? ==> !found
    ensures s.Stall? <==> status != Sending && (status > |plan| || |plan| == 0)
  {
    if status == Sending then Retry
    else if status == 0 && |plan| > 0 then
      if shortcut && |plan| == 2 then Start(plan[1], 2) else Start(plan[0], 1)
    else if 1 <= status <= |plan| then
      if found || status as int == |plan| then Finish(plan[status - 1])
      else Continue(plan[status - 1], plan[status], status + 1)
    else Stall
  }

  // ---------------------------------------------------------------------
  // Configuration and the inputs of one tick
  // ---------------------------------------------------------------------

  /** The configuration globals of the application. */
  datatype Config = Config(
    scanType: byte,
    gnssDuration: u32, wifiDuration: u32, bleDuration: u32,
    interval: u32,
    wifiMax: byte, bleMax: byte,
    accEn: byte, packetPolicy: byte, testMode: byte)

  const DefaultConfig := Config(GnssOnly, 30, 3, 3, 60, 3, 3, 0, RetryUnconfirmed, 0)

  /** A GNSS position in 1e-6 degree, as `int32_t`. */
  datatype Fix = Fix(lat: int, lon: int)

  /** Battery (`int8_t`), temperature (`int16_t`) and light (`uint16_t`). */
  datatype Sensors = Sensors(battery: int, temp: int, light: int)

  /** Raw accelerometer axes (`int16_t`). */
  datatype Motion = Motion(ax: int, ay: int, az: int)

  /** What the modem reports: the duty-cycle budget, the largest payload
      of the next uplink and whether the network is joined. */
  datatype Link = Link(dutyCycle: int, maxPayload: byte, joined: bool)

  /** Everything one alarm tick reads from outside: the RTC, the charger,
      the scan drivers, the sensors and the modem. */
  datatype Tick = Tick(
    now: u32, charging: bool,
    ble: seq<byte>, wifi: Option<seq<byte>>, fix: Option<Fix>,
    sensors: Sensors, motion: Motion, link: Link)

  predicate IsInt8(x: int) { -128 <= x < 128 }
  predicate IsInt16(x: int) { -0x8000 <= x < 0x8000 }
  predicate IsInt32(x: int) { -0x8000_0000 <= x < 0x8000_0000 }

  predicate TickOk(t: Tick)
  {
    |t.ble| <= DriverMaxBytes
    && (t.wifi.Some? ==> |t.wifi.value| <= DriverMaxBytes)
    && (t.fix.Some? ==> IsInt32(t.fix.value.lat) && IsInt32(t.fix.value.lon))
    && IsInt8(t.sensors.battery) && IsInt16(t.sensors.temp) && 0 <= t.sensors.light < 0x1_0000
    && IsInt16(t.motion.ax) && IsInt16(t.motion.ay) && IsInt16(t.motion.az)
  }

  // ---------------------------------------------------------------------
  // Durations and pacing
  // ---------------------------------------------------------------------

  /** `app_get_adaptive_gnss_scan_duration`: the almanac duration for a
      charging tracker due for maintenance, otherwise the shorter of the
      configured and the recommended duration. */
  function AdaptiveGnssDuration(gnssDuration: u32, c: VA.PositionTimeCache, now: u32, charging: bool): (d: int)
    ensures charging && VA.NeedsAlmanacMaintenance(c, now, MaintenanceDays) ==> d == VA.AlmanacScanDuration
    ensures !(charging && VA.NeedsAlmanacMaintenance(c, now, MaintenanceDays)) ==>
      d <= gnssDuration && d <= VA.GetRecommendedScanDuration(c, now)
      && (d == gnssDuration || d == VA.GetRecommendedScanDuration(c, now))
  {
    if charging && VA.NeedsAlmanacMaintenance(c, now, MaintenanceDays) then VA.AlmanacScanDuration
    else
      var recommended := VA.GetRecommendedScanDuration(c, now);
      if gnssDuration < recommended then gnssDuration else recommended
  }

  /** A delay computed as `int32_t` from `uint32_t` operands, passed to the
      alarm only when positive, else 1 s. */
  function PositiveOrOne(delay: int): (r: int)
    ensures r >= 1
  {
    if delay > 0 then delay else 1
  }

  /** The alarm after the last frame of a session:
      `(int32_t)interval - (now - scan_begin)`, in `uint32_t` arithmetic
      and read back as `int32_t`, or 1 s when not positive. */
  function NextSessionDelay(interval: u32, now: u32, scanBegin: u32): (r: int)
  {
    PositiveOrOne(ToInt32(U32Sub(interval, U32Sub(now, scanBegin))))
  }

  /** Pacing: a session that ends within its period re-arms so that the
      next one begins exactly one interval after it began; one that
      overran its period starts the next one a second later. */
  lemma NextSessionOnPeriod(interval: u32, now: u32, scanBegin: u32)
    requires interval < 0x8000_0000
    requires scanBegin <= now && now - scanBegin < 0x8000_0000
    ensures now - scanBegin < interval ==> now + NextSessionDelay(interval, now, scanBegin) == scanBegin + interval
    ensures now - scanBegin >= interval ==> NextSessionDelay(interval, now, scanBegin) == 1
  {
    var elapsed := U32Sub(now, scanBegin);
    assert elapsed == now - scanBegin;
    var d := U32Sub(interval, elapsed);
    if elapsed <= interval {
      assert d == interval - elapsed;
      assert ToInt32(d) == d;
    } else {
      assert d == interval - elapsed + U32;
      assert d >= 0x8000_0000;
      assert ToInt32(d) < 0;
    }
  }

  /** The same arithmetic across the wrap of the RTC: a session that began
      just before the `uint32_t` counter wrapped is still paced by its
      elapsed time. */
  lemma NextSessionAcrossWrap(interval: u32, now: u32, scanBegin: u32)
    requires interval < 0x8000_0000
    requires now < scanBegin && now + U32 - scanBegin < interval
    ensures NextSessionDelay(interval, now, scanBegin) == interval - (now + U32 - scanBegin)
  {
    var elapsed := U32Sub(now, scanBegin);
    assert elapsed == now + U32 - scanBegin;
    assert U32Sub(interval, elapsed) == interval - elapsed;
  }

  // ---------------------------------------------------------------------
  // Uplink frames
  // ---------------------------------------------------------------------

  datatype Source = SensorOnly | GpsSource | WifiSource | BleSource
  {
    /** Wi-Fi and BLE payloads carry a record count. */
    predicate Counted() { this == WifiSource || this == BleSource }
  }

  /** The frame identifier of a source, with or without the
      accelerometer block. */
  function FrameId(source: Source, acc: bool): byte
  {
    match source
    case SensorOnly => if acc then IdSensorAcc else IdSensor
    case GpsSource => if acc then IdGpsAcc else IdGps
    case WifiSource => if acc then IdWifiAcc else IdWifi
    case BleSource => if acc then IdBleAcc else IdBle
  }

  /** The inverse of `FrameId`: the source and the accelerometer flag of
      an identifier. */
  function SourceOfId(id: byte): (r: Option<(Source, bool)>)
    ensures r.Some? ==> FrameId(r.value.0, r.value.1) == id
  {
    if id == IdSensor then Some((SensorOnly, false))
    else if id == IdSensorAcc then Some((SensorOnly, true))
    else if id == IdGps then Some((GpsSource, false))
    else if id == IdGpsAcc then Some((GpsSource, true))
    else if id == IdWifi then Some((WifiSource, false))
    else if id == IdWifiAcc then Some((WifiSource, true))
    else if id == IdBle then Some((BleSource, false))
    else if id == IdBleAcc then Some((BleSource, true))
    else None
  }

  /** The content of one uplink: its source, the event state, the sensor
      readings, the accelerometer axes when enabled and the scan data. */
  datatype Report = Report(source: Source, event: byte, sensors: Sensors, motion: Option<Motion>, data: seq<byte>)

  predicate ReportOk(r: Report)
  {
    IsInt8(r.sensors.battery) && IsInt16(r.sensors.temp) && 0 <= r.sensors.light < 0x1_0000
    && (r.motion.Some? ==> IsInt16(r.motion.value.ax) && IsInt16(r.motion.value.ay) && IsInt16(r.motion.value.az))
    && (r.source == SensorOnly ==> r.data == [])
  }

  /** The fixed part of every header: identifier, event state, battery,
      then temperature and light big-endian. */
  function SensorBlock(id: byte, event: byte, s: Sensors): (h: seq<byte>)
    ensures |h| == 7
  {
    [id, event, ToByte(s.battery)] + BE(s.temp, 2) + BE(s.light, 2)
  }

  /** The three accelerometer axes big-endian, present only when the
      accelerometer is enabled. */
  function MotionBlock(m: Option<Motion>): (h: seq<byte>)
    ensures |h| == if m.Some? then 6 else 0
  {
    if m.Some? then BE(m.value.ax, 2) + BE(m.value.ay, 2) + BE(m.value.az, 2) else []
  }

  /** The header every frame starts with. */
  function Header(id: byte, event: byte, s: Sensors, m: Option<Motion>): (h: seq<byte>)
    ensures |h| == if m.Some? then 13 else 7
  {
    SensorBlock(id, event, s) + MotionBlock(m)
  }

  /** The record count byte of a Wi-Fi or BLE payload. */
  function CountByte(data: seq<byte>): byte
  {
    ToByte(|data| / RecordSize)
  }

  /** The frame `app_tracker_scan_result_send` builds for a report. */
  function EncodeFrame(r: Report): (f: seq<byte>)
    ensures |f| == |Header(0, 0, r.sensors, r.motion)| + (if r.source.Counted() then 1 else 0) + |r.data|
    ensures f[0] == FrameId(r.source, r.motion.Some?) && f[1] == r.event
  {
    Header(FrameId(r.source, r.motion.Some?), r.event, r.sensors, r.motion)
    + (if r.source.Counted() then [CountByte(r.data)] else [])
    + r.data
  }

  /** The sensor readings a receiver takes from the first seven bytes. */
  function SensorsAt(f: seq<byte>): Sensors
    requires |f| >= 7
  {
    Sensors(SignedBE(f[2..3]), SignedBE(f[3..5]), ValueBE(f[5..7]))
  }

  /** The accelerometer axes a receiver takes from bytes 7 to 12. */
  function MotionAt(f: seq<byte>): Motion
    requires |f| >= 13
  {
    Motion(SignedBE(f[7..9]), SignedBE(f[9..11]), SignedBE(f[11..13]))
  }

  /** How a receiver reads a frame back; None for what no tracker sends. */
  function DecodeFrame(f: seq<byte>): (r: Option<Report>)
  {
    if |f| < 7 then None
    else match SourceOfId(f[0])
      case None => None
      case Some(sa) =>
        var source, acc := sa.0, sa.1;
        var h := if acc then 13 else 7;
        if |f| < h then None
        else
          var motion := if acc then Some(MotionAt(f)) else None;
          var rest := f[h..];
          if source == SensorOnly then
            if rest == [] then Some(Report(source, f[1], SensorsAt(f), motion, [])) else None
          else if !source.Counted() then
            Some(Report(source, f[1], SensorsAt(f), motion, rest))
          else if |rest| >= 1 && rest[0] == CountByte(rest[1..]) then
            Some(Report(source, f[1], SensorsAt(f), motion, rest[1..]))
          else None
  }

  lemma SourceOfFrameId(source: Source, acc: bool)
    ensures SourceOfId(FrameId(source, acc)) == Some((source, acc))
  {
  }

  /** The sensor fields survive their big-endian copy. */
  lemma ReadSensors(f: seq<byte>, id: byte, event: byte, s: Sensors)
    requires IsInt8(s.battery) && IsInt16(s.temp) && 0 <= s.light < 0x1_0000
    requires |f| >= 7 && f[..7] == SensorBlock(id, event, s)
    ensures SensorsAt(f) == s
  {
    var x, y, z := BE(s.battery, 1), BE(s.temp, 2), BE(s.light, 2);
    assert x == [ToByte(s.battery)];
    assert SensorBlock(id, event, s) == [id, event] + x + y + z;
    SignedBEOfBE(s.battery, 1);
    SignedBEOfBE(s.temp, 2);
    ValueBEOfBE(s.light, 2);
    assert s.light % Pow256(2) == s.light by { assert Pow256(2) == 0x1_0000; }
    hide BE, LE, ValueBE, SignedBE, Pow256, SensorBlock, ToByte;
    SplitSensorBytes(f, [id, event], x, y, z);
  }

  /** Seven bytes holding a two-byte prefix and fields of one, two and
      two bytes hold each field at its offset. */
  lemma SplitSensorBytes(f: seq<byte>, p: seq<byte>, x: seq<byte>, y: seq<byte>, z: seq<byte>)
    requires |p| == 2 && |x| == 1 && |y| == 2 && |z| == 2
    requires |f| >= 7 && f[..7] == p + x + y + z
    ensures f[2..3] == x && f[3..5] == y && f[5..7] == z
  {
    var w := f[..7];
    assert f[2] == w[2] == x[0];
    forall i | 0 <= i < 2
      ensures f[3 + i] == y[i] && f[5 + i] == z[i]
    {
      assert w[3 + i] == f[3 + i] && w[5 + i] == f[5 + i];
    }
  }

  /** Six bytes holding three two-byte fields hold each at its offset. */
  lemma SplitThree(f: seq<byte>, o: nat, x: seq<byte>, y: seq<byte>, z: seq<byte>)
    requires |x| == 2 && |y| == 2 && |z| == 2
    requires o + 6 <= |f| && f[o..o + 6] == x + y + z
    ensures f[o..o + 2] == x && f[o + 2..o + 4] == y && f[o + 4..o + 6] == z
  {
    var w := f[o..o + 6];
    forall i | 0 <= i < 2
      ensures f[o + i] == x[i] && f[o + 2 + i] == y[i] && f[o + 4 + i] == z[i]
    {
      assert w[i] == f[o + i] && w[2 + i] == f[o + 2 + i] && w[4 + i] == f[o + 4 + i];
    }
  }

  /** The accelerometer axes survive their big-endian copy. */
  lemma ReadMotion(f: seq<byte>, m: Motion)
    requires IsInt16(m.ax) && IsInt16(m.ay) && IsInt16(m.az)
    requires |f| >= 13 && f[7..13] == MotionBlock(Some(m))
    ensures MotionAt(f) == m
  {
    SplitThree(f, 7, BE(m.ax, 2), BE(m.ay, 2), BE(m.az, 2));
    SignedBEOfBE(m.ax, 2);
    SignedBEOfBE(m.ay, 2);
    SignedBEOfBE(m.az, 2);
  }

  /** Every frame the tracker sends decodes to the report it was built
      from: the identifier tells the source and the header length, the
      count byte agrees with the payload. */
  lemma DecodeEncodeFrame(r: Report)
    requires ReportOk(r)
    ensures DecodeFrame(EncodeFrame(r)) == Some(r)
  {
    var f := EncodeFrame(r);
    var acc := r.motion.Some?;
    var id := FrameId(r.source, acc);
    var a := SensorBlock(id, r.event, r.sensors);
    var b := MotionBlock(r.motion);
    var tail := (if r.source.Counted() then [CountByte(r.data)] else []) + r.data;
    EncodeFrameParts(r);
    hide EncodeFrame, DecodeFrame, Header, SensorBlock, MotionBlock, SensorsAt, MotionAt, SignedBE, ValueBE, BE;
    SplitParts(f, a, b, tail);
    ReadSensors(f, id, r.event, r.sensors);
    if acc {
      ReadMotion(f, r.motion.value);
    }
    DecodeFromParts(f, r, |a| + |b|, tail);
  }

  lemma EncodeFrameParts(r: Report)
    ensures EncodeFrame(r) == SensorBlock(FrameId(r.source, r.motion.Some?), r.event, r.sensors) + MotionBlock(r.motion)
                              + ((if r.source.Counted() then [CountByte(r.data)] else []) + r.data)
  {
  }

  /** The three parts of a concatenation at their offsets. */
  lemma SplitParts(f: seq<byte>, a: seq<byte>, b: seq<byte>, c: seq<byte>)
    requires f == a + b + c
    ensures f[..|a|] == a && f[|a|..|a| + |b|] == b && f[|a| + |b|..] == c
  {
  }

  /** A frame holding a report's identifier, event, readings and payload
      at their offsets decodes to that report. */
  lemma DecodeFromParts(f: seq<byte>, r: Report, h: nat, tail: seq<byte>)
    requires r.source == SensorOnly ==> r.data == []
    requires h == (if r.motion.Some? then 13 else 7) && |f| == h + |tail|
    requires f[0] == FrameId(r.source, r.motion.Some?) && f[1] == r.event && SensorsAt(f) == r.sensors
    requires r.motion.Some? ==> MotionAt(f) == r.motion.value
    requires f[h..] == tail && tail == (if r.source.Counted() then [CountByte(r.data)] else []) + r.data
    ensures DecodeFrame(f) == Some(r)
  {
    SourceOfFrameId(r.source, r.motion.Some?);
    assert SourceOfId(f[0]) == Some((r.source, r.motion.Some?));
    var motion := if r.motion.Some? then Some(MotionAt(f)) else None;
    assert motion == r.motion;
    var rep := Report(r.source, f[1], SensorsAt(f), motion, r.data);
    assert rep == r;
    if r.source == SensorOnly {
      assert tail == [];
    } else if !r.source.Counted() {
      assert tail == r.data;
    } else {
      assert tail[0] == CountByte(tail[1..]) && tail[1..] == r.data;
    }
  }

  // ---------------------------------------------------------------------
  // What a tick hands to the modem and to the radio
  // ---------------------------------------------------------------------

  datatype Uplink =
    | DataUplink(payload: seq<byte>, confirmed: bool, emergency: bool)
    | EmptyUplink(confirmed: bool)      // sent to flush MAC commands

  /** Whether `app_send_frame` hands a payload of `n` bytes to the modem:
      the duty cycle allows a transmission and the payload fits. */
  predicate Accepted(link: Link, n: int)
  {
    link.dutyCycle >= 0 && n <= link.maxPayload
  }

  /** The requests `app_send_frame` makes: none while the duty cycle
      forbids, an empty uplink for a payload too large, else the uplink. */
  function Requested(link: Link, payload: seq<byte>, confirmed: bool, emergency: bool): (u: seq<Uplink>)
    ensures |u| == (if link.dutyCycle < 0 then 0 else 1)
    ensures Accepted(link, |payload|) <==> u == [DataUplink(payload, confirmed, emergency)]
  {
    if link.dutyCycle < 0 then []
    else if |payload| > link.maxPayload then [EmptyUplink(confirmed)]
    else [DataUplink(payload, confirmed, emergency)]
  }

  /** The scan drivers started and stopped by the phases. */
  datatype RadioCall = Began(phase: Phase) | Ended(phase: Phase)

  function RadioCalls(s: Step): seq<RadioCall>
  {
    match s
    case Start(p, _) => [Began(p)]
    case Continue(e, b, _) => [Ended(e), Began(b)]
    case Finish(p) => [Ended(p)]
    case Retry => []
    case Stall => []
  }

  /** A frame is confirmed under the 1C retry policy or for a user alarm. */
  predicate Confirmed(packetPolicy: byte, eventState: byte)
  {
    packetPolicy == RetryConfirmed || eventState == UserEvent
  }

  /** The Wi-Fi or BLE length after the cut to `max * 7` computed as
      `uint8_t`. */
  function Truncated(len: int, max: byte): (r: int)
    ensures r <= len && r <= ToByte(max * RecordSize)
    ensures len <= ToByte(max * RecordSize) ==> r == len
  {
    var lenMax := ToByte(max * RecordSize);
    if len > lenMax then lenMax else len
  }

  /** `scan_result_num` after a phase ended with `len` bytes: one more
      (in `int8_t`) for a non-empty result, capped at 3. */
  function Counted(num: int, len: int): (r: int)
    requires IsInt8(num)
    ensures IsInt8(r) && r <= 3
    ensures len == 0 && num <= 3 ==> r == num
    ensures len != 0 && num < 3 ==> r == num + 1
  {
    var n := if len != 0 then ToInt8(num + 1) else num;
    if n > 3 then 3 else n
  }

  /** `tracker_gps_scan_len` after the GNSS phase: 8 for a fix outside
      almanac maintenance, 0 for a fix taken during it, unchanged without
      a fix. */
  function GpsLenAfter(fix: Option<Fix>, maintenance: bool, len: int): int
  {
    if fix.None? then len else if maintenance then 0 else 8
  }

  /** The position bytes of a fix: longitude then latitude, big-endian. */
  function GpsPayload(f: Fix): (p: seq<byte>)
    ensures |p| == 8
  {
    BE(f.lon, 4) + BE(f.lat, 4)
  }

  /** The source `app_tracker_scan_result_send` reports: GNSS before Wi-Fi
      before BLE, sensors alone when all three buffers are empty. */
  function Pending(gpsLen: int, wifiLen: int, bleLen: int): (s: Source)
    ensures s == SensorOnly <==> gpsLen == 0 && wifiLen == 0 && bleLen == 0
    ensures s == GpsSource <==> gpsLen != 0
    ensures s == WifiSource <==> gpsLen == 0 && wifiLen != 0
    ensures s == BleSource <==> gpsLen == 0 && wifiLen == 0 && bleLen != 0
  {
    if gpsLen == 0 && wifiLen == 0 && bleLen == 0 then SensorOnly
    else if gpsLen != 0 then GpsSource
    else if wifiLen != 0 then WifiSource
    else BleSource
  }

  function Zeros(n: nat): seq<byte>
  {
    seq(n, _ => 0)
  }

  /** `memset(a, 0, sizeof a)`. */
  method Memset(a: array<byte>)
    modifies a
    ensures a[..] == Zeros(a.Length)
  {
    forall i | 0 <= i < a.Length {
      a[i] := 0;
    }
  }

  /** A driver writing `src` to the start of `dst`. */
  method CopyIn(dst: array<byte>, src: seq<byte>)
    requires |src| <= dst.Length
    modifies dst
    ensures dst[..] == src + old(dst[|src|..])
  {
    forall i | 0 <= i < |src| {
      dst[i] := src[i];
    }
    assert dst[..] == src + old(dst[|src|..]) by {
      assert forall i :: 0 <= i < dst.Length ==> dst[..][i] == (src + old(dst[|src|..]))[i];
    }
  }

  /** The plain fields of the application, for stating what a step
      changes and what it keeps. */
  datatype Registers = Registers(
    config: Config, status: byte, scanBegin: u32,
    gpsLen: int, wifiLen: int, bleLen: int, frameLen: int,
    scanResult: bool, resultNum: int, eventState: byte,
    alarm: Option<int>, uplinks: seq<Uplink>, radio: seq<RadioCall>)

  /** The report `app_tracker_scan_result_send` builds from the state
      `r`, the sensor readings and the data of the pending source. */
  function Outgoing(r: Registers, s: Sensors, motion: Motion, data: seq<byte>): Report
  {
    Report(Pending(r.gpsLen, r.wifiLen, r.bleLen), r.eventState, s,
           if r.config.accEn != 0 then Some(motion) else None, data)
  }

  /** The end of `app_tracker_scan_result_send` from state `r`, for the
      frame of `src`: a frame that went out (`ok`) empties its buffer and
      counts down (in `int8_t`); while frames remain the alarm is
      `LORWAN_SEND_INTERVAL_MIN` and the status stays, otherwise the
      session ends and the alarm covers the rest of the periodic
      interval. */
  function Settled(r: Registers, src: Source, ok: bool, now: u32): Registers
    requires IsInt8(r.resultNum)
  {
    var left := if ok then ToInt8(r.resultNum - 1) else r.resultNum;
    r.(gpsLen := if ok && src == GpsSource then 0 else r.gpsLen,
       wifiLen := if ok && src == WifiSource then 0 else r.wifiLen,
       bleLen := if ok && src == BleSource then 0 else r.bleLen,
       resultNum := left,
       status := if left != 0 then r.status else Idle,
       alarm := Some(if left != 0 then SendIntervalMin else NextSessionDelay(r.config.interval, now, r.scanBegin)))
  }

  /** The state after `app_tracker_scan_result_send` built `frame` in
      state `r`: a sensor-only frame forces the pending count to 1; the
      frame is confirmed under the 1C policy or for a user alarm. */
  function Sent(r: Registers, frame: seq<byte>, link: Link, now: u32): Registers
    requires IsInt8(r.resultNum)
  {
    Settled(Built(r, frame, link), Pending(r.gpsLen, r.wifiLen, r.bleLen), Accepted(link, |frame|), now)
  }

  /** The state once `frame` is in the frame buffer and was handed to
      the modem, before the pending count is settled. */
  function Built(r: Registers, frame: seq<byte>, link: Link): (b: Registers)
    requires IsInt8(r.resultNum)
    ensures IsInt8(b.resultNum)
  {
    var src := Pending(r.gpsLen, r.wifiLen, r.bleLen);
    r.(frameLen := |frame|, resultNum := if src == SensorOnly then 1 else r.resultNum,
       uplinks := r.uplinks + Requested(link, frame, Confirmed(r.config.packetPolicy, r.eventState), false))
  }

  // ---------------------------------------------------------------------
  // What one alarm tick does, on values
  // ---------------------------------------------------------------------

  /** The three scan buffers. */
  datatype Buffers = Buffers(gps: seq<byte>, wifi: seq<byte>, ble: seq<byte>)

  /** Everything a tick reads and writes besides the frame buffer: the
      plain fields, the scan buffers and the assistance cache. */
  datatype World = World(regs: Registers, bufs: Buffers, cache: VA.PositionTimeCache)

  /** A buffer after a driver wrote `s` at its start. */
  function Overlay(prev: seq<byte>, s: seq<byte>): (r: seq<byte>)
    ensures |s| <= |prev| ==> |r| == |prev| && r[..|s|] == s && r[|s|..] == prev[|s|..]
  {
    if |s| <= |prev| then s + prev[|s|..] else s
  }

  /** The GNSS buffer after the phase end: the position of a fix taken
      outside almanac maintenance, zeros for one taken during it,
      untouched without a fix. */
  function GnssBuffer(prev: seq<byte>, fix: Option<Fix>, due: bool): seq<byte>
  {
    if fix.None? then prev
    else if due then Zeros(|prev|)
    else Overlay(prev, GpsPayload(fix.value))
  }

  /** The result length of a phase, written. */
  function WithLen(r: Registers, p: Phase, n: int): Registers
  {
    match p
    case Ble => r.(bleLen := n)
    case Wifi => r.(wifiLen := n)
    case Gnss => r.(gpsLen := n)
  }

  /** The fields after `app_tracker_*_scan_begin`. */
  function Opened(r: Registers, p: Phase): Registers
  {
    WithLen(r, p, 0).(radio := r.radio + [Began(p)])
  }

  /** The fields after `app_tracker_*_scan_end` left `len` result bytes:
      one more pending frame for a non-empty result (capped at 3), and
      `scan_result` raised for it outside test mode. */
  function Closed(r: Registers, p: Phase, len: int): Registers
    requires IsInt8(r.resultNum)
  {
    WithLen(r, p, len).(radio := r.radio + [Ended(p)],
                         resultNum := Counted(r.resultNum, len),
                         scanResult := r.scanResult || (r.config.testMode == 0 && len != 0))
  }

  /** The scan buffer a phase begin clears. */
  function Cleared(b: Buffers, p: Phase): Buffers
  {
    match p
    case Ble => b.(ble := Zeros(BufferSize))
    case Wifi => b.(wifi := Zeros(BufferSize))
    case Gnss => b.(gps := Zeros(BufferSize))
  }

  /** The scan buffer a phase end fills from the drivers of the tick. */
  function Filled(b: Buffers, p: Phase, t: Tick, due: bool): Buffers
  {
    match p
    case Ble => b.(ble := Overlay(b.ble, t.ble))
    case Wifi => if t.wifi.Some? then b.(wifi := Overlay(b.wifi, t.wifi.value)) else b
    case Gnss => b.(gps := GnssBuffer(b.gps, t.fix, due))
  }

  /** The result length a phase end leaves: the driver's count cut to
      `max * 7` for Wi-Fi and BLE (a failed Wi-Fi read keeps the old
      length), 8 or 0 for GNSS. */
  function LenAfter(r: Registers, p: Phase, t: Tick, due: bool): int
  {
    match p
    case Ble => Truncated(|t.ble|, r.config.bleMax)
    case Wifi => Truncated(if t.wifi.Some? then |t.wifi.value| else r.wifiLen, r.config.wifiMax)
    case Gnss => GpsLenAfter(t.fix, due, r.gpsLen)
  }

  /** A charging tracker whose almanac is due for maintenance. */
  predicate Due(c: VA.PositionTimeCache, t: Tick)
  {
    t.charging && VA.NeedsAlmanacMaintenance(c, t.now, MaintenanceDays)
  }

  /** The alarm that covers a phase: its configured duration, the
      adaptive one for GNSS. */
  function PhaseDuration(c: Config, p: Phase, adaptive: int): int
  {
    match p
    case Ble => c.bleDuration
    case Wifi => c.wifiDuration
    case Gnss => adaptive
  }

  /** `(int32_t)interval - d1 - d2 ...` over the durations of the first
      `n` phases of the plan, computed in `uint32_t`. */
  function Remaining(interval: u32, plan: seq<Phase>, n: nat, c: Config, adaptive: int): (r: int)
    requires n <= |plan|
    ensures 0 <= r < U32
  {
    if n == 0 then interval
    else U32Sub(Remaining(interval, plan, n - 1, c, adaptive), PhaseDuration(c, plan[n - 1], adaptive))
  }

  /** The fields after a step: `begin` is the adaptive GNSS duration for
      a phase that begins, `finish` the alarm written when the last phase
      ends (overwritten by the sending that follows). */
  function Stepped(r: Registers, step: Step, t: Tick, due: bool, begin: int, finish: int): Registers
    requires IsInt8(r.resultNum)
  {
    match step
    case Start(p, k) =>
      Opened(r, p).(scanBegin := t.now, status := k, alarm := Some(PhaseDuration(r.config, p, begin)))
    case Continue(e, p, k) =>
      Opened(Closed(r, e, LenAfter(r, e, t, due)), p).(status := k, alarm := Some(PhaseDuration(r.config, p, begin)))
    case Finish(e) =>
      Closed(r, e, LenAfter(r, e, t, due)).(status := Sending, alarm := Some(finish))
    case Retry => r
    case Stall => r
  }

  /** The scan buffers after a step. */
  function Refilled(b: Buffers, step: Step, t: Tick, due: bool): Buffers
  {
    match step
    case Start(p, _) => Cleared(b, p)
    case Continue(e, p, _) => Cleared(Filled(b, e, t, due), p)
    case Finish(e) => Filled(b, e, t, due)
    case Retry => b
    case Stall => b
  }

  /** The phase a step ends, if any. */
  function EndedPhase(step: Step): Option<Phase>
  {
    match step
    case Continue(e, _, _) => Some(e)
    case Finish(e) => Some(e)
    case _ => None
  }

  /** The step of a tick: what `NextStep` chooses from the plan of the
      strategy. `found` is `scan_result` after the end of the running
      phase; the shortcut is WIFI_GNSS on a charging tracker due for
      almanac maintenance. */
  function StepOf(w: World, t: Tick): Step
  {
    var r := w.regs;
    var plan := Plan(r.config.scanType);
    var due := Due(w.cache, t);
    var found := 1 <= r.status as int <= |plan| && r.config.testMode == 0
                 && LenAfter(r, plan[r.status - 1], t, due) != 0;
    NextStep(plan, r.status, r.config.scanType == WifiGnss && due, found)
  }

  /** The assistance cache after a step: a GNSS end stores its fix. */
  function CacheAfter(c: VA.PositionTimeCache, ended: Option<Phase>, t: Tick): VA.PositionTimeCache
  {
    if ended == Some(Gnss) && t.fix.Some?
    then VA.OwnFixStored(c, t.fix.value.lat, t.fix.value.lon, t.now) else c
  }

  /** The alarm written when the running phase is the last one: the
      periodic interval less the durations of the phases of the plan up
      to it, where the adaptive GNSS duration is read from the cache `c`
      (after the GNSS end under GNSS_WIFI, before it elsewhere). */
  function FinishAlarm(w: World, t: Tick, c: VA.PositionTimeCache): int
  {
    var r := w.regs;
    var plan := Plan(r.config.scanType);
    var spent := AdaptiveGnssDuration(r.config.gnssDuration, if r.config.scanType == GnssWifi then c else w.cache,
                                      t.now, t.charging);
    if r.status as int <= |plan|
    then PositiveOrOne(ToInt32(Remaining(r.config.interval, plan, r.status as nat, r.config, spent)))
    else 1
  }

  /** The reference for the scan part of `app_tracker_scan_process`: the
      step of the tick applied to the fields, the scan buffers and the
      assistance cache. */
  function Advance(w: World, t: Tick): World
    requires IsInt8(w.regs.resultNum)
  {
    var step := StepOf(w, t);
    var due := Due(w.cache, t);
    var c' := CacheAfter(w.cache, EndedPhase(step), t);
    World(Stepped(w.regs, step, t, due, AdaptiveGnssDuration(w.regs.config.gnssDuration, w.cache, t.now, t.charging),
                  FinishAlarm(w, t, c')),
          Refilled(w.bufs, step, t, due), c')
  }

  /** `Advance` for a tick that begins a session. */
  lemma StartGoal(w: World, t: Tick, p: Phase, k: byte)
    requires IsInt8(w.regs.resultNum) && StepOf(w, t) == Start(p, k)
    ensures Advance(w, t) ==
      World(Opened(w.regs, p).(scanBegin := t.now, status := k,
              alarm := Some(PhaseDuration(w.regs.config, p, AdaptiveGnssDuration(w.regs.config.gnssDuration, w.cache, t.now, t.charging)))),
            Cleared(w.bufs, p), w.cache)
  {
  }

  /** `Advance` for a tick that ends phase `e` empty-handed and begins `p`. */
  lemma ContinueGoal(w: World, t: Tick, e: Phase, p: Phase, k: byte)
    requires IsInt8(w.regs.resultNum) && StepOf(w, t) == Continue(e, p, k)
    ensures var r, due := w.regs, Due(w.cache, t);
      Advance(w, t) ==
      World(Opened(Closed(r, e, LenAfter(r, e, t, due)), p).(status := k,
              alarm := Some(PhaseDuration(r.config, p, AdaptiveGnssDuration(r.config.gnssDuration, w.cache, t.now, t.charging)))),
            Cleared(Filled(w.bufs, e, t, due), p), CacheAfter(w.cache, Some(e), t))
  {
  }

  /** `Advance` for a tick that ends the last phase of the session. */
  lemma FinishGoal(w: World, t: Tick, e: Phase, delay: int)
    requires IsInt8(w.regs.resultNum) && StepOf(w, t) == Finish(e)
    requires delay == FinishAlarm(w, t, CacheAfter(w.cache, Some(e), t))
    ensures var r, due, c' := w.regs, Due(w.cache, t), CacheAfter(w.cache, Some(e), t);
      Advance(w, t) ==
      World(Closed(r, e, LenAfter(r, e, t, due)).(status := Sending, alarm := Some(delay)),
            Filled(w.bufs, e, t, due), c')
  {
  }

  /** `Advance` for a tick with no scan work. */
  lemma IdleGoal(w: World, t: Tick)
    requires IsInt8(w.regs.resultNum) && (StepOf(w, t).Retry? || StepOf(w, t).Stall?)
    ensures Advance(w, t) == w
  {
  }

  lemma RemainingOne(interval: u32, plan: seq<Phase>, c: Config, adaptive: int)
    requires |plan| >= 1
    ensures Remaining(interval, plan, 1, c, adaptive) == U32Sub(interval, PhaseDuration(c, plan[0], adaptive))
  {
  }

  lemma RemainingThree(interval: u32, plan: seq<Phase>, c: Config, adaptive: int)
    requires |plan| >= 3
    ensures Remaining(interval, plan, 3, c, adaptive) ==
      U32Sub(U32Sub(U32Sub(interval, PhaseDuration(c, plan[0], adaptive)), PhaseDuration(c, plan[1], adaptive)),
             PhaseDuration(c, plan[2], adaptive))
  {
    RemainingOne(interval, plan, c, adaptive);
  }

  // ---------------------------------------------------------------------
  // Properties of a session
  // ---------------------------------------------------------------------

  /** A session begins with the first phase of the plan, BLE for the
      BLE-first strategies even when the almanac is due, except that
      WIFI_GNSS goes straight to GNSS (status 2) on a charging tracker
      due for almanac maintenance. */
  lemma FirstPhase(w: World, t: Tick)
    requires w.regs.status == Idle && |Plan(w.regs.config.scanType)| > 0
    ensures var plan := Plan(w.regs.config.scanType);
      StepOf(w, t) == if w.regs.config.scanType == WifiGnss && Due(w.cache, t) then Start(Gnss, 2)
                      else Start(plan[0], 1)
    ensures w.regs.config.scanType in {BleOnly, BleWifi, BleGnss, BleWifiGnss} ==> StepOf(w, t) == Start(Ble, 1)
  {
  }

  /** A phase that found something ends the session: no later phase of
      the plan runs. */
  lemma FoundEndsSession(w: World, t: Tick)
    requires var plan := Plan(w.regs.config.scanType);
      1 <= w.regs.status as int <= |plan| && w.regs.config.testMode == 0
      && LenAfter(w.regs, plan[w.regs.status - 1], t, Due(w.cache, t)) != 0
    ensures StepOf(w, t) == Finish(Plan(w.regs.config.scanType)[w.regs.status - 1])
  {
  }

  /** A fix taken while the almanac is due for maintenance goes to the
      assistance cache but leaves no GNSS result to send. */
  lemma MaintenanceFixNotSent(w: World, t: Tick)
    requires IsInt8(w.regs.resultNum)
    requires EndedPhase(StepOf(w, t)) == Some(Gnss) && Due(w.cache, t) && t.fix.Some?
    ensures Advance(w, t).regs.gpsLen == 0
    ensures Advance(w, t).cache == VA.OwnFixStored(w.cache, t.fix.value.lat, t.fix.value.lon, t.now)
  {
  }

  /** The status a step leaves. */
  function StatusAfter(status: byte, s: Step): byte
  {
    match s
    case Start(_, k) => k
    case Continue(_, _, k) => k
    case Finish(_) => Sending
    case Retry => status
    case Stall => status
  }

  /** The steps of consecutive ticks from `status` under `plan`, where
      `ends[i]` says whether the phase ended at tick `i` found something. */
  function Walk(plan: seq<Phase>, status: byte, ends: seq<bool>): (steps: seq<Step>)
    requires |plan| <= 3
    ensures |steps| == |ends|
    decreases |ends|
  {
    if |ends| == 0 then []
    else
      var s := NextStep(plan, status, false, ends[0]);
      [s] + Walk(plan, StatusAfter(status, s), ends[1..])
  }

  /** The phases the steps end, in order. */
  function EndedPhases(steps: seq<Step>): seq<Phase>
  {
    if |steps| == 0 then []
    else (if EndedPhase(steps[0]).Some? then [EndedPhase(steps[0]).value] else []) + EndedPhases(steps[1..])
  }

  /** How many phases run when the phase ends report `ends`: up to and
      including the first that found something. */
  function PhasesRun(ends: seq<bool>): (n: nat)
    requires |ends| >= 1
    ensures 1 <= n <= |ends|
  {
    if |ends| == 1 || ends[0] then 1 else 1 + PhasesRun(ends[1..])
  }

  lemma {:induction false} EndedPhasesCons(s: Step, rest: seq<Step>)
    ensures EndedPhases([s] + rest) ==
      (if EndedPhase(s).Some? then [EndedPhase(s).value] else []) + EndedPhases(rest)
  {
    assert ([s] + rest)[1..] == rest;
  }

  /** Once the results are waiting to be sent, no phase runs. */
  lemma {:induction false} WalkWhileSending(plan: seq<Phase>, ends: seq<bool>)
    requires |plan| <= 3
    ensures EndedPhases(Walk(plan, Sending, ends)) == []
    decreases |ends|
  {
    if |ends| > 0 {
      EndedPhasesCons(Retry, Walk(plan, Sending, ends[1..]));
      WalkWhileSending(plan, ends[1..]);
    }
  }

  /** One tick of a session at phase `k`: the phase ends, and either
      the results are sent or phase `k + 1` begins. */
  lemma WalkStep(plan: seq<Phase>, k: nat, ends: seq<bool>)
    requires 1 <= k <= |plan| <= 3 && |ends| >= 1
    ensures ends[0] || k == |plan| ==>
      Walk(plan, k as byte, ends) == [Finish(plan[k - 1])] + Walk(plan, Sending, ends[1..])
    ensures !ends[0] && k < |plan| ==>
      Walk(plan, k as byte, ends) == [Continue(plan[k - 1], plan[k], (k + 1) as byte)] + Walk(plan, (k + 1) as byte, ends[1..])
  {
  }

  /** The phase that found something, or the last one, is the last to
      end. */
  lemma WalkLast(plan: seq<Phase>, k: nat, ends: seq<bool>)
    requires 1 <= k <= |plan| <= 3 && |ends| == |plan| - k + 1
    requires ends[0] || k == |plan|
    ensures EndedPhases(Walk(plan, k as byte, ends)) == [plan[k - 1]] && PhasesRun(ends) == 1
  {
    WalkStep(plan, k, ends);
    EndedPhasesCons(Finish(plan[k - 1]), Walk(plan, Sending, ends[1..]));
    WalkWhileSending(plan, ends[1..]);
  }

  lemma PhasesRunOn(ends: seq<bool>)
    requires |ends| >= 2 && !ends[0]
    ensures PhasesRun(ends) == 1 + PhasesRun(ends[1..])
  {
  }

  lemma EndedPhasesContinue(e: Phase, b: Phase, k: byte, rest: seq<Step>)
    ensures EndedPhases([Continue(e, b, k)] + rest) == [e] + EndedPhases(rest)
  {
    EndedPhasesCons(Continue(e, b, k), rest);
  }

  /** A phase that found nothing, short of the last, ends and hands
      over to the next. */
  lemma WalkContinue(plan: seq<Phase>, k: nat, ends: seq<bool>)
    requires 1 <= k < |plan| <= 3 && |ends| == |plan| - k + 1 && !ends[0]
    requires EndedPhases(Walk(plan, (k + 1) as byte, ends[1..])) == plan[k .. k + PhasesRun(ends[1..])]
    ensures EndedPhases(Walk(plan, k as byte, ends)) == plan[k - 1 .. k - 1 + PhasesRun(ends)]
  {
    hide *;
    var n := PhasesRun(ends[1..]);
    PhasesRunOn(ends);
    WalkStep(plan, k, ends);
    EndedPhasesContinue(plan[k - 1], plan[k], (k + 1) as byte, Walk(plan, (k + 1) as byte, ends[1..]));
    assert plan[k - 1 .. k + n] == [plan[k - 1]] + plan[k .. k + n];
  }

  lemma {:induction false} WalkFrom(plan: seq<Phase>, k: nat, ends: seq<bool>)
    requires 1 <= k <= |plan| <= 3 && |ends| == |plan| - k + 1
    ensures EndedPhases(Walk(plan, k as byte, ends)) == plan[k - 1 .. k - 1 + PhasesRun(ends)]
    decreases |ends|
  {
    hide *;
    if ends[0] || k == |plan| {
      WalkLast(plan, k, ends);
    } else {
      WalkFrom(plan, k + 1, ends[1..]);
      WalkContinue(plan, k, ends);
    }
  }

  /** A session that starts outside the WIFI_GNSS shortcut runs the
      phases of its plan in order and stops after the first that found
      something, or after the last. */
  lemma SessionStopsAtFirstFind(plan: seq<Phase>, ends: seq<bool>)
    requires 1 <= |plan| <= 3 && |ends| == |plan|
    ensures var steps := Walk(plan, Idle, [false] + ends);
      steps[0] == Start(plan[0], 1) && EndedPhases(steps) == plan[..PhasesRun(ends)]
  {
    assert ([false] + ends)[1..] == ends;
    EndedPhasesCons(Start(plan[0], 1), Walk(plan, 1, ends));
    WalkFrom(plan, 1, ends);
  }

  /** The sum of the alarm durations of the first `n` phases. */
  function Spent(plan: seq<Phase>, n: nat, c: Config, adaptive: int): int
    requires n <= |plan|
  {
    if n == 0 then 0 else Spent(plan, n - 1, c, adaptive) + PhaseDuration(c, plan[n - 1], adaptive)
  }

  /** When the phases fit in the interval, the `uint32_t` subtractions
      do not wrap and leave the interval less the time the phases took. */
  lemma {:induction false} RemainingNoWrap(interval: u32, plan: seq<Phase>, n: nat, c: Config, adaptive: int)
    requires n <= |plan| && 0 <= adaptive && Spent(plan, n, c, adaptive) <= interval
    ensures Remaining(interval, plan, n, c, adaptive) == interval - Spent(plan, n, c, adaptive)
  {
    if n > 0 {
      RemainingNoWrap(interval, plan, n - 1, c, adaptive);
    }
  }

  // ---------------------------------------------------------------------
  // One whole alarm tick, on values
  // ---------------------------------------------------------------------

  /** The bounds the application keeps on its lengths and counters. */
  predicate RegsOk(r: Registers)
  {
    (r.gpsLen == 0 || r.gpsLen == 8)
    && 0 <= r.wifiLen <= DriverMaxBytes && 0 <= r.bleLen <= DriverMaxBytes
    && 0 <= r.frameLen <= BufferSize
    && IsInt8(r.resultNum)
  }

  predicate BufsOk(b: Buffers)
  {
    |b.gps| == BufferSize && |b.wifi| == BufferSize && |b.ble| == BufferSize
  }

  predicate WorldOk(w: World)
  {
    RegsOk(w.regs) && BufsOk(w.bufs)
  }

  /** The bytes a source would send from the buffers. */
  function SendData(w: World, src: Source): (d: seq<byte>)
    requires WorldOk(w)
    ensures |d| <= DriverMaxBytes
  {
    match src
    case SensorOnly => []
    case GpsSource => w.bufs.gps[..w.regs.gpsLen]
    case WifiSource => w.bufs.wifi[..w.regs.wifiLen]
    case BleSource => w.bufs.ble[..w.regs.bleLen]
  }

  /** A phase end leaves a length its buffer can hold. */
  lemma LenAfterOk(r: Registers, p: Phase, t: Tick, due: bool)
    requires RegsOk(r) && TickOk(t)
    ensures RegsOk(Closed(r, p, LenAfter(r, p, t, due)))
  {
  }

  lemma SteppedOk(r: Registers, step: Step, t: Tick, due: bool, begin: int, finish: int)
    requires RegsOk(r) && TickOk(t)
    ensures RegsOk(Stepped(r, step, t, due, begin, finish))
  {
    match step
    case Start(p, _) =>
    case Continue(e, _, _) => LenAfterOk(r, e, t, due);
    case Finish(e) => LenAfterOk(r, e, t, due);
    case Retry =>
    case Stall =>
  }

  lemma RefilledOk(b: Buffers, step: Step, t: Tick, due: bool)
    requires BufsOk(b) && TickOk(t)
    ensures BufsOk(Refilled(b, step, t, due))
  {
  }

  /** A step keeps the bounds of the lengths and of the pending count. */
  lemma AdvanceOk(w: World, t: Tick)
    requires WorldOk(w) && TickOk(t)
    ensures WorldOk(Advance(w, t))
  {
    var step := StepOf(w, t);
    var due := Due(w.cache, t);
    var c' := CacheAfter(w.cache, EndedPhase(step), t);
    SteppedOk(w.regs, step, t, due, AdaptiveGnssDuration(w.regs.config.gnssDuration, w.cache, t.now, t.charging),
              FinishAlarm(w, t, c'));
    RefilledOk(w.bufs, step, t, due);
  }

  /** The state when the alarm fires: nothing armed, and the
      `scan_result` flag cleared at the top of the scan process. */
  function Fired(w: World): (f: World)
    ensures WorldOk(w) ==> WorldOk(f)
  {
    w.(regs := w.regs.(alarm := None, scanResult := false))
  }

  /** The frame the sending part of a tick builds in state `w`. */
  function FrameOf(w: World, t: Tick): seq<byte>
    requires WorldOk(w)
  {
    var src := Pending(w.regs.gpsLen, w.regs.wifiLen, w.regs.bleLen);
    EncodeFrame(Outgoing(w.regs, t.sensors, t.motion, SendData(w, src)))
  }

  /** What one alarm tick leaves: the new state and the frame it sent,
      if any. */
  datatype Outcome = Outcome(world: World, frame: Option<seq<byte>>)

  /** The reference for one alarm tick of `app_tracker_scan_process`:
      the scan step, then one frame sent when the status says so. */
  function Processed(w: World, t: Tick): (o: Outcome)
    requires WorldOk(w) && TickOk(t)
  {
    AdvanceOk(Fired(w), t);
    var w1 := Advance(Fired(w), t);
    if w1.regs.status == Sending
    then
      var frame := FrameOf(w1, t);
      Outcome(w1.(regs := Sent(w1.regs, frame, t.link, t.now)), Some(frame))
    else Outcome(w1, None)
  }

  /** `Processed` by the status the scan step leaves. */
  lemma ProcessedGoal(w: World, t: Tick)
    requires WorldOk(w) && TickOk(t) && WorldOk(Advance(Fired(w), t))
    ensures var w1 := Advance(Fired(w), t);
      Processed(w, t) == if w1.regs.status == Sending
                         then Outcome(w1.(regs := Sent(w1.regs, FrameOf(w1, t), t.link, t.now)), Some(FrameOf(w1, t)))
                         else Outcome(w1, None)
  {
  }

  // ---------------------------------------------------------------------
  // Starting a new session on demand
  // ---------------------------------------------------------------------

  /** `app_tracker_new_run(event)` on the fields: a session already
      running is left alone (only the event is recorded); an idle joined
      tracker re-arms the alarm to fire in one second; an idle tracker
      that has not joined forgets the event and the pending count. */
  function Rerun(r: Registers, event: byte, joined: bool): (r': Registers)
    ensures r'.status == r.status && r'.config == r.config && r'.scanBegin == r.scanBegin
    ensures r'.gpsLen == r.gpsLen && r'.wifiLen == r.wifiLen && r'.bleLen == r.bleLen
    ensures r'.uplinks == r.uplinks && r'.radio == r.radio
    ensures r'.alarm != r.alarm ==> r.status == Idle && joined && r'.alarm == Some(1)
    ensures r'.eventState == if r.status == Idle && !joined then 0 else event
  {
    if r.status != Idle then r.(eventState := event)
    else if joined then r.(eventState := event, alarm := Some(1))
    else r.(eventState := 0, resultNum := 0)
  }

  /** Only one session at a time: a request during a session changes
      nothing that the session reads, so the next tick takes the same
      step as it would have without the request. */
  lemma RerunDuringSession(w: World, event: byte, joined: bool, t: Tick)
    requires w.regs.status != Idle
    ensures StepOf(w.(regs := Rerun(w.regs, event, joined)), t) == StepOf(w, t)
  {
  }

  /** A request on an idle joined tracker arms the alarm whose tick
      begins a session with the first phase of the plan (the second one
      under the WIFI_GNSS maintenance shortcut). */
  lemma RerunStartsSession(w: World, event: byte, t: Tick)
    requires w.regs.status == Idle && |Plan(w.regs.config.scanType)| > 0
    ensures var w' := w.(regs := Rerun(w.regs, event, true));
      w'.regs.alarm == Some(1) && StepOf(Fired(w'), t).Start?
  {
  }

  /** A scan-type change mid-session (the track-type downlink sets the
      type, not the status) can leave the status past the end of the new
      plan. Here a session at its second phase is switched to GNSS_ONLY:
      the next tick takes no branch, arms no alarm and sends nothing, and
      a new-run request cannot restart it because the status is not idle.
      Nothing then fires the modem alarm again. */
  lemma ShortenedPlanStalls(w: World, t: Tick, event: byte, joined: bool)
    requires WorldOk(w) && TickOk(t)
    requires w.regs.config.scanType == GnssOnly && w.regs.status == 2
    ensures Processed(w, t) == Outcome(Fired(w), None)
    ensures Processed(w, t).world.regs.alarm.None?
    ensures Rerun(Processed(w, t).world.regs, event, joined).alarm.None?
  {
    IdleGoal(Fired(w), t);
  }

  // ---------------------------------------------------------------------
  // The application state
  // ---------------------------------------------------------------------

  /** The globals of the tracker application. `alarm` is the delay given
      to the modem's one-shot alarm since it last fired (the last write
      wins, None when nothing is armed); `uplinks` and `radio` record the
      requests to the modem and the scan drivers. */
  class App {
    var config: Config
    var status: byte
    var scanBegin: u32
    const gpsData: array<byte>
    var gpsLen: int
    const wifiData: array<byte>
    var wifiLen: int
    const bleData: array<byte>
    var bleLen: int
    const frameData: array<byte>
    var frameLen: int
    var scanResult: bool
    var resultNum: int
    var eventState: byte
    var alarm: Option<int>
    var uplinks: seq<Uplink>
    var radio: seq<RadioCall>

    ghost predicate Valid()
      reads this
    {
      gpsData.Length == BufferSize && wifiData.Length == BufferSize
      && bleData.Length == BufferSize && frameData.Length == BufferSize
      && gpsData != wifiData && gpsData != bleData && gpsData != frameData
      && wifiData != bleData && wifiData != frameData && bleData != frameData
      && (gpsLen == 0 || gpsLen == 8)
      && 0 <= wifiLen <= DriverMaxBytes && 0 <= bleLen <= DriverMaxBytes
      && 0 <= frameLen <= BufferSize
      && IsInt8(resultNum)
    }

    ghost function Regs(): Registers
      reads this
    {
      Registers(config, status, scanBegin, gpsLen, wifiLen, bleLen, frameLen,
                scanResult, resultNum, eventState, alarm, uplinks, radio)
    }

    ghost function Bufs(): Buffers
      reads gpsData, wifiData, bleData
    {
      Buffers(gpsData[..], wifiData[..], bleData[..])
    }

    ghost function State(va: VA.Assistance): World
      reads this, gpsData, wifiData, bleData, va
    {
      World(Regs(), Bufs(), va.cache)
    }

    /** The bytes of the buffer a source would send. */
    function DataOf(src: Source): seq<byte>
      requires Valid()
      reads this, gpsData, wifiData, bleData
    {
      match src
      case SensorOnly => []
      case GpsSource => gpsData[..gpsLen]
      case WifiSource => wifiData[..wifiLen]
      case BleSource => bleData[..bleLen]
    }

    constructor ()
      ensures Valid() && fresh(gpsData) && fresh(wifiData) && fresh(bleData) && fresh(frameData)
      ensures Regs() == Registers(DefaultConfig, Idle, 0, 0, 0, 0, 0, false, 0, 0, None, [], [])
    {
      config := DefaultConfig;
      status := Idle;
      scanBegin := 0;
      gpsData := new byte[BufferSize](_ => 0);
      gpsLen := 0;
      wifiData := new byte[BufferSize](_ => 0);
      wifiLen := 0;
      bleData := new byte[BufferSize](_ => 0);
      bleLen := 0;
      frameData := new byte[BufferSize](_ => 0);
      frameLen := 0;
      scanResult := false;
      resultNum := 0;
      eventState := 0;
      alarm := None;
      uplinks := [];
      radio := [];
    }

    // -------------------------------------------------------------------
    // Scan phases
    // -------------------------------------------------------------------

    /** The common tail of every phase end: count a non-empty result and
        raise `scan_result` for it outside test mode. */
    method CountResult(len: int)
      requires Valid()
      modifies this
      ensures Valid()
      ensures Regs() == old(Regs()).(resultNum := Counted(old(resultNum), len),
                                     scanResult := old(scanResult) || (config.testMode == 0 && len != 0))
    {
      if len != 0 {
        resultNum := ToInt8(resultNum + 1);
      }
      if resultNum > 3 {
        resultNum := 3;
      }
      if config.testMode == 0 && len != 0 {
        scanResult := true;
      }
    }

    /** `app_tracker_ble_scan_begin`. */
    method BleScanBegin()
      requires Valid()
      modifies this, bleData
      ensures Valid() && bleData[..] == Zeros(BufferSize)
      ensures Regs() == Opened(old(Regs()), Ble)
    {
      bleLen := 0;
      Memset(bleData);
      radio := radio + [Began(Ble)];
    }

    /** `app_tracker_ble_scan_end`: `result` is what `ble_get_results`
        writes; the length is cut to `ble_scan_max` records. */
    method BleScanEnd(result: seq<byte>)
      requires Valid() && |result| <= DriverMaxBytes
      modifies this, bleData
      ensures Valid()
      ensures bleData[..] == Overlay(old(bleData[..]), result)
      ensures Regs() == Closed(old(Regs()), Ble, Truncated(|result|, config.bleMax))
    {
      radio := radio + [Ended(Ble)];
      CopyIn(bleData, result);
      bleLen := |result|;
      var lenMax := ToByte(config.bleMax * RecordSize);
      if bleLen > lenMax {
        bleLen := lenMax;
      }
      CountResult(bleLen);
    }

    /** `app_tracker_wifi_scan_begin`. */
    method WifiScanBegin()
      requires Valid()
      modifies this, wifiData
      ensures Valid() && wifiData[..] == Zeros(BufferSize)
      ensures Regs() == Opened(old(Regs()), Wifi)
    {
      wifiLen := 0;
      Memset(wifiData);
      radio := radio + [Began(Wifi)];
    }

    /** `app_tracker_wifi_scan_end`: `result` is what `wifi_get_results`
        writes, None when it fails and leaves buffer and length alone. */
    method WifiScanEnd(result: Option<seq<byte>>)
      requires Valid() && (result.Some? ==> |result.value| <= DriverMaxBytes)
      modifies this, wifiData
      ensures Valid()
      ensures result.Some? ==> wifiData[..] == Overlay(old(wifiData[..]), result.value)
      ensures result.None? ==> wifiData[..] == old(wifiData[..])
      ensures Regs() == Closed(old(Regs()), Wifi,
                               Truncated(if result.Some? then |result.value| else old(wifiLen), config.wifiMax))
    {
      radio := radio + [Ended(Wifi)];
      if result.Some? {
        CopyIn(wifiData, result.value);
        wifiLen := |result.value|;
      }
      var lenMax := ToByte(config.wifiMax * RecordSize);
      if wifiLen > lenMax {
        wifiLen := lenMax;
      }
      CountResult(wifiLen);
    }

    /** `app_tracker_gnss_scan_begin`. The time and warm-start commands to
        the receiver are not modelled. */
    method GnssScanBegin()
      requires Valid()
      modifies this, gpsData
      ensures Valid() && gpsData[..] == Zeros(BufferSize)
      ensures Regs() == Opened(old(Regs()), Gnss)
    {
      gpsLen := 0;
      Memset(gpsData);
      radio := radio + [Began(Gnss)];
    }

    /** The two `memcpyr` calls that put a fix in the GNSS buffer. */
    method PutFix(f: Fix)
      requires Valid()
      modifies this, gpsData
      ensures Valid()
      ensures gpsData[..8] == GpsPayload(f) && gpsData[8..] == old(gpsData[8..])
      ensures Regs() == old(Regs()).(gpsLen := 8)
    {
      HalMcu.Memcpyr(gpsData, 0, LE(f.lon, 4), 4);
      HalMcu.Memcpyr(gpsData, 4, LE(f.lat, 4), 4);
      gpsLen := 8;
      assert LE(f.lon, 4)[..4] == LE(f.lon, 4);
      assert LE(f.lat, 4)[..4] == LE(f.lat, 4);
      assert gpsData[..8] == gpsData[0..4] + gpsData[4..8];
      assert gpsData[8..] == old(gpsData[8..]) by {
        assert forall i :: 8 <= i < BufferSize ==> gpsData[i] == old(gpsData[i]);
      }
    }

    /** `app_tracker_gnss_scan_end`: every fix goes to the assistance
        cache; only a fix taken outside almanac maintenance is kept for
        the uplink. */
    method GnssScanEnd(fix: Option<Fix>, charging: bool, now: u32, va: VA.Assistance)
      requires Valid()
      modifies this, gpsData, va
      ensures Valid()
      ensures var due := charging && VA.NeedsAlmanacMaintenance(old(va.cache), now, MaintenanceDays);
              Regs() == Closed(old(Regs()), Gnss, GpsLenAfter(fix, due, old(gpsLen)))
              && gpsData[..] == GnssBuffer(old(gpsData[..]), fix, due)
      ensures va.cache == if fix.Some? then VA.OwnFixStored(old(va.cache), fix.value.lat, fix.value.lon, now)
                          else old(va.cache)
    {
      radio := radio + [Ended(Gnss)];
      var maintenance := charging && VA.NeedsAlmanacMaintenance(va.cache, now, MaintenanceDays);
      if fix.Some? {
        va.StoreOwnFix(fix.value.lat, fix.value.lon, now);
        KeepFix(fix.value, maintenance);
      }
      CountResult(gpsLen);
    }

    /** The fix into the GNSS buffer, or the buffer cleared during
        almanac maintenance. */
    method KeepFix(f: Fix, maintenance: bool)
      requires Valid()
      modifies this, gpsData
      ensures Valid()
      ensures Regs() == old(Regs()).(gpsLen := GpsLenAfter(Some(f), maintenance, old(gpsLen)))
      ensures gpsData[..] == GnssBuffer(old(gpsData[..]), Some(f), maintenance)
    {
      if !maintenance {
        PutFix(f);
        assert gpsData[..] == gpsData[..8] + gpsData[8..];
      } else {
        gpsLen := 0;
        Memset(gpsData);
      }
    }

    // -------------------------------------------------------------------
    // Frames
    // -------------------------------------------------------------------

    /** `app_send_frame(buffer, length, confirmed, emergency)`. */
    method SendFrame(payload: seq<byte>, confirmed: bool, emergency: bool, link: Link) returns (ok: bool)
      requires Valid()
      modifies this
      ensures Valid()
      ensures ok <==> Accepted(link, |payload|)
      ensures Regs() == old(Regs()).(uplinks := old(uplinks) + Requested(link, payload, confirmed, emergency))
    {
      if link.dutyCycle < 0 {
        return false;
      }
      if |payload| > link.maxPayload {
        uplinks := uplinks + [EmptyUplink(confirmed)];
        return false;
      }
      uplinks := uplinks + [DataUplink(payload, confirmed, emergency)];
      return true;
    }

    /** `memcpyr(tracker_scan_data_temp + off, &v, 2)`: a 16-bit field
        written big-endian after the first `off` bytes. */
    method PutBE2(off: nat, v: int)
      requires Valid() && off + 2 <= BufferSize
      modifies frameData
      ensures frameData[..off + 2] == old(frameData[..off]) + BE(v, 2)
    {
      ghost var before := frameData[..off];
      HalMcu.Memcpyr(frameData, off, LE(v, 2), 2);
      assert LE(v, 2)[..2] == LE(v, 2);
      assert frameData[..off] == before;
    }

    /** The header writes shared by every branch of
        `app_tracker_scan_result_send`, into the cleared frame buffer. */
    method PutHeader(id: byte, s: Sensors, m: Option<Motion>)
      requires Valid() && frameLen == 0
      modifies this, frameData
      ensures Valid()
      ensures frameData[..frameLen] == Header(id, eventState, s, m)
      ensures Regs() == old(Regs()).(frameLen := |Header(id, eventState, s, m)|)
    {
      frameData[0] := id;
      frameData[1] := eventState;
      frameData[2] := ToByte(s.battery);
      assert frameData[..3] == [id, eventState, ToByte(s.battery)];
      PutBE2(3, s.temp);
      PutBE2(5, s.light);
      ghost var sensors := frameData[..7];
      assert sensors == SensorBlock(id, eventState, s);
      if m.Some? {
        PutBE2(7, m.value.ax);
        PutBE2(9, m.value.ay);
        PutBE2(11, m.value.az);
        assert frameData[..13] == sensors + MotionBlock(m);
        frameLen := 13;
      } else {
        frameLen := 7;
      }
    }

    /** `memcpy(tracker_scan_data_temp + tracker_scan_temp_len, src, n)`
        followed by the length update. */
    method PutBytes(src: seq<byte>)
      requires Valid() && frameLen + |src| <= BufferSize
      modifies this, frameData
      ensures Valid()
      ensures frameData[..frameLen] == old(frameData[..frameLen]) + src
      ensures Regs() == old(Regs()).(frameLen := old(frameLen) + |src|)
    {
      forall i | 0 <= i < |src| {
        frameData[frameLen + i] := src[i];
      }
      frameLen := frameLen + |src|;
      assert frameData[..frameLen] == old(frameData[..frameLen]) + src by {
        assert forall i :: 0 <= i < frameLen ==> frameData[..frameLen][i] == (old(frameData[..frameLen]) + src)[i];
      }
    }

    /** The frame of a source: header, count byte for Wi-Fi and BLE, and
        the buffer of that source. */
    method PutFrame(src: Source, s: Sensors, m: Option<Motion>, data: seq<byte>)
      requires Valid() && frameLen == 0 && |data| <= DriverMaxBytes
      modifies this, frameData
      ensures Valid()
      ensures frameData[..frameLen] == EncodeFrame(Report(src, eventState, s, m, data))
      ensures Regs() == old(Regs()).(frameLen := |EncodeFrame(Report(src, eventState, s, m, data))|)
    {
      ghost var f := EncodeFrame(Report(src, eventState, s, m, data));
      var count := if src.Counted() then [CountByte(data)] else [];
      assert f == Header(FrameId(src, m.Some?), eventState, s, m) + count + data;
      hide EncodeFrame, Header;
      PutHeader(FrameId(src, m.Some?), s, m);
      PutBytes(count);
      PutBytes(data);
    }

    /** `app_tracker_scan_result_send`: one frame per call, from the
        first non-empty buffer in priority order or from the sensors
        alone (see `Sent`). */
    method ResultSend(s: Sensors, motion: Motion, link: Link, now: u32)
      requires Valid()
      modifies this, frameData
      ensures Valid()
      ensures var src := Pending(old(gpsLen), old(wifiLen), old(bleLen));
              var frame := EncodeFrame(Outgoing(old(Regs()), s, motion, old(DataOf(src))));
              frameData[..frameLen] == frame && Regs() == Sent(old(Regs()), frame, link, now)
    {
      var src := Pending(gpsLen, wifiLen, bleLen);
      var data := DataOf(src);
      assert |data| <= DriverMaxBytes;
      var sendOk := Transmit(src, s, motion, data, link);
      Settle(src, sendOk, now);
    }

    /** The frame of `src` built and handed to the modem, confirmed
        under the 1C policy or for a user alarm. */
    method Transmit(src: Source, s: Sensors, motion: Motion, data: seq<byte>, link: Link) returns (ok: bool)
      requires Valid() && |data| <= DriverMaxBytes && src == Pending(gpsLen, wifiLen, bleLen)
      modifies this, frameData
      ensures Valid()
      ensures var frame := EncodeFrame(Outgoing(old(Regs()), s, motion, data));
              frameData[..frameLen] == frame && (ok <==> Accepted(link, |frame|))
              && Regs() == Built(old(Regs()), frame, link)
    {
      var confirm := config.packetPolicy == RetryConfirmed || eventState == UserEvent;
      var m := if config.accEn != 0 then Some(motion) else None;
      Compose(src, s, m, data);
      ok := SendFrame(frameData[..frameLen], confirm, false, link);
    }

    /** The frame of `src` into the cleared frame buffer; a sensor-only
        frame counts as the one pending frame. */
    method Compose(src: Source, s: Sensors, m: Option<Motion>, data: seq<byte>)
      requires Valid() && |data| <= DriverMaxBytes
      modifies this, frameData
      ensures Valid()
      ensures frameData[..frameLen] == EncodeFrame(Report(src, eventState, s, m, data))
      ensures Regs() == old(Regs()).(frameLen := |EncodeFrame(Report(src, eventState, s, m, data))|,
                                     resultNum := if src == SensorOnly then 1 else old(resultNum))
    {
      Memset(frameData);
      frameLen := 0;
      if src == SensorOnly {
        resultNum := 1;
      }
      PutFrame(src, s, m, data);
    }

    /** After the frame of `src` was handed to the modem or not. */
    method Settle(src: Source, sendOk: bool, now: u32)
      requires Valid()
      modifies this
      ensures Valid()
      ensures Regs() == Settled(old(Regs()), src, sendOk, now)
    {
      if sendOk {
        Delivered(src);
      }
      Pace(now);
    }

    /** After a frame went out: its buffer is emptied and one frame fewer
        is pending (in `int8_t`). */
    method Delivered(src: Source)
      requires Valid()
      modifies this
      ensures Valid()
      ensures Regs() == old(Regs()).(
                gpsLen := if src == GpsSource then 0 else old(gpsLen),
                wifiLen := if src == WifiSource then 0 else old(wifiLen),
                bleLen := if src == BleSource then 0 else old(bleLen),
                resultNum := ToInt8(old(resultNum) - 1))
    {
      if src == GpsSource {
        gpsLen := 0;
      } else if src == WifiSource {
        wifiLen := 0;
      } else if src == BleSource {
        bleLen := 0;
      }
      resultNum := ToInt8(resultNum - 1);
    }

    /** The end of `app_tracker_scan_result_send`: another frame after
        `LORWAN_SEND_INTERVAL_MIN` while some are pending, else the session
        ends and the alarm is set for the rest of the periodic interval. */
    method Pace(now: u32)
      requires Valid()
      modifies this
      ensures Valid()
      ensures Regs() == old(Regs()).(
                status := if resultNum != 0 then old(status) else Idle,
                alarm := Some(if resultNum != 0 then SendIntervalMin
                              else NextSessionDelay(config.interval, now, scanBegin)))
    {
      if resultNum != 0 {
        alarm := Some(SendIntervalMin);
      } else {
        status := Idle;
        var nextDelay := ToInt32(U32Sub(config.interval, U32Sub(now, scanBegin)));
        alarm := Some(PositiveOrOne(nextDelay));
      }
    }

    // -------------------------------------------------------------------
    // The scan process, one branch per strategy
    // -------------------------------------------------------------------

    /** The writes of `app_tracker_scan_process` that begin a session:
        the alarm for the first phase, `tracker_scan_begin`, the status
        of that phase and its begin. */
    method BeginSession(p: Phase, k: byte, d: int, now: u32)
      requires Valid()
      modifies this, gpsData, wifiData, bleData
      ensures Valid()
      ensures Regs() == Opened(old(Regs()), p).(scanBegin := now, status := k, alarm := Some(d))
      ensures Bufs() == Cleared(old(Bufs()), p)
    {
      alarm := Some(d);
      scanBegin := now;
      status := k;
      BeginPhase(p);
    }

    /** The writes that begin the next phase of a session. */
    method NextPhase(p: Phase, k: byte, d: int)
      requires Valid()
      modifies this, gpsData, wifiData, bleData
      ensures Valid()
      ensures Regs() == Opened(old(Regs()), p).(status := k, alarm := Some(d))
      ensures Bufs() == Cleared(old(Bufs()), p)
    {
      alarm := Some(d);
      status := k;
      BeginPhase(p);
    }

    /** The writes that end a session: the alarm for the rest of the
        interval and the status that hands the results to the sender. */
    method Conclude(delay: int)
      requires Valid()
      modifies this
      ensures Valid()
      ensures Regs() == old(Regs()).(status := Sending, alarm := Some(delay))
    {
      alarm := Some(delay);
      status := Sending;
    }

    method BeginPhase(p: Phase)
      requires Valid()
      modifies this, gpsData, wifiData, bleData
      ensures Valid()
      ensures Regs() == Opened(old(Regs()), p)
      ensures Bufs() == Cleared(old(Bufs()), p)
    {
      match p
      case Ble => BleScanBegin();
      case Wifi => WifiScanBegin();
      case Gnss => GnssScanBegin();
    }

    /** The end of phase `p` with the driver results of the tick. */
    method EndPhase(p: Phase, t: Tick, va: VA.Assistance)
      requires Valid() && TickOk(t)
      modifies this, gpsData, wifiData, bleData, va
      ensures Valid()
      ensures Regs() == Closed(old(Regs()), p, LenAfter(old(Regs()), p, t, Due(old(va.cache), t)))
      ensures Bufs() == Filled(old(Bufs()), p, t, Due(old(va.cache), t))
      ensures va.cache == CacheAfter(old(va.cache), Some(p), t)
    {
      match p
      case Ble => BleScanEnd(t.ble);
      case Wifi => WifiScanEnd(t.wifi);
      case Gnss => GnssScanEnd(t.fix, t.charging, t.now, va);
    }

    /** The GNSS_ONLY branch of `app_tracker_scan_process`. */
    method GnssOnlyStep(t: Tick, va: VA.Assistance)
      requires Valid() && TickOk(t) && config.scanType == GnssOnly
      modifies this, gpsData, wifiData, bleData, va
      ensures Valid()
      ensures State(va) == Advance(old(State(va)), t)
    {
      hide Advance;
      ghost var w0 := State(va);
      if status == 0 {
        var adaptive := AdaptiveGnssDuration(config.gnssDuration, va.cache, t.now, t.charging);
        StartGoal(w0, t, Gnss, 1);
        BeginSession(Gnss, 1, adaptive, t.now);
      } else if status == 1 {
        var adaptive := AdaptiveGnssDuration(config.gnssDuration, va.cache, t.now, t.charging);
        var nextDelay := ToInt32(U32Sub(config.interval, adaptive));
        RemainingOne(config.interval, Plan(GnssOnly), config, adaptive);
        FinishGoal(w0, t, Gnss, PositiveOrOne(nextDelay));
        EndPhase(Gnss, t, va);
        Conclude(PositiveOrOne(nextDelay));
      } else {
        IdleGoal(w0, t);
      }
    }

    /** The WIFI_ONLY branch of `app_tracker_scan_process`. */
    method WifiOnlyStep(t: Tick, va: VA.Assistance)
      requires Valid() && TickOk(t) && config.scanType == WifiOnly
      modifies this, gpsData, wifiData, bleData, va
      ensures Valid()
      ensures State(va) == Advance(old(State(va)), t)
    {
      hide Advance;
      ghost var w0 := State(va);
      ghost var spent := AdaptiveGnssDuration(config.gnssDuration, va.cache, t.now, t.charging);
      if status == 0 {
        StartGoal(w0, t, Wifi, 1);
        BeginSession(Wifi, 1, config.wifiDuration, t.now);
      } else if status == 1 {
        var nextDelay := ToInt32(U32Sub(config.interval, config.wifiDuration));
        RemainingOne(config.interval, Plan(WifiOnly), config, spent);
        FinishGoal(w0, t, Wifi, PositiveOrOne(nextDelay));
        EndPhase(Wifi, t, va);
        Conclude(PositiveOrOne(nextDelay));
      } else {
        IdleGoal(w0, t);
      }
    }

    /** The BLE_ONLY branch of `app_tracker_scan_process`. */
    method BleOnlyStep(t: Tick, va: VA.Assistance)
      requires Valid() && TickOk(t) && config.scanType == BleOnly
      modifies this, gpsData, wifiData, bleData, va
      ensures Valid()
      ensures State(va) == Advance(old(State(va)), t)
    {
      hide Advance;
      ghost var w0 := State(va);
      ghost var spent := AdaptiveGnssDuration(config.gnssDuration, va.cache, t.now, t.charging);
      if status == 0 {
        StartGoal(w0, t, Ble, 1);
        BeginSession(Ble, 1, config.bleDuration, t.now);
      } else if status == 1 {
        var nextDelay := ToInt32(U32Sub(config.interval, config.bleDuration));
        RemainingOne(config.interval, Plan(BleOnly), config, spent);
        FinishGoal(w0, t, Ble, PositiveOrOne(nextDelay));
        EndPhase(Ble, t, va);
        Conclude(PositiveOrOne(nextDelay));
      } else {
        IdleGoal(w0, t);
      }
    }

    /** The WIFI_GNSS branch of `app_tracker_scan_process`: a charging
        tracker due for almanac maintenance skips Wi-Fi. */
    method WifiGnssStep(t: Tick, va: VA.Assistance)
      requires Valid() && TickOk(t) && config.scanType == WifiGnss && !scanResult
      modifies this, gpsData, wifiData, bleData, va
      ensures Valid()
      ensures State(va) == Advance(old(State(va)), t)
    {
      hide Advance;
      ghost var w0 := State(va);
      ghost var spent := AdaptiveGnssDuration(config.gnssDuration, va.cache, t.now, t.charging);
      if status == 0 {
        if t.charging && VA.NeedsAlmanacMaintenance(va.cache, t.now, MaintenanceDays) {
          var adaptive := AdaptiveGnssDuration(config.gnssDuration, va.cache, t.now, t.charging);
          StartGoal(w0, t, Gnss, 2);
          BeginSession(Gnss, 2, adaptive, t.now);
        } else {
          StartGoal(w0, t, Wifi, 1);
          BeginSession(Wifi, 1, config.wifiDuration, t.now);
        }
      } else if status == 1 {
        EndPhase(Wifi, t, va);
        if scanResult {
          var nextDelay := ToInt32(U32Sub(config.interval, config.wifiDuration));
          RemainingOne(config.interval, Plan(WifiGnss), config, spent);
          FinishGoal(w0, t, Wifi, PositiveOrOne(nextDelay));
          Conclude(PositiveOrOne(nextDelay));
        } else {
          var adaptive := AdaptiveGnssDuration(config.gnssDuration, va.cache, t.now, t.charging);
          ContinueGoal(w0, t, Wifi, Gnss, 2);
          NextPhase(Gnss, 2, adaptive);
        }
      } else if status == 2 {
        var adaptive := AdaptiveGnssDuration(config.gnssDuration, va.cache, t.now, t.charging);
        var nextDelay := ToInt32(U32Sub(U32Sub(config.interval, config.wifiDuration), adaptive));
        RemainingOne(config.interval, Plan(WifiGnss), config, adaptive);
        FinishGoal(w0, t, Gnss, PositiveOrOne(nextDelay));
        EndPhase(Gnss, t, va);
        Conclude(PositiveOrOne(nextDelay));
      } else {
        IdleGoal(w0, t);
      }
    }

    /** The GNSS_WIFI branch of `app_tracker_scan_process`: the adaptive
        duration of the finishing alarm is read after the GNSS end has
        stored its fix. */
    method GnssWifiStep(t: Tick, va: VA.Assistance)
      requires Valid() && TickOk(t) && config.scanType == GnssWifi && !scanResult
      modifies this, gpsData, wifiData, bleData, va
      ensures Valid()
      ensures State(va) == Advance(old(State(va)), t)
    {
      hide Advance;
      ghost var w0 := State(va);
      if status == 0 {
        var adaptive := AdaptiveGnssDuration(config.gnssDuration, va.cache, t.now, t.charging);
        StartGoal(w0, t, Gnss, 1);
        BeginSession(Gnss, 1, adaptive, t.now);
      } else if status == 1 {
        EndPhase(Gnss, t, va);
        if scanResult {
          var adaptive := AdaptiveGnssDuration(config.gnssDuration, va.cache, t.now, t.charging);
          var nextDelay := ToInt32(U32Sub(config.interval, adaptive));
          RemainingOne(config.interval, Plan(GnssWifi), config, adaptive);
          FinishGoal(w0, t, Gnss, PositiveOrOne(nextDelay));
          Conclude(PositiveOrOne(nextDelay));
        } else {
          ContinueGoal(w0, t, Gnss, Wifi, 2);
          NextPhase(Wifi, 2, config.wifiDuration);
        }
      } else if status == 2 {
        var adaptive := AdaptiveGnssDuration(config.gnssDuration, va.cache, t.now, t.charging);
        var nextDelay := ToInt32(U32Sub(U32Sub(config.interval, adaptive), config.wifiDuration));
        RemainingOne(config.interval, Plan(GnssWifi), config, adaptive);
        FinishGoal(w0, t, Wifi, PositiveOrOne(nextDelay));
        EndPhase(Wifi, t, va);
        Conclude(PositiveOrOne(nextDelay));
      } else {
        IdleGoal(w0, t);
      }
    }

    /** The BLE_WIFI branch of `app_tracker_scan_process`. */
    method BleWifiStep(t: Tick, va: VA.Assistance)
      requires Valid() && TickOk(t) && config.scanType == BleWifi && !scanResult
      modifies this, gpsData, wifiData, bleData, va
      ensures Valid()
      ensures State(va) == Advance(old(State(va)), t)
    {
      hide Advance;
      ghost var w0 := State(va);
      ghost var spent := AdaptiveGnssDuration(config.gnssDuration, va.cache, t.now, t.charging);
      if status == 0 {
        StartGoal(w0, t, Ble, 1);
        BeginSession(Ble, 1, config.bleDuration, t.now);
      } else if status == 1 {
        EndPhase(Ble, t, va);
        if scanResult {
          var nextDelay := ToInt32(U32Sub(config.interval, config.bleDuration));
          RemainingOne(config.interval, Plan(BleWifi), config, spent);
          FinishGoal(w0, t, Ble, PositiveOrOne(nextDelay));
          Conclude(PositiveOrOne(nextDelay));
        } else {
          ContinueGoal(w0, t, Ble, Wifi, 2);
          NextPhase(Wifi, 2, config.wifiDuration);
        }
      } else if status == 2 {
        var nextDelay := ToInt32(U32Sub(U32Sub(config.interval, config.bleDuration), config.wifiDuration));
        RemainingOne(config.interval, Plan(BleWifi), config, spent);
        FinishGoal(w0, t, Wifi, PositiveOrOne(nextDelay));
        EndPhase(Wifi, t, va);
        Conclude(PositiveOrOne(nextDelay));
      } else {
        IdleGoal(w0, t);
      }
    }

    /** The BLE_GNSS branch of `app_tracker_scan_process`: BLE runs first
        even when the almanac is due for maintenance. */
    method BleGnssStep(t: Tick, va: VA.Assistance)
      requires Valid() && TickOk(t) && config.scanType == BleGnss && !scanResult
      modifies this, gpsData, wifiData, bleData, va
      ensures Valid()
      ensures State(va) == Advance(old(State(va)), t)
    {
      hide Advance;
      ghost var w0 := State(va);
      ghost var spent := AdaptiveGnssDuration(config.gnssDuration, va.cache, t.now, t.charging);
      if status == 0 {
        StartGoal(w0, t, Ble, 1);
        BeginSession(Ble, 1, config.bleDuration, t.now);
      } else if status == 1 {
        var adaptive := AdaptiveGnssDuration(config.gnssDuration, va.cache, t.now, t.charging);
        EndPhase(Ble, t, va);
        if scanResult {
          var nextDelay := ToInt32(U32Sub(config.interval, config.bleDuration));
          RemainingOne(config.interval, Plan(BleGnss), config, spent);
          FinishGoal(w0, t, Ble, PositiveOrOne(nextDelay));
          Conclude(PositiveOrOne(nextDelay));
        } else {
          ContinueGoal(w0, t, Ble, Gnss, 2);
          NextPhase(Gnss, 2, adaptive);
        }
      } else if status == 2 {
        var adaptive := AdaptiveGnssDuration(config.gnssDuration, va.cache, t.now, t.charging);
        var nextDelay := ToInt32(U32Sub(U32Sub(config.interval, config.bleDuration), adaptive));
        RemainingOne(config.interval, Plan(BleGnss), config, adaptive);
        FinishGoal(w0, t, Gnss, PositiveOrOne(nextDelay));
        EndPhase(Gnss, t, va);
        Conclude(PositiveOrOne(nextDelay));
      } else {
        IdleGoal(w0, t);
      }
    }

    /** The BLE_WIFI_GNSS branch of `app_tracker_scan_process`. */
    method BleWifiGnssStep(t: Tick, va: VA.Assistance)
      requires Valid() && TickOk(t) && config.scanType == BleWifiGnss && !scanResult
      modifies this, gpsData, wifiData, bleData, va
      ensures Valid()
      ensures State(va) == Advance(old(State(va)), t)
    {
      hide Advance;
      ghost var w0 := State(va);
      ghost var spent := AdaptiveGnssDuration(config.gnssDuration, va.cache, t.now, t.charging);
      if status == 0 {
        StartGoal(w0, t, Ble, 1);
        BeginSession(Ble, 1, config.bleDuration, t.now);
      } else if status == 1 {
        EndPhase(Ble, t, va);
        if scanResult {
          var nextDelay := ToInt32(U32Sub(config.interval, config.bleDuration));
          RemainingOne(config.interval, Plan(BleWifiGnss), config, spent);
          FinishGoal(w0, t, Ble, PositiveOrOne(nextDelay));
          Conclude(PositiveOrOne(nextDelay));
        } else {
          ContinueGoal(w0, t, Ble, Wifi, 2);
          NextPhase(Wifi, 2, config.wifiDuration);
        }
      } else if status == 2 {
        var adaptive := AdaptiveGnssDuration(config.gnssDuration, va.cache, t.now, t.charging);
        EndPhase(Wifi, t, va);
        if scanResult {
          var nextDelay := ToInt32(U32Sub(U32Sub(config.interval, config.bleDuration), config.wifiDuration));
          RemainingOne(config.interval, Plan(BleWifiGnss), config, spent);
          FinishGoal(w0, t, Wifi, PositiveOrOne(nextDelay));
          Conclude(PositiveOrOne(nextDelay));
        } else {
          ContinueGoal(w0, t, Wifi, Gnss, 3);
          NextPhase(Gnss, 3, adaptive);
        }
      } else if status == 3 {
        var adaptive := AdaptiveGnssDuration(config.gnssDuration, va.cache, t.now, t.charging);
        var nextDelay := ToInt32(U32Sub(U32Sub(U32Sub(config.interval, config.bleDuration), config.wifiDuration), adaptive));
        RemainingThree(config.interval, Plan(BleWifiGnss), config, adaptive);
        FinishGoal(w0, t, Gnss, PositiveOrOne(nextDelay));
        EndPhase(Gnss, t, va);
        Conclude(PositiveOrOne(nextDelay));
      } else {
        IdleGoal(w0, t);
      }
    }

    /** The scan part of `app_tracker_scan_process`: the branch of the
        strategy in use; an unknown strategy does nothing. */
    method Scan(t: Tick, va: VA.Assistance)
      requires Valid() && TickOk(t) && !scanResult
      modifies this, gpsData, wifiData, bleData, va
      ensures Valid()
      ensures State(va) == Advance(old(State(va)), t)
    {
      if config.scanType == GnssOnly {
        GnssOnlyStep(t, va);
      } else if config.scanType == WifiOnly {
        WifiOnlyStep(t, va);
      } else if config.scanType == WifiGnss {
        WifiGnssStep(t, va);
      } else if config.scanType == GnssWifi {
        GnssWifiStep(t, va);
      } else if config.scanType == BleOnly {
        BleOnlyStep(t, va);
      } else if config.scanType == BleWifi {
        BleWifiStep(t, va);
      } else if config.scanType == BleGnss {
        BleGnssStep(t, va);
      } else if config.scanType == BleWifiGnss {
        BleWifiGnssStep(t, va);
      } else {
        IdleGoal(State(va), t);
      }
    }

    /** One firing of the modem alarm (`on_modem_alarm` into
        `app_tracker_scan_process`): the alarm is spent, `scan_result` is
        cleared, the strategy takes its step, and a session whose results
        are ready sends one frame. */
    method Process(t: Tick, va: VA.Assistance)
      requires Valid() && TickOk(t)
      modifies this, gpsData, wifiData, bleData, frameData, va
      ensures Valid()
      ensures var o := Processed(old(State(va)), t);
              State(va) == o.world && (o.frame.Some? ==> frameData[..frameLen] == o.frame.value)
    {
      ghost var w := State(va);
      alarm := None;
      scanResult := false;
      assert State(va) == Fired(w);
      AdvanceOk(Fired(w), t);
      ProcessedGoal(w, t);
      hide Processed, Advance;
      Scan(t, va);
      if status == Sending {
        ghost var w1 := State(va);
        var src := Pending(gpsLen, wifiLen, bleLen);
        assert DataOf(src) == SendData(w1, src);
        ResultSend(t.sensors, t.motion, t.link, t.now);
      }
    }

    /** `app_tracker_new_run(event)`; `joined` is the modem status read
        there, and the early wake-up goes to `mcu`. */
    method NewRun(event: byte, joined: bool, mcu: HalMcu.Mcu)
      requires Valid()
      modifies this, mcu
      ensures Valid()
      ensures Regs() == Rerun(old(Regs()), event, joined)
      ensures mcu.sleepBreak == (old(mcu.sleepBreak) || (old(status) == Idle && joined))
      ensures mcu.naps == old(mcu.naps)
    {
      eventState := event;
      if status == Idle {
        if joined {
          alarm := Some(1);
          mcu.SleepExit();
        } else {
          eventState := 0;
          resultNum := 0;
        }
      }
    }

    /** `on_modem_tx_done`: the event of the frame is consumed (the
        confirmation beep is not part of this model). */
    method TxDone()
      modifies this
      ensures Valid() <==> old(Valid())
      ensures Regs() == old(Regs()).(eventState := 0)
    {
      eventState := 0;
    }
  }
}
