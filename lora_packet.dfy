/** The application packets of the tracker outside the scan reports: the
    power-on uplink that announces the configuration, the downlink
    commands that change it, and the load of the stored parameters into
    the application globals. */
module LoraPacket {
  import opened Bytes
  import T = Tracker
  import HalMcu

  // The header defining DATA_ID_UP_PACKET_POWER and DATA_ID_DW_PACKET_*
  // is not part of this model: the values below are placeholders, and no
  // proof depends on them beyond their being distinct.
  const IdPowerOn: byte := 0x09
  const IdTrackType: byte := 0x80
  const IdPowerSend: byte := 0x81
  const IdReboot: byte := 0x82
  const IdSosContinuous: byte := 0x83
  const IdInterval: byte := 0x84
  const IdBuzzer: byte := 0x85

  /** `LORAWAN_APP_DATA_MAX_SIZE` (placeholder: a LoRaWAN maximum
      payload; only `>= 13` matters). */
  const AppDataMaxSize: int := 242

  /** The longest accepted interval: one week, in minutes. */
  const MaxIntervalMinutes: int := 24 * 60 * 7

  /** Largest `beac_overtime` the application accepts, in seconds. */
  const MaxBleDuration: int := 30

  /** `smtc_board_version_get()`. */
  datatype Version = Version(swMajor: byte, swMinor: byte, hwMajor: byte, hwMinor: byte)

  /** The stored parameters `app_param` that this file reads and writes. */
  datatype Params = Params(
    posStrategy: byte, gnssOvertime: u32, beacOvertime: u32, posInterval: u32,
    wifiMax: byte, beacMax: byte, accEn: byte,
    adrEn: bool, drMin: byte, drMax: byte,
    sosMode: byte, beacUuid: seq<byte>, uuidNum: byte,
    retry: byte, testMode: byte)

  /** The globals besides the tracker configuration that the parameters
      feed: the user ADR window, the SOS button mode and the beacon UUID
      filter. */
  datatype Extras = Extras(adrEnable: bool, drMin: byte, drMax: byte,
                           sosType: byte, uuidFilter: seq<byte>, uuidNum: byte)

  // ---------------------------------------------------------------------
  // The power-on uplink
  // ---------------------------------------------------------------------

  /** The 13 bytes of the power-on uplink: identifier, battery, software
      and hardware versions, strategy, interval in minutes (big-endian
      16 bits), accelerometer, SOS mode and the two record limits. */
  function PowerOnFrame(battery: int, v: Version, c: T.Config, sosType: byte): (f: seq<byte>)
    ensures |f| == 13
  {
    [IdPowerOn, ToByte(battery), v.swMajor, v.swMinor, v.hwMajor, v.hwMinor, c.scanType]
    + BE(c.interval / 60, 2)
    + [c.accEn, sosType, c.wifiMax, c.bleMax]
  }

  /** What a power-on uplink announces. */
  datatype Announcement = Announcement(
    battery: int, version: Version, scanType: byte, intervalMinutes: int,
    accEn: byte, sosType: byte, wifiMax: byte, bleMax: byte)

  /** The network side's reading of a power-on uplink. */
  function ParsePowerOn(f: seq<byte>): (a: Option<Announcement>)
    ensures a.Some? ==> |f| == 13 && f[0] == IdPowerOn && -128 <= a.value.battery < 128
    ensures a.Some? ==> 0 <= a.value.intervalMinutes < 0x1_0000
  {
    if |f| != 13 || f[0] != IdPowerOn then None
    else
      assert SignedBE(f[1..2]) * 2 < Pow256(1) by { assert Pow256(1) == 256; }
      Some(Announcement(SignedBE(f[1..2]), Version(f[2], f[3], f[4], f[5]), f[6],
                        ValueBE(f[7..9]), f[9], f[10], f[11], f[12]))
  }

  /** The power-on uplink reads back as the battery level, the versions
      and the configuration it was built from, the interval in whole
      minutes cut to 16 bits. */
  lemma ParsePowerOnFrame(battery: int, v: Version, c: T.Config, sosType: byte)
    requires -128 <= battery < 128
    ensures ParsePowerOn(PowerOnFrame(battery, v, c, sosType)) ==
      Some(Announcement(battery, v, c.scanType, (c.interval / 60) % 0x1_0000,
                        c.accEn, sosType, c.wifiMax, c.bleMax))
  {
    var f := PowerOnFrame(battery, v, c, sosType);
    assert f[1..2] == BE(battery, 1) by {
      assert LE(battery, 1) == [ToByte(battery)];
    }
    SignedBEOfBE(battery, 1);
    assert f[7..9] == BE(c.interval / 60, 2);
    ValueBEOfBE(c.interval / 60, 2);
  }

  // ---------------------------------------------------------------------
  // Downlink commands
  // ---------------------------------------------------------------------

  /** A downlink as `app_lora_packet_downlink_decode` understands it. */
  datatype Command =
    | NoCommand                         // NULL or empty buffer
    | SetScanType(scanType: byte)
    | SendPowerOn
    | Reboot
    | SosContinuous(on: bool)
    | SetInterval(minutes: int)
    | Buzzer(on: bool)
    | Ignored                           // unknown id or value out of range

  /** A strategy number the track-type command accepts: every one but 2. */
  predicate TrackTypeAccepted(k: byte)
  {
    (0 <= k <= 1) || (3 <= k <= 7)
  }

  /** The command of a downlink. The decoder reads `buf[1]` and
      `buf[3..5]` whatever `len` says, so `buf` stands for the whole
      receive buffer and is at least five bytes long. */
  function Decode(buf: Option<seq<byte>>, len: byte): (c: Command)
    requires buf.Some? ==> |buf.value| >= 5
    ensures c == NoCommand <==> buf.None? || len == 0
    ensures c.SetScanType? ==> TrackTypeAccepted(c.scanType)
    ensures c.SetInterval? ==> 1 <= c.minutes <= MaxIntervalMinutes
  {
    if buf.None? || len == 0 then NoCommand
    else
      var b := buf.value;
      if b[0] == IdTrackType then
        if TrackTypeAccepted(b[1]) then SetScanType(b[1]) else Ignored
      else if b[0] == IdPowerSend then SendPowerOn
      else if b[0] == IdReboot then Reboot
      else if b[0] == IdSosContinuous then
        if b[1] == 0 then SosContinuous(false) else if b[1] == 1 then SosContinuous(true) else Ignored
      else if b[0] == IdInterval then
        var m := ValueBE(b[3..5]);
        if 1 <= m <= MaxIntervalMinutes then SetInterval(m) else Ignored
      else if b[0] == IdBuzzer then
        if b[1] == 1 then Buzzer(true) else if b[1] == 0 then Buzzer(false) else Ignored
      else Ignored
  }

  /** A five-byte downlink carrying `c`, as a network server would send it. */
  function Encode(c: Command): (b: seq<byte>)
    requires c.SetScanType? ==> TrackTypeAccepted(c.scanType)
    requires c.SetInterval? ==> 1 <= c.minutes <= MaxIntervalMinutes
    requires !c.NoCommand? && !c.Ignored?
    ensures |b| == 5
  {
    match c
    case SetScanType(k) => [IdTrackType, k, 0, 0, 0]
    case SendPowerOn => [IdPowerSend, 0, 0, 0, 0]
    case Reboot => [IdReboot, 0, 0, 0, 0]
    case SosContinuous(on) => [IdSosContinuous, if on then 1 else 0, 0, 0, 0]
    case SetInterval(m) => [IdInterval, 0, 0] + BE(m, 2)
    case Buzzer(on) => [IdBuzzer, if on then 1 else 0, 0, 0, 0]
  }

  /** Every command the decoder knows survives the encoding. */
  lemma DecodeEncode(c: Command)
    requires c.SetScanType? ==> TrackTypeAccepted(c.scanType)
    requires c.SetInterval? ==> 1 <= c.minutes <= MaxIntervalMinutes
    requires !c.NoCommand? && !c.Ignored?
    ensures Decode(Some(Encode(c)), 5) == c
  {
    hide ValueBE, BE, Pow256;
    match c
    case SetScanType(_) =>
    case SendPowerOn =>
    case Reboot =>
    case SosContinuous(_) =>
    case Buzzer(_) =>
    case SetInterval(m) => IntervalEncoding(m);
  }

  /** The interval travels big-endian in bytes 3 and 4. */
  lemma IntervalEncoding(m: int)
    requires 1 <= m <= MaxIntervalMinutes
    ensures var b := Encode(SetInterval(m)); b[0] == IdInterval && ValueBE(b[3..5]) == m
  {
    var b := Encode(SetInterval(m));
    assert b[3..5] == BE(m, 2);
    ValueBEOfBE(m, 2);
    assert Pow256(2) == 0x1_0000;
  }

  /** Strategy 2 (WIFI_GNSS) cannot be selected by downlink. */
  lemma TrackTypeTwoRejected(buf: seq<byte>, len: byte)
    requires |buf| >= 5 && len != 0 && buf[0] == IdTrackType && buf[1] == 2
    ensures Decode(Some(buf), len) == Ignored
  {
  }

  /** The commands that change the configuration, after which the
      configuration is announced, saved and a new session requested. */
  predicate Updates(c: Command)
  {
    c.SetScanType? || c.SetInterval?
  }

  /** The tracker configuration after a command. */
  function Configured(cfg: T.Config, c: Command): (cfg': T.Config)
    requires c.SetInterval? ==> 1 <= c.minutes <= MaxIntervalMinutes
    ensures !Updates(c) ==> cfg' == cfg
  {
    match c
    case SetScanType(k) => cfg.(scanType := k)
    case SetInterval(m) => cfg.(interval := m * 60)
    case _ => cfg
  }

  /** The stored parameters after a command. */
  function Stored(p: Params, c: Command): (p': Params)
    requires c.SetInterval? ==> 1 <= c.minutes <= MaxIntervalMinutes
    ensures !Updates(c) ==> p' == p
  {
    match c
    case SetScanType(k) => p.(posStrategy := k)
    case SetInterval(m) => p.(posInterval := m)
    case _ => p
  }

  /** The effects outside the application state. */
  datatype Action = Reset | SosOn | SosOff | BeepDownlink | BeepIdle | Persist

  function Actions(c: Command): seq<Action>
  {
    match c
    case Reboot => [Reset]
    case SosContinuous(on) => [if on then SosOn else SosOff]
    case Buzzer(on) => [if on then BeepDownlink else BeepIdle]
    case SetScanType(_) => [Persist]
    case SetInterval(_) => [Persist]
    case _ => []
  }

  // ---------------------------------------------------------------------
  // Loading the stored parameters
  // ---------------------------------------------------------------------

  /** `app_lora_packet_params_load` on the tracker configuration: the BLE
      duration is capped at 30 s and the interval is the stored minutes
      times 60 (in `uint32_t`); the Wi-Fi duration is not stored and
      stays. */
  function Loaded(p: Params, cfg: T.Config): (c: T.Config)
    ensures c.bleDuration <= MaxBleDuration
    ensures p.beacOvertime <= MaxBleDuration ==> c.bleDuration == p.beacOvertime
    ensures p.posInterval * 60 < U32 ==> c.interval == p.posInterval * 60
    ensures c.wifiDuration == cfg.wifiDuration
  {
    T.Config(p.posStrategy, p.gnssOvertime, cfg.wifiDuration,
             if p.beacOvertime > MaxBleDuration then MaxBleDuration else p.beacOvertime,
             (p.posInterval * 60) % U32,
             p.wifiMax, p.beacMax, p.accEn, p.retry, p.testMode)
  }

  /** The other globals `app_lora_packet_params_load` sets. */
  function ExtrasOf(p: Params): Extras
  {
    Extras(p.adrEn, p.drMin, p.drMax, p.sosMode, p.beacUuid, p.uuidNum)
  }

  /** An interval set by downlink is stored in minutes, so loading the
      stored parameters gives back the interval the command set. */
  lemma LoadAfterSetInterval(p: Params, cfg: T.Config, m: int)
    requires 1 <= m <= MaxIntervalMinutes
    ensures Loaded(Stored(p, SetInterval(m)), cfg).interval == Configured(cfg, SetInterval(m)).interval
  {
  }

  /** The same for the strategy. */
  lemma LoadAfterSetScanType(p: Params, cfg: T.Config, k: byte)
    ensures Loaded(Stored(p, SetScanType(k)), cfg).scanType == Configured(cfg, SetScanType(k)).scanType
  {
  }

  // ---------------------------------------------------------------------
  // The packet state
  // ---------------------------------------------------------------------

  /** The globals of `app_lora_packet.c` together with the stored
      parameters and the globals it loads them into. */
  class Packets {
    const buffer: array<byte>
    var len: int
    var params: Params
    var extras: Extras
    var actions: seq<Action>

    ghost predicate Valid()
      reads this
    {
      buffer.Length == AppDataMaxSize
    }

    constructor (p: Params)
      ensures Valid() && fresh(buffer)
      ensures len == 0 && params == p && extras == ExtrasOf(p) && actions == []
    {
      buffer := new byte[AppDataMaxSize](_ => 0);
      len := 0;
      params := p;
      extras := ExtrasOf(p);
      actions := [];
    }

    /** `app_lora_packet_params_load`. */
    method ParamsLoad(app: T.App)
      requires app.Valid()
      modifies this, app
      ensures app.Valid()
      ensures app.Regs() == old(app.Regs()).(config := Loaded(params, old(app.config)))
      ensures extras == ExtrasOf(params)
      ensures params == old(params) && len == old(len) && actions == old(actions)
    {
      var bleDuration := params.beacOvertime;
      if bleDuration > MaxBleDuration {
        bleDuration := MaxBleDuration;
      }
      app.config := T.Config(params.posStrategy, params.gnssOvertime, app.config.wifiDuration,
                             bleDuration, (params.posInterval * 60) % U32,
                             params.wifiMax, params.beacMax, params.accEn, params.retry, params.testMode);
      extras := Extras(params.adrEn, params.drMin, params.drMax, params.sosMode, params.beacUuid, params.uuidNum);
    }

    /** `app_lora_packet_power_on_uplink`: `battery` is the sample the
        battery sensor gives, `v` the board version and `link` the state
        of the modem. */
    method PowerOnUplink(app: T.App, battery: int, v: Version, link: T.Link)
      requires Valid() && app.Valid() && -128 <= battery < 128
      modifies this, buffer, app
      ensures Valid() && app.Valid()
      ensures len == 13 && buffer[..13] == PowerOnFrame(battery, v, app.config, extras.sosType)
      ensures buffer[13..] == old(buffer[13..])
      ensures app.Regs() == old(app.Regs()).(uplinks := old(app.uplinks) +
                T.Requested(link, PowerOnFrame(battery, v, old(app.config), extras.sosType), false, true))
      ensures params == old(params) && extras == old(extras) && actions == old(actions)
    {
      len := 13;
      PutPowerOn(battery, v, app.config);
      var _ := app.SendFrame(buffer[..13], false, true, link);
    }

    /** The bytes of the power-on uplink into the packet buffer. */
    method PutPowerOn(battery: int, v: Version, c: T.Config)
      requires Valid()
      modifies buffer
      ensures buffer[..13] == PowerOnFrame(battery, v, c, extras.sosType)
      ensures buffer[13..] == old(buffer[13..])
    {
      buffer[0] := IdPowerOn;
      buffer[1] := ToByte(battery);
      buffer[2] := v.swMajor;
      buffer[3] := v.swMinor;
      buffer[4] := v.hwMajor;
      buffer[5] := v.hwMinor;
      buffer[6] := c.scanType;
      var minutes := c.interval / 60;
      ghost var head, tail := buffer[..7], buffer[9..];
      HalMcu.Memcpyr(buffer, 7, LE(minutes, 2), 2);
      assert LE(minutes, 2)[..2] == LE(minutes, 2);
      assert buffer[..7] == head && buffer[9..] == tail;
      buffer[9] := c.accEn;
      buffer[10] := extras.sosType;
      buffer[11] := c.wifiMax;
      buffer[12] := c.bleMax;
    }

    /** `app_lora_packet_downlink_decode(buf, len)`. The battery sample,
        the board version, the modem state and whether the modem has
        joined are inputs; `mcu` receives the wake-up of a new session. */
    method DownlinkDecode(buf: Option<seq<byte>>, n: byte, app: T.App, mcu: HalMcu.Mcu,
                          battery: int, v: Version, link: T.Link, joined: bool)
      requires buf.Some? ==> |buf.value| >= 5
      requires Valid() && app.Valid() && -128 <= battery < 128
      modifies this, buffer, app, mcu
      ensures Valid() && app.Valid()
      ensures var c := Decode(buf, n);
              var cfg := Configured(old(app.config), c);
              var announced := Updates(c) || c == SendPowerOn;
              var sent := old(app.uplinks) +
                (if announced then T.Requested(link, PowerOnFrame(battery, v, cfg, extras.sosType), false, true) else []);
              var r := old(app.Regs()).(config := cfg, uplinks := sent);
              app.Regs() == (if c.SetScanType? || c.SetInterval? then T.Rerun(r, 0, joined) else r)
              && params == Stored(old(params), c)
              && actions == old(actions) + Actions(c)
              && (announced ==> len == 13 && buffer[..13] == PowerOnFrame(battery, v, cfg, extras.sosType)
                                && buffer[13..] == old(buffer[13..]))
              && (!announced ==> len == old(len) && buffer[..] == old(buffer[..]))
              && mcu.sleepBreak == (old(mcu.sleepBreak) || (Updates(c) && old(app.status) == T.Idle && joined))
      ensures extras == old(extras) && mcu.naps == old(mcu.naps)
    {
      var c := Decode(buf, n);
      Apply(c, app, battery, v, link);
      if Updates(c) {
        PowerOnUplink(app, battery, v, link);
        actions := actions + [Persist];
        app.NewRun(0, joined, mcu);
      }
    }

    /** The branch of the decoder for command `c`, before the common
        tail of a configuration change. */
    method Apply(c: Command, app: T.App, battery: int, v: Version, link: T.Link)
      requires c.SetInterval? ==> 1 <= c.minutes <= MaxIntervalMinutes
      requires Valid() && app.Valid() && -128 <= battery < 128
      modifies this, buffer, app
      ensures Valid() && app.Valid() && extras == old(extras)
      ensures app.Regs() == old(app.Regs()).(config := Configured(old(app.config), c),
                uplinks := old(app.uplinks) + (if c == SendPowerOn
                  then T.Requested(link, PowerOnFrame(battery, v, old(app.config), extras.sosType), false, true) else []))
      ensures params == Stored(old(params), c)
      ensures actions == old(actions) + (if Updates(c) then [] else Actions(c))
      ensures c == SendPowerOn ==> len == 13 && buffer[..13] == PowerOnFrame(battery, v, old(app.config), extras.sosType)
                                   && buffer[13..] == old(buffer[13..])
      ensures c != SendPowerOn ==> len == old(len) && buffer[..] == old(buffer[..])
    {
      match c {
        case SetScanType(k) =>
          app.config := app.config.(scanType := k);
          params := params.(posStrategy := k);
        case SetInterval(m) =>
          app.config := app.config.(interval := m * 60);
          params := params.(posInterval := m);
        case SendPowerOn =>
          PowerOnUplink(app, battery, v, link);
        case Reboot =>
          actions := actions + [Reset];
        case SosContinuous(on) =>
          actions := actions + [if on then SosOn else SosOff];
        case Buzzer(on) =>
          actions := actions + [if on then BeepDownlink else BeepIdle];
        case NoCommand =>
        case Ignored =>
      }
    }
  }
}
