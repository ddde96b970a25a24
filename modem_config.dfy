/** The LoRaWAN set-up of the modem from the stored configuration: the
    stored region number picks the modem's region, the channel group its
    sub-band and the activation type OTAA or ABP; under OTAA a credential
    left all zero falls back to the build-time default. */
module ModemConfig {
  import opened Bytes
  import opened Regions
  import HalMcu
  import AtParams

  /** `is_all_zero(buf, len)`. */
  method IsAllZero(buf: seq<byte>) returns (z: bool)
    ensures z <==> AllZero(buf)
  {
    for i := 0 to |buf|
      invariant forall k :: 0 <= k < i ==> buf[k] == 0
    {
      if buf[i] != 0 {
        return false;
      }
    }
    return true;
  }

  predicate AllZero(buf: seq<byte>)
  {
    forall k :: 0 <= k < |buf| ==> buf[k] == 0
  }

  /** The modem region for a stored LoRaMac region number; numbers the
      switch does not list keep the initial EU868. */
  function RegionOf(code: int): (r: ModemRegion)
    ensures r != OtherRegion
  {
    if code == 0 || code == 15 then AS923Grp1
    else if code == 16 then AS923Grp2
    else if code == 17 then AS923Grp3
    else if code == 18 then AS923Grp4
    else if code == LoRaMacAu915 then AU915
    else if code == LoRaMacEu868 then EU868
    else if code == LoRaMacKr920 then KR920
    else if code == LoRaMacIn865 then IN865
    else if code == LoRaMacUs915 then US915
    else if code == LoRaMacRu864 then RU864
    else if code == 10 then AS923Helium1
    else if code == 11 then AS923Helium2
    else if code == 12 then AS923Helium3
    else if code == 13 then AS923Helium4
    else if code == 14 then AS923Helium1B
    else EU868
  }

  /** The numbers the region switch lists. */
  predicate Listed(code: int)
  {
    code == 0 || code == LoRaMacAu915 || LoRaMacEu868 <= code <= LoRaMacAsGp4
  }

  /** EU868 is chosen for its own number and for every unlisted one. */
  lemma RegionDefault(code: int)
    ensures RegionOf(code) == EU868 <==> code == LoRaMacEu868 || !Listed(code)
  {
  }

  /** The AS923 plans are exactly the numbers the data-rate validators
      treat as AS923. */
  lemma As923Agrees(code: int)
    ensures RegionOf(code).IsAS923() <==> LoRaMacAs923Family(code)
  {
  }

  /** The modem applies a sub-band exactly for the regions where
      `AT+CHANNEL` accepts a channel group. */
  lemma SubBandRegionsAgree(code: int)
    ensures RegionOf(code).HasSubBands() <==> code == LoRaMacUs915 || code == LoRaMacAu915
  {
  }

  /** The sub-band: the channel group plus one, in a `uint8_t`. */
  function SubBand(channelGroup: int): (b: byte)
    ensures 0 <= channelGroup <= 254 ==> b == channelGroup + 1
  {
    ToByte(channelGroup + 1)
  }

  datatype Activation = Abp | Otaa

  /** Type 1 is ABP; 2 and every other value are OTAA. */
  function ActivationOf(code: int): (a: Activation)
    ensures a == Abp <==> code == 1
  {
    if code == 1 then Abp else Otaa
  }

  /** What the AT setter stores for a type is what the modem is set to:
      2 selects OTAA, 0 and 1 select ABP. */
  lemma AtActivationAgrees(v: int)
    ensures ActivationOf(AtParams.Stored(AtParams.ActivationType, v)) == (if v == AtParams.ActivationOtaa then Otaa else Abp)
  {
  }

  /** The LoRaWAN part of `app_param.lora_info`. */
  datatype LoraInfo = LoraInfo(
    activeRegion: int, channelGroup: int, activationType: int, devAddr: int,
    devEui: seq<byte>, joinEui: seq<byte>, appKey: seq<byte>, appSKey: seq<byte>, nwkSKey: seq<byte>)

  predicate InfoOk(info: LoraInfo)
  {
    && |info.devEui| == 8 && |info.joinEui| == 8 && |info.appKey| == 16
    && |info.appSKey| == 16 && |info.nwkSKey| == 16
  }

  /** The build-time texts `LORAWAN_DEVICE_EUI`, `LORAWAN_JOIN_EUI` and
      `LORAWAN_APP_KEY`. */
  datatype Defaults = Defaults(devEui: string, joinEui: string, appKey: string)

  /** A credential as handed to the modem: an all-zero one is replaced by
      the decoding of the default text into the zeroed buffer. */
  function Fallback(cred: seq<byte>, text: string): (r: seq<byte>)
    ensures |r| == |cred|
    ensures !AllZero(cred) ==> r == cred
  {
    if AllZero(cred) then
      seq(|cred|, k => if 0 <= k < HalMcu.WrittenBounded(HalMcu.Len16(text), |cred|) then HalMcu.PairValue(text, k) else 0)
    else cred
  }

  /** A default spelt as the hexadecimal text of `d` replaces an all-zero
      credential by exactly `d`. */
  lemma FallbackOfHexText(cred: seq<byte>, d: seq<byte>)
    requires AllZero(cred) && |d| == |cred| && 2 * |d| < 0x1_0000
    ensures Fallback(cred, HalMcu.HexText(d)) == d
  {
    HalMcu.HexToBinDecodesHexText(d);
    HalMcu.HexTextRoundTrip(d);
  }

  /** The calls made to the modem, in order. */
  datatype ModemCall =
    | SetDevEui(eui: seq<byte>)
    | SetJoinEui(eui: seq<byte>)
    | SetNwkKey(key: seq<byte>)
    | SetDevAddr(addr: int)
    | SetAppSKey(key: seq<byte>)
    | SetNwkSKey(key: seq<byte>)
    | SetClassA
    | SetSubBand(subBand: byte)
    | SetRegion(region: ModemRegion)
    | SetActivationMode(mode: Activation)

  /** The credential calls of each activation mode; under OTAA the AppKey
      is the network key. */
  function CredentialCalls(info: LoraInfo, d: Defaults): seq<ModemCall>
  {
    match ActivationOf(info.activationType)
    case Otaa => [SetDevEui(Fallback(info.devEui, d.devEui)), SetJoinEui(Fallback(info.joinEui, d.joinEui)),
                  SetNwkKey(Fallback(info.appKey, d.appKey))]
    case Abp => [SetDevAddr(info.devAddr), SetAppSKey(info.appSKey), SetNwkSKey(info.nwkSKey)]
  }

  /** The whole sequence of `apps_modem_common_configure_lorawan_params`. */
  function Plan(info: LoraInfo, d: Defaults): seq<ModemCall>
  {
    var region := RegionOf(info.activeRegion);
    CredentialCalls(info, d) + [SetClassA]
    + (if region.HasSubBands() then [SetSubBand(SubBand(info.channelGroup))] else [])
    + [SetRegion(region), SetActivationMode(ActivationOf(info.activationType))]
  }

  /** `apps_modem_common_configure_lorawan_params`: the modem calls made
      and whether the modem is marked joined (`d` is the defaults). */
  method Configure(info: LoraInfo, d: Defaults) returns (calls: seq<ModemCall>, markJoined: bool)
    requires InfoOk(info)
    ensures calls == Plan(info, d)
    ensures markJoined <==> ActivationOf(info.activationType) == Abp
  {
    var region := EU868;
    var mode := Otaa;
    region := RegionOf(info.activeRegion);
    var subBand := ToByte(info.channelGroup + 1);
    if info.activationType == 1 {
      mode := Abp;
    } else if info.activationType == 2 {
      mode := Otaa;
    }
    calls := [];
    if mode == Otaa {
      var devEui := Credential(info.devEui, d.devEui);
      var joinEui := Credential(info.joinEui, d.joinEui);
      var appKey := Credential(info.appKey, d.appKey);
      calls := calls + [SetDevEui(devEui), SetJoinEui(joinEui), SetNwkKey(appKey)];
    } else {
      calls := calls + [SetDevAddr(info.devAddr), SetAppSKey(info.appSKey), SetNwkSKey(info.nwkSKey)];
    }
    calls := calls + [SetClassA];
    if region == US915 || region == AU915 {
      calls := calls + [SetSubBand(subBand)];
    }
    calls := calls + [SetRegion(region)];
    calls := calls + [SetActivationMode(mode)];
    markJoined := mode == Abp;
  }

  /** The local copy of a credential, with the fallback applied. */
  method Credential(cred: seq<byte>, text: string) returns (r: seq<byte>)
    ensures r == Fallback(cred, text)
  {
    var zero := IsAllZero(cred);
    if !zero {
      return cred;
    }
    var buf := new byte[|cred|](_ => 0);
    var written := HalMcu.HexToBin(text, buf, |cred|);
    r := buf[..];
  }

  // ---------------------------------------------------------------------
  // Properties of the set-up
  // ---------------------------------------------------------------------

  /** Under OTAA no session credential reaches the modem. */
  lemma OtaaSetsNoSessionKeys(info: LoraInfo, d: Defaults)
    requires ActivationOf(info.activationType) == Otaa
    ensures forall c :: c in Plan(info, d) ==> !c.SetDevAddr? && !c.SetAppSKey? && !c.SetNwkSKey?
    ensures SetNwkKey(Fallback(info.appKey, d.appKey)) in Plan(info, d)
  {
    assert Plan(info, d)[2] == SetNwkKey(Fallback(info.appKey, d.appKey));
  }

  /** Under ABP no join credential reaches the modem, and the stored
      ones are handed over unchanged. */
  lemma AbpSetsNoJoinKeys(info: LoraInfo, d: Defaults)
    requires ActivationOf(info.activationType) == Abp
    ensures forall c :: c in Plan(info, d) ==> !c.SetDevEui? && !c.SetJoinEui? && !c.SetNwkKey?
    ensures Plan(info, d)[..3] == [SetDevAddr(info.devAddr), SetAppSKey(info.appSKey), SetNwkSKey(info.nwkSKey)]
  {
  }

  /** A sub-band is set exactly for US915 and AU915, and it is the
      channel group plus one. */
  lemma SubBandOnlyForUsAu(info: LoraInfo, d: Defaults)
    ensures (exists c :: c in Plan(info, d) && c.SetSubBand?)
            <==> info.activeRegion == LoRaMacUs915 || info.activeRegion == LoRaMacAu915
    ensures forall c :: c in Plan(info, d) && c.SetSubBand? ==> c.subBand == SubBand(info.channelGroup)
  {
    var p := Plan(info, d);
    if info.activeRegion == LoRaMacUs915 || info.activeRegion == LoRaMacAu915 {
      assert p[4].SetSubBand?;
    }
  }

  /** The region and the activation mode are set last, in that order. */
  lemma RegionThenMode(info: LoraInfo, d: Defaults)
    ensures var p := Plan(info, d);
            |p| >= 2 && p[|p| - 2] == SetRegion(RegionOf(info.activeRegion))
            && p[|p| - 1] == SetActivationMode(ActivationOf(info.activationType))
  {
  }

  /** A credential that is not all zero is never replaced. */
  lemma StoredCredentialsKept(info: LoraInfo, d: Defaults)
    requires ActivationOf(info.activationType) == Otaa
    requires !AllZero(info.devEui) && !AllZero(info.joinEui) && !AllZero(info.appKey)
    ensures Plan(info, d)[..3] == [SetDevEui(info.devEui), SetJoinEui(info.joinEui), SetNwkKey(info.appKey)]
  {
  }
}
