/** The regions of the LoRa Basics Modem (`smtc_modem_region_t`) that the
    firmware distinguishes; every other region is `OtherRegion`. */
module Regions {

  datatype ModemRegion =
    | EU868 | US915 | AU915
    | AS923Grp1 | AS923Grp2 | AS923Grp3 | AS923Grp4
    | AS923Helium1 | AS923Helium2 | AS923Helium3 | AS923Helium4 | AS923Helium1B
    | KR920 | IN865 | RU864
    | OtherRegion
  {
    /** The AS923 channel plans, Helium variants included. */
    predicate IsAS923()
    {
      this in {AS923Grp1, AS923Grp2, AS923Grp3, AS923Grp4,
               AS923Helium1, AS923Helium2, AS923Helium3, AS923Helium4, AS923Helium1B}
    }

    /** The channel plans with selectable 8-channel sub-bands. */
    predicate HasSubBands()
    {
      this == US915 || this == AU915
    }
  }

  // The LoRaMac region numbers (`LoRaMacRegion_t`) the configuration
  // stores; the header that fixes them is not part of this model, so the
  // numbering is the one the region switch of the modem set-up implies.
  const LoRaMacAs923: int := 0
  const LoRaMacAu915: int := 1
  const LoRaMacCn470: int := 2
  const LoRaMacCn779: int := 3
  const LoRaMacEu433: int := 4
  const LoRaMacEu868: int := 5
  const LoRaMacKr920: int := 6
  const LoRaMacIn865: int := 7
  const LoRaMacUs915: int := 8
  const LoRaMacRu864: int := 9
  const LoRaMacAsGp4: int := 18
  const LoRaMacRegionMax: int := 19

  /** The AS923 channel plans among the LoRaMac numbers. */
  predicate LoRaMacAs923Family(code: int)
  {
    code == LoRaMacAs923 || 10 <= code <= LoRaMacAsGp4
  }
}
