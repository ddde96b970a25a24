# T1000-E tracker firmware: a Dafny model of its core

This project models the logic of the T1000-E LoRaWAN tracker firmware that decides what the device scans, what it sends and how it reads its inputs. It also proves properties of that model. Each module follows one source file, or a small group of them.

- `Tracker` (`tracker.dfy`) models the scan session of the tracker application.
  - One re-armed modem alarm drives `app_tracker_scan_process` through the BLE, Wi-Fi and GNSS phases of the eight scan types.
  - A composite type stops early once an earlier source has produced a result.
  - `app_tracker_scan_result_send` builds one uplink frame per call, in the order GNSS, Wi-Fi, BLE, then sensors only. It counts the pending frames down and re-arms the alarm for the rest of the periodic interval.
  - `app_send_frame` applies the duty-cycle and payload gates. `app_tracker_new_run` starts a session only when none is running.
  - The firmware's globals are fields of the class `Tracker.App`. Each strategy step is proved against a value-level specification of one tick, `Tracker.Advance`.
- `Adr` (`adr.dfy`) models `custom_lora_adr_compute`, which spreads sixteen data rates evenly over a window, and the choice between that list and the regional default tables.
- `VesselAssistance` (`vessel_assistance.dfy`) models the position/time cache that vessel assistance downlinks fill for the GNSS receiver. It covers:
  - the freshness tiers and their scan durations;
  - the estimated time and the time-uncertainty model;
  - the almanac-maintenance rule;
  - the gated write-back of the device's own fix;
  - the 9-byte position downlink.

  The RTC reading is a parameter.
- `LoraPacket` (`lora_packet.dfy`) models the 13-byte power-on uplink, the downlink commands that change the tracker configuration, and the load of the stored parameters.
- `BleScan` (`ble_scan.dfy`) models the iBeacon scanner:
  - the advertisement filter and the UUID filter;
  - de-duplication;
  - the sixteen beacon slots;
  - the swap sort by RSSI;
  - the packing of the strongest five beacons into 7-byte records.

  The peripheral driver (`ble_scan.c`) and the tracker application (`app_ble_all.c`) carry two copies of this code, which differ in padding and in the scanning flag. `BleScan.Variant` selects between them.
- `WifiScan` (`wifi_scan.dfy`) models the packing of the access points into MAC-plus-RSSI records.
- `HalMcu` (`hal_mcu.dfy`) models:
  - `memcpyr`, the reversed copy behind every big-endian field;
  - `hal_hex_to_bin`;
  - the chunking of `hal_mcu_set_sleep_for_ms`;
  - the one-shot sleep-break flag.
- `HalUart` (`hal_uart.dfy`) models the UART 0 receive handler that gathers NMEA lines from the GNSS receiver, and the initialise-then-transmit guard.
- `Nmea` (`nmea.dfy`) models the two NMEA 0183 checksum routines, the sentence splitter of the AG3335 driver, and the `$PAIR382` sleep-lock commands.
- `AtCommand` (`at_command.dfy`) models the AT dispatcher. It checks the prefix and the CR LF ending, picks the first matching table entry, and chooses between run, get, set and help.
- `AtParams` (`at_params.dfy`) models the argument readers of the AT setters and the setters themselves. The setters validate an argument, store it into the persistent `app_param` and raise the "changed" flag.
- `ModemConfig` (`modem_config.dfy`) models the derivation of the modem's region, sub-band and activation mode from the stored configuration, together with the fallback of all-zero OTAA credentials to the build-time defaults.
- `Bytes` and `Regions` hold shared helpers: byte and integer widths, byte order, and the modem region type.

Integers are unbounded in Dafny. The model spells out each C width, wrap-around and truncation explicitly: `u32` subtraction of RTC readings, `uint8_t` counters, signed `int8_t` RSSI bytes.

## Model

| member | source | states |
|---|---|---|
| Tracker.Plan | apps/examples/11_lorawan_tracker/main_lorawan_tracker.c:1042-1335 | each strategy runs at most three distinct phases; BLE comes first exactly for the four BLE strategies |
| Tracker.NextStep | apps/examples/11_lorawan_tracker/main_lorawan_tracker.c:1042-1335 | a step that begins or continues a session moves the status forward inside the plan; a continuation only after an empty phase; no step at all for an unknown strategy or a status beyond the plan |
| Tracker.AdaptiveGnssDuration | apps/examples/11_lorawan_tracker/main_lorawan_tracker.c:765-790 | the almanac duration for a charging tracker due for maintenance, otherwise the shorter of the configured and the recommended duration |
| Tracker.PositiveOrOne | apps/examples/11_lorawan_tracker/main_lorawan_tracker.c:1064 | the alarm delay is at least one second |
| Tracker.NextSessionOnPeriod | apps/examples/11_lorawan_tracker/main_lorawan_tracker.c:1036-1037 | a session that ends within its period re-arms so the next one begins exactly one interval after this one began; one that overran re-arms for one second |
| Tracker.NextSessionAcrossWrap | apps/examples/11_lorawan_tracker/main_lorawan_tracker.c:1036 | the same pacing holds when the 32-bit RTC wrapped during the session |
| Tracker.SourceOfFrameId | apps/examples/11_lorawan_tracker/main_lorawan_tracker.c:898-1008 | each source and accelerometer setting has its own frame identifier, and the identifier gives them back |
| Tracker.EncodeFrame | apps/examples/11_lorawan_tracker/main_lorawan_tracker.c:898-1025 | a frame starts with the identifier and the event state, and is the header, a count byte for Wi-Fi and BLE, and the data |
| Tracker.ReadSensors | apps/examples/11_lorawan_tracker/main_lorawan_tracker.c:911-915 | the battery, temperature and light survive their big-endian copy into the header |
| Tracker.ReadMotion | apps/examples/11_lorawan_tracker/main_lorawan_tracker.c:917-923 | the three accelerometer axes survive their big-endian copy |
| Tracker.DecodeEncodeFrame | apps/examples/11_lorawan_tracker/main_lorawan_tracker.c:867-1025 | every frame the tracker sends reads back as the report it was built from |
| Tracker.DecodeFromParts | apps/examples/11_lorawan_tracker/main_lorawan_tracker.c:898-1025 | a frame holding a report's identifier, event, readings and payload at their offsets reads back as that report |
| Tracker.Requested | apps/examples/11_lorawan_tracker/main_lorawan_tracker.c:1343-1376 | nothing is requested while the duty cycle is negative; the frame is requested exactly when it fits the next payload, an empty uplink otherwise |
| Tracker.Truncated | apps/examples/11_lorawan_tracker/main_lorawan_tracker.c:739-740 | the length after the cut to the record limit, computed in `uint8_t`, never grows, and stays when within the limit |
| Tracker.Counted | apps/examples/11_lorawan_tracker/main_lorawan_tracker.c:741-742 | one more pending frame for a non-empty result, capped at 3; none more for an empty one |
| Tracker.Pending | apps/examples/11_lorawan_tracker/main_lorawan_tracker.c:898-1025 | GNSS before Wi-Fi before BLE; sensors alone exactly when all three buffers are empty |
| Tracker.RemainingNoWrap | apps/examples/11_lorawan_tracker/main_lorawan_tracker.c:1063-1329 | when the phases fit the interval, the remaining time is the interval less the time the phases took |
| Tracker.FirstPhase | apps/examples/11_lorawan_tracker/main_lorawan_tracker.c:1089-1111 | a session begins with the first phase of its plan (BLE for the BLE-first strategies even when the almanac is due), except that WIFI_GNSS goes straight to GNSS on a charging tracker due for maintenance |
| Tracker.FoundEndsSession | apps/examples/11_lorawan_tracker/main_lorawan_tracker.c:1112-1121 | outside test mode, a phase that found something ends the session |
| Tracker.MaintenanceFixNotSent | apps/examples/11_lorawan_tracker/main_lorawan_tracker.c:822-865 | a fix taken during almanac maintenance is stored in the assistance cache but leaves no GNSS result to send |
| Tracker.SessionStopsAtFirstFind | apps/examples/11_lorawan_tracker/main_lorawan_tracker.c:1042-1335 | a session runs the phases of its plan in order and stops after the first that found something, or after the last |
| Tracker.WalkStep | apps/examples/11_lorawan_tracker/main_lorawan_tracker.c:1112-1130 | at phase `k` the phase ends, and either the results go to the sender or phase `k + 1` begins |
| Tracker.AdvanceOk | apps/examples/11_lorawan_tracker/main_lorawan_tracker.c:729-862 | a step keeps every result length within its buffer and the pending count within 0..3 |
| Tracker.Rerun | apps/examples/11_lorawan_tracker/main_lorawan_tracker.c:1378-1402 | a running session only records the event; an idle joined tracker re-arms the alarm for one second; an idle tracker that has not joined forgets the event and the pending count |
| Tracker.RerunDuringSession | apps/examples/11_lorawan_tracker/main_lorawan_tracker.c:1398-1401 | a request during a session does not change the next step |
| Tracker.RerunStartsSession | apps/examples/11_lorawan_tracker/main_lorawan_tracker.c:1381-1390 | a request on an idle joined tracker arms the alarm whose tick begins a session |
| Tracker.ShortenedPlanStalls | apps/examples/11_lorawan_tracker/main_lorawan_tracker.c:1048-1069 | as written, a GNSS_ONLY tracker whose status is 2 (left by a longer plan when the type changed mid-session) takes no branch: the tick arms no alarm and sends nothing, and a new-run request does not re-arm it |
| Tracker.App.BleScanBegin | apps/examples/11_lorawan_tracker/main_lorawan_tracker.c:727-732 | the BLE length is zero and its buffer cleared |
| Tracker.App.BleScanEnd | apps/examples/11_lorawan_tracker/main_lorawan_tracker.c:734-744 | the BLE buffer holds what the driver wrote; the length is cut to the record limit; a non-empty result is counted and raises `scan_result` outside test mode |
| Tracker.App.WifiScanBegin | apps/examples/11_lorawan_tracker/main_lorawan_tracker.c:746-751 | the Wi-Fi length is zero and its buffer cleared |
| Tracker.App.WifiScanEnd | apps/examples/11_lorawan_tracker/main_lorawan_tracker.c:753-763 | as for BLE; a failed driver call leaves buffer and length alone |
| Tracker.App.GnssScanBegin | apps/examples/11_lorawan_tracker/main_lorawan_tracker.c:792-820 | the GNSS length is zero and its buffer cleared |
| Tracker.App.PutFix | apps/examples/11_lorawan_tracker/main_lorawan_tracker.c:847-849 | the GNSS buffer starts with longitude then latitude, big-endian, and the length is 8 |
| Tracker.App.GnssScanEnd | apps/examples/11_lorawan_tracker/main_lorawan_tracker.c:822-865 | a fix is stored in the assistance cache; it becomes the result unless the almanac is due, which clears the buffer; the result is counted |
| Tracker.App.KeepFix | apps/examples/11_lorawan_tracker/main_lorawan_tracker.c:845-856 | the fix into the GNSS buffer, or the buffer cleared during almanac maintenance |
| Tracker.App.SendFrame | apps/examples/11_lorawan_tracker/main_lorawan_tracker.c:1343-1376 | true exactly when the frame fits; the requests are those of `Requested` |
| Tracker.App.PutBE2 | apps/examples/11_lorawan_tracker/main_lorawan_tracker.c:913-914 | a 16-bit field is written big-endian after the bytes already there |
| Tracker.App.PutHeader | apps/examples/11_lorawan_tracker/main_lorawan_tracker.c:898-923 | the frame buffer starts with the header for the readings |
| Tracker.App.PutBytes | apps/examples/11_lorawan_tracker/main_lorawan_tracker.c:952-953 | the bytes are appended to the frame and the length grows by their count |
| Tracker.App.PutFrame | apps/examples/11_lorawan_tracker/main_lorawan_tracker.c:927-1025 | the frame buffer holds the encoded frame of the source |
| Tracker.App.ResultSend | apps/examples/11_lorawan_tracker/main_lorawan_tracker.c:867-1040 | the frame of the pending source is built and handed over; a sent result is emptied and counted off; the alarm is set for the next frame or, with nothing pending, for the rest of the interval |
| Tracker.App.Transmit | apps/examples/11_lorawan_tracker/main_lorawan_tracker.c:876-879 | the frame is confirmed under the 1C policy or for a user alarm |
| Tracker.App.Compose | apps/examples/11_lorawan_tracker/main_lorawan_tracker.c:881-1023 | the frame of the source in the cleared buffer; a sensor-only frame counts as the one pending frame |
| Tracker.App.Settle | apps/examples/11_lorawan_tracker/main_lorawan_tracker.c:1027-1039 | the state after the frame was handed over or not, as `Settled` says |
| Tracker.App.Delivered | apps/examples/11_lorawan_tracker/main_lorawan_tracker.c:956-1027 | the buffer of the sent source is emptied and one frame fewer is pending |
| Tracker.App.Pace | apps/examples/11_lorawan_tracker/main_lorawan_tracker.c:1028-1039 | with frames pending the alarm is the send interval; otherwise the session ends and the alarm is the rest of the periodic interval |
| Tracker.App.BeginSession | apps/examples/11_lorawan_tracker/main_lorawan_tracker.c:1050-1059 | the alarm, the start time, the status and the cleared buffer of the first phase |
| Tracker.App.NextPhase | apps/examples/11_lorawan_tracker/main_lorawan_tracker.c:1122-1129 | the alarm, the status and the cleared buffer of the next phase |
| Tracker.App.Conclude | apps/examples/11_lorawan_tracker/main_lorawan_tracker.c:1060-1068 | the alarm for the rest of the interval and the status that hands the results to the sender |
| Tracker.App.EndPhase | apps/examples/11_lorawan_tracker/main_lorawan_tracker.c:734-865 | the end of a phase with the driver results of the tick, as `Closed` and `Filled` say |
| Tracker.App.GnssOnlyStep | apps/examples/11_lorawan_tracker/main_lorawan_tracker.c:1048-1069 | the GNSS_ONLY branch takes the reference step |
| Tracker.App.WifiOnlyStep | apps/examples/11_lorawan_tracker/main_lorawan_tracker.c:1070-1088 | the WIFI_ONLY branch takes the reference step |
| Tracker.App.BleOnlyStep | apps/examples/11_lorawan_tracker/main_lorawan_tracker.c:1182-1200 | the BLE_ONLY branch takes the reference step |
| Tracker.App.WifiGnssStep | apps/examples/11_lorawan_tracker/main_lorawan_tracker.c:1089-1140 | the WIFI_GNSS branch takes the reference step, skipping Wi-Fi on a charging tracker due for maintenance |
| Tracker.App.GnssWifiStep | apps/examples/11_lorawan_tracker/main_lorawan_tracker.c:1141-1181 | the GNSS_WIFI branch takes the reference step |
| Tracker.App.BleWifiStep | apps/examples/11_lorawan_tracker/main_lorawan_tracker.c:1201-1237 | the BLE_WIFI branch takes the reference step |
| Tracker.App.BleGnssStep | apps/examples/11_lorawan_tracker/main_lorawan_tracker.c:1238-1277 | the BLE_GNSS branch takes the reference step |
| Tracker.App.BleWifiGnssStep | apps/examples/11_lorawan_tracker/main_lorawan_tracker.c:1278-1335 | the BLE_WIFI_GNSS branch takes the reference step |
| Tracker.App.Scan | apps/examples/11_lorawan_tracker/main_lorawan_tracker.c:1042-1335 | the scan part of a tick takes the reference step; an unknown strategy does nothing |
| Tracker.App.Process | apps/examples/11_lorawan_tracker/main_lorawan_tracker.c:1042-1341 | one alarm tick is the reference tick: the scan step, then one frame when the results are ready |
| Tracker.App.NewRun | apps/examples/11_lorawan_tracker/main_lorawan_tracker.c:1378-1402 | the registers change as `Rerun` says, and the sleep break is raised exactly for an idle joined tracker |
| Tracker.App.TxDone | apps/examples/11_lorawan_tracker/main_lorawan_tracker.c:626-639 | the event state is cleared; nothing else changes |
| Tracker.App.CountResult | apps/examples/11_lorawan_tracker/main_lorawan_tracker.c:741-743 | the pending count grows by one for a non-empty result, capped at 3, and `scan_result` is raised for it outside test mode |
| Adr.ShareTotal | apps/examples/11_lorawan_tracker/main_lorawan_tracker.c:353-355 | each rate's share times the number of rates, plus the remainder, is the sixteen slots |
| Adr.AdrSpecLength | apps/examples/11_lorawan_tracker/main_lorawan_tracker.c:351-371 | the profile for a window `min < max` has exactly sixteen entries |
| Adr.AdrSpecSortedInWindow | apps/examples/11_lorawan_tracker/main_lorawan_tracker.c:351-371 | the profile never decreases and every entry lies in `min..max` |
| Adr.AdrSpecCounts | apps/examples/11_lorawan_tracker/main_lorawan_tracker.c:353-369 | rate `min + i` occurs `16 / n` times, once more for the first `16 % n` rates, and any rate outside the window never |
| Adr.AdrCompute | apps/examples/11_lorawan_tracker/main_lorawan_tracker.c:351-371 | the sixteen bytes written are the profile: the rates in order, each repeated its share plus its extra slot |
| Adr.WriteShare | apps/examples/11_lorawan_tracker/main_lorawan_tracker.c:360-363 | `n` copies of the rate from the given index; the bytes before it are unchanged |
| Adr.Eu868DefaultIsSpread | apps/examples/11_lorawan_tracker/main_lorawan_tracker.c:78 | the EU868 default table (shared by KR920, IN865 and RU864) is the profile for DR0..DR5 |
| Adr.Us915DefaultIsSpread | apps/examples/11_lorawan_tracker/main_lorawan_tracker.c:79 | the US915 default table is the profile for DR1..DR3 |
| Adr.Au915DefaultIsSpread | apps/examples/11_lorawan_tracker/main_lorawan_tracker.c:80-81 | the AU915 and AS923 default tables are the profile for DR3..DR5 |
| Adr.SelectedListSorted | apps/examples/11_lorawan_tracker/main_lorawan_tracker.c:390-566 | for a supported region with the user ADR off, the chosen list never decreases, and a user window inside the region's window is never left |
| Adr.SelectAdrProfile | apps/examples/11_lorawan_tracker/main_lorawan_tracker.c:390-566 | the list becomes the selection: unchanged with the user ADR on or an unsupported region; all one rate, the default, or the computed profile as the user window dictates |
| Adr.DefaultList | apps/examples/11_lorawan_tracker/main_lorawan_tracker.c:78-84 | a sixteen-entry default table exactly for the regions the switch lists |
| VesselAssistance.EncodeMsg | t1000_e/tracker/inc/vessel_assistance.h:48-52 | the position message is nine bytes and starts with its type |
| VesselAssistance.DecodeMsg | t1000_e/tracker/src/vessel_assistance.c:75-106 | the decoder takes the type from byte 0 and two signed 32-bit coordinates |
| VesselAssistance.DecodeEncodeMsg | t1000_e/tracker/inc/vessel_assistance.h:48-52 | every packed position message decodes to itself |
| VesselAssistance.GetQuality | t1000_e/tracker/src/vessel_assistance.c:124-143 | EXCELLENT under 30 minutes, GOOD under 90, FAIR under 180, POOR for older data or an invalid cache |
| VesselAssistance.QualityDegradesWithAge | t1000_e/tracker/inc/vessel_assistance.h:54-62 | older data never has a better quality |
| VesselAssistance.IsAvailable | t1000_e/tracker/src/vessel_assistance.c:113-122 | true exactly for a valid cache younger than 180 minutes |
| VesselAssistance.GetEstimatedTime | t1000_e/tracker/src/vessel_assistance.c:145-155 | the raw RTC for an invalid cache |
| VesselAssistance.EstimatedTimeFollowsRtc | t1000_e/tracker/src/vessel_assistance.c:145-155 | for a valid cache the estimate advances exactly as the RTC does, modulo 2^32 |
| VesselAssistance.EstimatedTimeAtReceipt | t1000_e/tracker/src/vessel_assistance.c:145-155 | at the moment of receipt the estimate is the received time |
| VesselAssistance.GetTimeUncertainty | t1000_e/tracker/src/vessel_assistance.c:157-170 | 3600 s for an invalid cache; otherwise the base plus the drift of the elapsed whole hours times 125 / 1000 |
| VesselAssistance.NoDriftForEightHours | t1000_e/tracker/src/vessel_assistance.c:157-170 | under eight hours of age the uncertainty is the base |
| VesselAssistance.DriftBounded | t1000_e/tracker/src/vessel_assistance.c:157-170 | the drift term is bounded over the whole 32-bit age range |
| VesselAssistance.UncertaintyGrowsWithAge | t1000_e/tracker/src/vessel_assistance.c:157-170 | the uncertainty never decreases with age while it does not wrap |
| VesselAssistance.ScanDuration | t1000_e/tracker/src/vessel_assistance.c:172-186 | 10, 15, 25 or 60 s, and 60 exactly for POOR |
| VesselAssistance.ScanDurationFollowsRank | t1000_e/tracker/src/vessel_assistance.c:172-186 | a worse quality never gets a shorter scan |
| VesselAssistance.GetRecommendedScanDuration | t1000_e/tracker/src/vessel_assistance.c:172-186 | 10 s exactly for available data under 30 minutes; 60 s exactly when nothing is available |
| VesselAssistance.NeedsAlmanacMaintenance | t1000_e/tracker/src/vessel_assistance.c:194-205 | true exactly for a valid cache at least `days` days old; an empty cache never needs it |
| VesselAssistance.WarmStartReady | t1000_e/tracker/inc/vessel_assistance.h:181-191 | ready only with a valid position under four hours old |
| VesselAssistance.WarmStartPositionMayBePoor | t1000_e/tracker/inc/vessel_assistance.h:181-191 | a cache ready for a warm start is never due for maintenance, yet it may already be POOR after three hours |
| VesselAssistance.OwnFixStored | t1000_e/tracker/src/vessel_assistance.c:244-266 | available data is kept; otherwise the fix replaces it, received now, with the old base uncertainty or 3600 s |
| VesselAssistance.FreshCacheIsExcellent | t1000_e/tracker/src/vessel_assistance.c:113-186 | data received now is EXCELLENT, available, gets the 10 s scan and has no drift |
| VesselAssistance.OwnFixKeepsUsefulData | t1000_e/tracker/src/vessel_assistance.c:244-266 | an own fix never overrides available data, and afterwards data is always available |
| VesselAssistance.Assistance.Init | t1000_e/tracker/src/vessel_assistance.c:67-73 | the cache is empty |
| VesselAssistance.Assistance.HandleDownlink | t1000_e/tracker/src/vessel_assistance.c:75-106 | accepted exactly for a non-null payload of at least nine bytes of type 0x01; then the RTC is set, the cache holds the position, received now, with 60 s uncertainty; otherwise nothing changes |
| VesselAssistance.AgeSpansRtcSet | t1000_e/tracker/src/vessel_assistance.c:93-98 | the receipt stamp is taken before the RTC is set to the message time, so a later age equals the true elapsed time only when the RTC already showed that time; otherwise the jump is counted as age and the estimate is off by it |
| VesselAssistance.Assistance.StoreOwnFix | t1000_e/tracker/src/vessel_assistance.c:244-266 | the cache becomes `OwnFixStored` |
| LoraPacket.PowerOnFrame | t1000_e/tracker/src/app_lora_packet.c:42-56 | the power-on uplink is thirteen bytes |
| LoraPacket.ParsePowerOnFrame | t1000_e/tracker/src/app_lora_packet.c:37-59 | the network side reads back the battery, the four version numbers, the strategy, the interval in minutes cut to 16 bits, the accelerometer flag, the SOS mode and the two record limits |
| LoraPacket.Decode | t1000_e/tracker/src/app_lora_packet.c:61-142 | no command exactly for a null or empty buffer; a strategy is only accepted if it is 0, 1 or 3 to 7; an interval only if it is 1 to 10080 minutes |
| LoraPacket.DecodeEncode | t1000_e/tracker/src/app_lora_packet.c:67-142 | every command the decoder acts on decodes back from its five-byte downlink |
| LoraPacket.IntervalEncoding | t1000_e/tracker/src/app_lora_packet.c:114 | the interval travels big-endian in bytes 3 and 4 |
| LoraPacket.TrackTypeTwoRejected | t1000_e/tracker/src/app_lora_packet.c:74 | strategy 2 cannot be selected by downlink |
| LoraPacket.Configured | t1000_e/tracker/src/app_lora_packet.c:72-123 | a command that updates nothing leaves the tracker configuration as it was |
| LoraPacket.Stored | t1000_e/tracker/src/app_lora_packet.c:72-123 | a command that updates nothing leaves the stored parameters as they were |
| LoraPacket.Loaded | t1000_e/tracker/src/app_lora_packet.c:166-193 | the BLE duration is at most 30 s and otherwise the stored one; the interval is the stored minutes times 60 while that fits 32 bits; the Wi-Fi duration is not touched |
| LoraPacket.LoadAfterSetInterval | t1000_e/tracker/src/app_lora_packet.c:166-193 | after an interval downlink, loading the stored parameters gives back the interval the command set |
| LoraPacket.LoadAfterSetScanType | t1000_e/tracker/src/app_lora_packet.c:166-193 | after a strategy downlink, loading the stored parameters gives back the strategy the command set |
| LoraPacket.Packets.ParamsLoad | t1000_e/tracker/src/app_lora_packet.c:166-193 | the tracker configuration becomes the loaded one and the other globals are set from the stored parameters; nothing else changes |
| LoraPacket.Packets.PowerOnUplink | t1000_e/tracker/src/app_lora_packet.c:37-59 | the packet buffer holds the thirteen-byte frame for the current configuration, and the frame is handed to the sender unconfirmed and as an emergency frame |
| LoraPacket.Packets.PutPowerOn | t1000_e/tracker/src/app_lora_packet.c:42-56 | the first thirteen bytes of the buffer are the power-on frame |
| LoraPacket.Packets.DownlinkDecode | t1000_e/tracker/src/app_lora_packet.c:61-164 | the configuration and stored parameters change as the decoded command says; a power-on uplink is written and sent for an update or an explicit request, otherwise the packet buffer and its length are untouched; a strategy or interval update starts a new run, which breaks the sleep exactly when the tracker is idle and joined; the loaded extras never change |
| LoraPacket.Packets.Apply | t1000_e/tracker/src/app_lora_packet.c:70-142 | one branch of the decoder: the configuration, the stored parameters and the side effects of the command, and the power-on frame on request |
| BleScan.PrefixPasses | t1000_e/peripherals/src/ble_scan.c:65-82 | a UUID always passes a filter whose bytes are a prefix of it |
| BleScan.OddOffsetMatch | t1000_e/peripherals/src/ble_scan.c:71-80 | the filter compares hexadecimal text, so a one-byte filter 0x12 accepts a UUID with no byte 0x12 (the text "12" straddles 0x01 0x20) |
| BleScan.RepeatDropped | t1000_e/peripherals/src/ble_scan.c:121-149 | once a beacon is stored, a later report with the same UUID, major, minor and address is dropped whatever its RSSI |
| BleScan.ZeroBeaconDropped | t1000_e/peripherals/src/ble_scan.c:122-137 | a report whose UUID, major, minor and address are all zero matches an empty slot and is never stored |
| BleScan.PutRecord | t1000_e/peripherals/src/ble_scan.c:296-297 | one record is written at the offset: the address reversed, then the RSSI byte; the bytes before it are untouched |
| BleScan.AppendRecord | t1000_e/peripherals/src/ble_scan.c:294-299 | writing record `i` after the first `i` records extends the result to the first `i + 1` records |
| BleScan.RecordsAt | t1000_e/peripherals/src/ble_scan.c:294-299 | bytes `7i..7i+7` of the results are the record of beacon `i` |
| BleScan.SwapKeepsOrder | t1000_e/peripherals/src/ble_scan.c:274-282 | an exchange in the inner loop keeps the sorted prefix and makes position `i` the strongest seen so far |
| BleScan.HeadSorted | t1000_e/peripherals/src/ble_scan.c:272-283 | a strongest head at position `i` extends the sorted prefix by one |
| BleScan.PermutationInRange | t1000_e/peripherals/src/ble_scan.c:267-270 | every index of a permutation of `0..n-1` is below `n` |
| BleScan.StrongestSent | t1000_e/peripherals/src/ble_scan.c:272-299 | a stored beacon not among the first `k` sent is no stronger than any beacon that is sent |
| BleScan.Scanner.ScanStart | t1000_e/peripherals/src/ble_scan.c:234-255 | every slot is cleared and the count reset; the peripheral copy raises the scanning flag and answers true |
| BleScan.Scanner.ScanStop | t1000_e/peripherals/src/ble_scan.c:316-321 | the peripheral copy lowers the scanning flag; nothing else changes |
| BleScan.Scanner.IsActive | t1000_e/peripherals/src/ble_scan.c:350-353 | the answer is the scanning flag |
| BleScan.Scanner.BufCmpValue | t1000_e/peripherals/src/ble_scan.c:53-63 | true exactly when the first `len` bytes agree |
| BleScan.Scanner.UuidFilter | t1000_e/peripherals/src/ble_scan.c:65-82 | true exactly when no filter is set or the filter's hexadecimal text occurs in the UUID's |
| BleScan.Scanner.IsDuplicate | t1000_e/peripherals/src/ble_scan.c:122-134 | true exactly when some slot, empty ones included, has the same UUID, major, minor and address |
| BleScan.Scanner.OnAdvReport | t1000_e/peripherals/src/ble_scan.c:96-154 | a report is stored in the next slot exactly when it is a non-empty iBeacon report that passes the filter, matches no slot and finds the next slot free; the filter flag is raised for every iBeacon report |
| BleScan.Scanner.OnIBeacon | t1000_e/peripherals/src/ble_scan.c:119-149 | for an iBeacon report, the slots change exactly as the admission rule says |
| BleScan.Scanner.Store | t1000_e/peripherals/src/ble_scan.c:137-147 | the new beacon goes into slot `resNum` and the count grows by one, keeping the slots pairwise distinct |
| BleScan.Scanner.SortOrder | t1000_e/peripherals/src/ble_scan.c:272-283 | the first `n` indices end as a permutation of what they were, in decreasing order of RSSI |
| BleScan.Scanner.PlaceStrongest | t1000_e/peripherals/src/ble_scan.c:274-282 | the inner loop leaves at position `i` the strongest of positions `i..n-1`, permuting only those |
| BleScan.Scanner.Swap | t1000_e/peripherals/src/ble_scan.c:278-280 | two indices are exchanged and the multiset of the first `n` is unchanged |
| BleScan.Scanner.GetResults | t1000_e/peripherals/src/ble_scan.c:257-314 | false without writing for a null buffer; size 0 and false with no beacon; otherwise true, the order is a permutation strongest first, and the result holds the records of the strongest five (padded with 0xFF to five in the peripheral copy) |
| BleScan.Scanner.Deliver | t1000_e/peripherals/src/ble_scan.c:267-309 | the records of the strongest `min(n, 5)` beacons in order, then the padding of the peripheral copy |
| BleScan.Scanner.Arrange | t1000_e/peripherals/src/ble_scan.c:267-283 | the first `n` indices become a permutation of `0..n-1`, strongest first |
| BleScan.Scanner.ResetOrder | t1000_e/peripherals/src/ble_scan.c:267-270 | the first `n` indices become `0..n-1` |
| BleScan.Scanner.PackRecords | t1000_e/peripherals/src/ble_scan.c:294-299 | the first `7k` bytes are the records of the first `k` beacons in index order |
| BleScan.Scanner.PadRecords | t1000_e/peripherals/src/ble_scan.c:301-308 | the records already written are kept and followed by 0xFF records up to five |
| WifiScan.ApRecord | t1000_e/peripherals/src/wifi_scan.c:73-79 | a seven-byte record: the six MAC bytes as received, then the RSSI as a byte |
| WifiScan.ReadRecords | t1000_e/peripherals/src/wifi_scan.c:71-80 | a payload of `7n` bytes reads back as `n` well-formed access points |
| WifiScan.Int8RoundTrip | t1000_e/peripherals/src/wifi_scan.c:78 | a signed RSSI survives the store into a `uint8_t` and the read back as `int8_t` |
| WifiScan.ReadApRecords | t1000_e/peripherals/src/wifi_scan.c:71-80 | reading the packed records gives back exactly the access points, in the driver's order |
| WifiScan.Scanner.GetResults | t1000_e/peripherals/src/wifi_scan.c:51-106 | true exactly when the driver succeeded with at least one access point; then the result holds the records of all of them and the size is `7n`; otherwise no size, and neither the result nor the packing buffer is touched; past the records the packing buffer is unchanged |
| WifiScan.Scanner.Pack | t1000_e/peripherals/src/wifi_scan.c:68-80 | the head of the module buffer is the records of all results, `7n` bytes |
| WifiScan.Scanner.PutRecord | t1000_e/peripherals/src/wifi_scan.c:73-79 | one record at the offset; the bytes before it are untouched |
| WifiScan.Scanner.CopyOut | t1000_e/peripherals/src/wifi_scan.c:91 | the first `n` bytes of the result are those of the module buffer |
| HalUart.NmeaAccumulator.constructor | smtc_hal/src/smtc_hal_uart.c:189-226 | an empty, zeroed line buffer with no line counted |
| HalUart.NmeaAccumulator.OnByte | smtc_hal/src/smtc_hal_uart.c:193-212 | the byte is stored at the length; the length resets at 256 bytes or without a leading '$'; the second counted line feed hands the whole '$'-led buffer to the parser and clears it; the length stays below 256 |
| HalUart.Port.Init | smtc_hal/src/smtc_hal_uart.c:52-80 | an initialised port is left alone; otherwise up to eleven attempts, stopping at the first success, and the port is initialised exactly when one of them succeeded |
| HalUart.Port.Deinit | smtc_hal/src/smtc_hal_uart.c:82-89 | the port is no longer initialised |
| HalUart.Port.Tx | smtc_hal/src/smtc_hal_uart.c:91-100 | the bytes go out, in order, exactly when the port is initialised |
| HalMcu.Memcpyr | smtc_hal/src/smtc_hal_mcu.c:198-205 | the destination range holds the first `size` source bytes reversed; no other byte changes |
| HalMcu.MemcpyrGivesBigEndian | smtc_hal/src/smtc_hal_mcu.c:198-205 | reversing the little-endian image of a value gives its big-endian image, reduced to `n` bytes |
| HalMcu.Strtol2 | smtc_hal/src/smtc_hal_mcu.c:182-184 | two hexadecimal digits give their value; a first character that cannot start a number gives 0 |
| HalMcu.HexToBinAsWritten | smtc_hal/src/smtc_hal_mcu.c:175-187 | one byte per character pair, and the bound is tested after the store, so up to `len + 1` bytes; nothing else changes |
| HalMcu.HexToBin | smtc_hal/src/smtc_hal_mcu.c:175-187 | one byte per character pair, at most `len`; nothing else changes |
| HalMcu.HexToBinOverrun | smtc_hal/src/smtc_hal_mcu.c:180-186 | for a text longer than `2 * len`, the code as written stores `len + 1` bytes where the bounded decoder stores `len` |
| HalMcu.HexTextRoundTrip | smtc_hal/src/smtc_hal_mcu.c:180-185 | decoding the hexadecimal text of a byte string pair by pair gives the bytes back |
| HalMcu.HexToBinDecodesHexText | smtc_hal/src/smtc_hal_mcu.c:175-187 | the bounded decoder stores exactly `|b|` bytes of a text of `2 * |b|` characters |
| HalMcu.ChunksSplitRequest | smtc_hal/src/smtc_hal_mcu.c:116-133 | the sleep chunks add up to the request, each lies in `1..maxChunk`, and all but the last are full |
| HalMcu.SleptAppend | smtc_hal/src/smtc_hal_mcu.c:135-160 | one more chunk adds itself to the sleeps exactly when longer than 50 ms, and consumes a pending break then |
| HalMcu.Mcu.SleepExit | smtc_hal/src/smtc_hal_mcu.c:207-210 | the break flag is raised; nothing else changes |
| HalMcu.Mcu.SetSleepForMs | smtc_hal/src/smtc_hal_mcu.c:109-173 | nothing for a request of zero or less; otherwise every chunk over 50 ms is slept, except that with USB present a pending break is consumed by the first such chunk and ends the call |
| Nmea.AppNmeaCheckSum | t1000_e/peripherals/src/ag3335.c:39-51 | the XOR of the octets from index 1 up to the length kept in a `uint8_t` (the first octet alone when that length is under 2) |
| Nmea.AppNmeaCheckSumIsChecksum | t1000_e/peripherals/src/ag3335.c:39-51 | for "$" + body shorter than 256 octets, the result is the NMEA checksum of the body |
| Nmea.BodyEnd | t1000_e/tracker/src/vessel_assistance.c:278 | the first '*' or NUL at or after the start, else the end; nothing before it is either |
| Nmea.CalculateNmeaChecksum | t1000_e/tracker/src/vessel_assistance.c:273-283 | the NMEA checksum of the octets after the first, up to the first '*' or NUL |
| Nmea.ChecksumsAgree | t1000_e/tracker/src/vessel_assistance.c:273-283 | both checksum routines give the NMEA checksum of the body of "$" + body + "*..." |
| Nmea.NotPair | t1000_e/peripherals/src/ag3335.c:236-243 | no "$PAIR" reply reaches the sentence parser |
| Nmea.CutStep | t1000_e/peripherals/src/ag3335.c:230-246 | a CR after index 0 closes the next segment, from `begin` to the CR, and resets `begin` |
| Nmea.SkipStep | t1000_e/peripherals/src/ag3335.c:227-231 | any other octet moves `begin` to a '$' or leaves it |
| Nmea.SentenceSplitter.CopyLine | t1000_e/peripherals/src/ag3335.c:234-235 | the line buffer holds the segment followed by zeros |
| Nmea.SentenceSplitter.Parse | t1000_e/peripherals/src/ag3335.c:223-248 | the sentences handed on are the segments of the first `strlen` octets (kept in a `uint16_t`), in order, without the "$PAIR" replies |
| Nmea.SplitStream | t1000_e/peripherals/src/ag3335.c:223-248 | after any prefix, a stream of well-formed sentences splits into exactly those sentences, '$' included, without their line ends |
| Nmea.SplitWholeStream | t1000_e/peripherals/src/ag3335.c:223-248 | a received stream of well-formed sentences splits into exactly those sentences |
| Nmea.StaleBeginAfterCut | t1000_e/peripherals/src/ag3335.c:244-245 | because `begin` is reset to 0, a second CR after a sentence cuts again from index 0: "$A\r\r" yields "$A" and then "$A\r" |
| Nmea.FormatCommand | t1000_e/peripherals/src/ag3335.c:273-274 | "$" + body + "*" + the two upper-case hexadecimal digits of the checksum + CR LF |
| Nmea.SendRepeated | t1000_e/peripherals/src/ag3335.c:275-279 | the command goes out `times` times on an initialised port, nothing otherwise |
| Nmea.SleepLock | t1000_e/peripherals/src/ag3335.c:270-292 | "$PAIR382,1*HH\r\n" is sent 25 times to lock, "$PAIR382,0*HH\r\n" 4 times to unlock |
| Nmea.CommandChecksOut | t1000_e/tracker/src/vessel_assistance.c:273-283 | the checksum in every formatted command is the checksum of the body it follows, as the assistance module computes it |
| AtCommand.Description | t1000_e/tracker/src/app_at_command.c:528 | the reply for a status is its own table entry below `AT_MAX` and "error unknown" for every code at or above it |
| AtCommand.FirstMatch | t1000_e/tracker/src/app_at_command.c:478-482 | the entry chosen is the first one whose name begins the rest of the line; no earlier entry matches |
| AtCommand.ParseCmd | t1000_e/tracker/src/app_at_command.c:436-529 | the routing, the final status and the reply printed for a line agree with the dispatch rule: "AT" prefix, help on "AT?", CR LF ending, first matching entry, run/get/set/help on the character after the name |
| AtCommand.Route | t1000_e/tracker/src/app_at_command.c:487-522 | the character after the name selects run (CR LF), get ("=?\r\n"), set (any other "="), help ("?") or nothing |
| AtCommand.NotAtIsError | t1000_e/tracker/src/app_at_command.c:442-447 | a line not starting with "AT" answers `AT_ERROR` and reaches no handler |
| AtCommand.HelpIsOk | t1000_e/tracker/src/app_at_command.c:453-466 | a line starting "AT?" prints the help and answers OK |
| AtCommand.MissingCrLfIsParamError | t1000_e/tracker/src/app_at_command.c:470-473 | past "AT", a line not ending in CR LF answers `AT_PARAM_ERROR` whatever its command |
| AtCommand.FirstEntryWins | t1000_e/tracker/src/app_at_command.c:476-482 | a handler is reached only for the first entry whose name begins the line; with none the status stays `AT_ERROR` |
| AtCommand.SaveFailedOnlyAfterSet | t1000_e/tracker/src/app_at_command.c:503-510 | `AT_SAVE_FAILED` appears only after a set that returned OK and a save that failed, or when the handler itself returned it |
| AtCommand.RunLineRuns | t1000_e/tracker/src/app_at_command.c:489-494 | "AT<name>\r\n" runs the entry of that name |
| AtCommand.GetLineGets | t1000_e/tracker/src/app_at_command.c:495-500 | "AT<name>=?\r\n" calls the get handler of that entry |
| AtCommand.SetLineSets | t1000_e/tracker/src/app_at_command.c:501-511 | "AT<name>=<value>\r\n" hands "<value>\r\n" to the set handler of that entry |
| AtCommand.LineRoutes | t1000_e/tracker/src/app_at_command.c:476-484 | a line "AT" + name + tail ending in CR LF selects the entry of that name when no earlier entry's name begins it |
| AtParams.IsHex | t1000_e/tracker/src/app_at.c:192-204 | a character passes exactly when it is a hexadecimal digit as the HAL decoder reads them, so no colon, line ending or terminator passes |
| AtParams.IsNum | t1000_e/tracker/src/app_at.c:206-216 | a character passes exactly when it is a hexadecimal digit below the letters, i.e. a decimal digit |
| AtParams.Nibble | t1000_e/tracker/src/app_at.c:84-94 | a hexadecimal digit of either case has its value, every other character -1; agrees with the digit value used by `hal_hex_to_bin` |
| AtParams.DataAnalysis | t1000_e/tracker/src/app_at.c:107-129 | succeeds exactly when all `2n` digits of the colon list are hexadecimal, and then fills the buffer with the bytes they spell |
| AtParams.AnalysedColonHex | t1000_e/tracker/src/app_at.c:107-129 | the colon list the getters print reads back as the bytes it was printed from (print then parse round trip) |
| AtParams.SeparatorsIgnored | t1000_e/tracker/src/app_at.c:126 | the third character of every group is never read: two arguments differing only there are read alike |
| AtParams.ByteParamAcceptsColonHex | t1000_e/tracker/src/app_at.c:252-265 | "HH:..:HH\r\n" of the field's width is accepted and stores exactly those bytes |
| AtParams.StringToData | t1000_e/tracker/src/app_at.c:165-190 | succeeds exactly when every character pair is two hexadecimal digits, and then writes the bytes they spell |
| AtParams.PackedHexOfHexText | t1000_e/tracker/src/app_at.c:165-190 | the upper-case hexadecimal text of a byte string reads back as that string |
| AtParams.HexTextPair | t1000_e/tracker/src/app_at.c:165-190 | pair `k` of the hexadecimal text of `b` spells `b[k]` whatever follows the text |
| AtParams.U64ToBytes | t1000_e/tracker/src/app_at.c:96-105 | the eight bytes written are the big-endian image of the value and nothing after them changes |
| AtParams.U64Image | t1000_e/tracker/src/app_at.c:96-105 | the eight shifted-and-truncated bytes are exactly the big-endian image of a 64-bit value |
| AtParams.ComposeDevAddr | t1000_e/tracker/src/app_at.c:362 | the address composed with shifts is the big-endian value of the four bytes, below 2^32 |
| AtParams.DevAddrRoundTrip | t1000_e/tracker/src/app_at.c:131-138 | an address printed most significant byte first, as the getter does, is read back by the setter as the same address |
| AtParams.SetOutcome | t1000_e/tracker/src/app_at.c:418-1276 | a numeric setter answers OK exactly when the value was scanned and passes the validator; on error nothing changes; only the addressed setting changes |
| AtParams.SetKeepsRanges | t1000_e/tracker/src/app_at.c:418-1276 | every setting stays within the range its setter enforces, `DR_MIN <= DR_MAX` included |
| AtParams.FlagIffChanged | t1000_e/tracker/src/app_at.c:428-432 | apart from `AT+TYPE`, the change flag is raised exactly when the stored value changes |
| AtParams.SetTwiceIsOnce | t1000_e/tracker/src/app_at.c:418-1276 | apart from `AT+TYPE`, repeating an accepted set answers OK and changes nothing (idempotence) |
| AtParams.ActivationZeroAlwaysFlags | t1000_e/tracker/src/app_at.c:454-458 | `AT+TYPE=0` stores ABP but compares the stored value with 0, so it raises the change flag on every repetition |
| AtParams.RegionChangeKeepsDataRates | t1000_e/tracker/src/app_at.c:418-434 | a region change does not re-check the data-rate bounds: EU868 with 0..5 then `AT+BAND=8` leaves a minimum outside the US915 window |
| AtParams.UuidParam | t1000_e/tracker/src/app_at.c:1199-1214 | the filter is read only for an even digit count of at most 32 after the 8-bit wrap of `strlen - 2`, with all digits hexadecimal, and is then at most 16 bytes |
| AtParams.UuidParamOfHexText | t1000_e/tracker/src/app_at.c:1184-1227 | the text the getter prints, with its CR LF, sets the filter back to the same bytes |
| AtParams.UuidLengthWraps | t1000_e/tracker/src/app_at.c:1203-1204 | any 258-character argument wraps to length 0 and is accepted as an empty filter |
| AtParams.UuidShortRefused | t1000_e/tracker/src/app_at.c:1203-1207 | an argument shorter than two characters is refused |
| AtParams.AppParam.SetBytes | t1000_e/tracker/src/app_at.c:252-392 | a byte-field setter answers OK exactly when the argument is a full colon list of the field's width; the field becomes those bytes and the flag is raised only if they differ |
| AtParams.AppParam.SetDevAddr | t1000_e/tracker/src/app_at.c:356-370 | `AT+DADDR` stores the big-endian value of the four bytes and raises the flag only on a change; a bad argument changes nothing |
| AtParams.AppParam.SetNumber | t1000_e/tracker/src/app_at.c:418-1276 | the new settings, status and flag are those of `SetOutcome` on the old settings; the other fields are untouched |
| AtParams.AppParam.Check | t1000_e/tracker/src/app_at.c:418-1276 | a value that a setter's validation branch lets through, once stored, leaves every setting in range (the data-rate minimum not above the maximum included); the branch is the acceptance rule of the setter |
| AtParams.AppParam.SetBeaconUuid | t1000_e/tracker/src/app_at.c:1199-1224 | OK exactly when the filter text is valid; then the first bytes of the UUID become the filter, the rest keep their old value, the count is set and the flag raised |
| AtParams.AppParam.StoreUuid | t1000_e/tracker/src/app_at.c:1215-1220 | the store loop writes pair `k` into UUID byte `k` and leaves the bytes after the last pair unchanged |
| AtParams.AllHex | t1000_e/tracker/src/app_at.c:1208-1214 | the digit check passes exactly when every one of the first `n` characters is hexadecimal |
| ModemConfig.IsAllZero | apps/common/apps_modem_common_ex.c:57-67 | true exactly when every byte is zero |
| ModemConfig.RegionOf | apps/common/apps_modem_common_ex.c:83-148 | the modem region of a stored region number is always one of the listed plans |
| ModemConfig.RegionDefault | apps/common/apps_modem_common_ex.c:83-148 | EU868 is chosen exactly for its own number and for every number the switch does not list |
| ModemConfig.As923Agrees | apps/common/apps_modem_common_ex.c:83-148 | the numbers mapped to an AS923 plan are exactly those the data-rate validators treat as AS923 |
| ModemConfig.SubBandRegionsAgree | apps/common/apps_modem_common_ex.c:257 | a sub-band applies exactly to US915 and AU915, the regions where a channel group is accepted |
| ModemConfig.SubBand | apps/common/apps_modem_common_ex.c:150 | the channel group plus one |
| ModemConfig.ActivationOf | apps/common/apps_modem_common_ex.c:152-164 | ABP exactly for type 1; 2 and every other value give OTAA |
| ModemConfig.AtActivationAgrees | apps/common/apps_modem_common_ex.c:152-164 | the activation the AT setter stores is the mode the modem is set to |
| ModemConfig.Fallback | apps/common/apps_modem_common_ex.c:173-187 | a credential that is not all zero is kept, and the length never changes |
| ModemConfig.FallbackOfHexText | apps/common/apps_modem_common_ex.c:176-187 | an all-zero credential with a default spelt as the hexadecimal text of `d` becomes exactly `d` |
| ModemConfig.Configure | apps/common/apps_modem_common_ex.c:69-298 | the modem calls are those of the plan, and the modem is marked joined exactly under ABP |
| ModemConfig.Credential | apps/common/apps_modem_common_ex.c:173-187 | the local copy with the fallback applied |
| ModemConfig.OtaaSetsNoSessionKeys | apps/common/apps_modem_common_ex.c:173-225 | under OTAA no session credential reaches the modem, and the AppKey is the network key |
| ModemConfig.AbpSetsNoJoinKeys | apps/common/apps_modem_common_ex.c:226-244 | under ABP no join credential reaches the modem, and the stored address and session keys go first, unchanged |
| ModemConfig.SubBandOnlyForUsAu | apps/common/apps_modem_common_ex.c:257-264 | a sub-band is set exactly for stored US915 and AU915, and it is the channel group plus one |
| ModemConfig.RegionThenMode | apps/common/apps_modem_common_ex.c:269-289 | the region and then the activation mode are set last |
| ModemConfig.StoredCredentialsKept | apps/common/apps_modem_common_ex.c:173-195 | stored OTAA credentials that are not all zero reach the modem unchanged |

## Left out

- The LoRa Basics Modem API (join, uplink requests, alarms, time sync, the duty-cycle and payload queries) is not modelled as code. Its answers are inputs of each `Tracker.Tick` (duty cycle, maximum payload, joined). Its effects are recorded in the `uplinks` and `radio` logs and in the `alarm` field, where the last write wins.
- `on_modem_alarm` (main_lorawan_tracker.c:608-624): its modem-status print and its four-hourly DeviceTimeReq branch (lines 614-621) are not modelled. Its final call to `app_tracker_scan_process` is `Tracker.App.Process`. `on_modem_time_updated` reads and prints the modem time, and stamps `last_time_sync_s` for that resync branch. It is not modelled.
- `Tracker.ShortenedPlanStalls` records the stall as the code behaves. The model has no corrected scan process that resets the status when the scan type changes.
- Floating point is not modelled: `minmea_tocoord`, `gnss_get_fix_status` and the latitude/longitude conversions of `vessel_assistance.c`. Coordinates are integers in units of 1e-7 degree. The own fix, which arrives in 1e-6 degree, is multiplied by 10 on storage.
- Charger GPIO, sensor reads, the accelerometer and the RTC are not modelled as hardware. Their readings are parameters: `charging`, the `Sensors` record and `now`.
- The Nordic SoftDevice (advertising, GATT, NUS, the disconnect retry loop), USB CDC, flash storage through FDS, LEDs, the buzzer, buttons and the busy-wait delays are not part of this model. Neither is the GPIO power sequencing of the GNSS receiver; the waits between repeated UART command sends are dropped.
- Interrupts and concurrency are not modelled: each handler is one atomic method call.
- `sscanf` and `isNums` are replaced by the scanned value, which the setters take as an `Option<int>`. `AtParams.Scanned` fixes its width (`%hu` for `POS_INT`, `%hhu` for the others). `isNums` would in any case read an uninitialised loop index (app_at.c:220).
- `AT_TESTMODE_TYPE_set` is not modelled, because it writes a `%lu` conversion into a `uint8_t`, which is undefined behaviour. The AT getters are not modelled either, because they only print.
- The tx-power offset and the reboot check that compares the stored region with the modem's are not modelled. Both call into the modem.
- `AtParams.ComposeDevAddr` computes the unsigned big-endian value. The source shifts a byte promoted to `int` left by 24, which is undefined behaviour for bytes of 0x80 and above.
- The headers that define `TRACKER_SCAN_*`, `DATA_ID_*`, `RETRY_STATE_*`, `TRACKER_STATE_BIT8_USER`, `LORWAN_SEND_INTERVAL_MIN`, `LORAWAN_APP_DATA_MAX_SIZE` and `LoRaMacRegion_t` are not part of this model.
  - The values in `Tracker`, `LoraPacket` and `Regions` are placeholders, chosen distinct.
  - The LoRaMac numbering is the one that the region switch of `apps_modem_common_ex.c` implies, with `LORAMAC_REGION_MAX` taken as 19 and `AT_MAX` as 13.
- `vessel_assistance.c` has several defects, and the model keeps one definition of each affected function:
  - It defines `is_charging`, `needs_almanac_maintenance` and `get_almanac_scan_duration` twice (lines 188-212 and 302-326).
  - Both copies read an undeclared `g_position_cache`.
  - `get_recommended_scan_duration` switches on `ASSISTANCE_QUALITY_*` names that the header does not declare.

  The model keeps one definition over the static cache, and the quality tiers of the header's enum.
- `VesselAssistance.Assistance.HandleDownlink` takes the Unix time as a parameter, because the source reads `msg->unix_time` from a 9-byte record that has no such field.
- `VesselAssistance.Assistance.HandleDownlink` records the RTC setting only as its `rtcSet` output. `hal_rtc_set_time_s` is not part of this model, so the model does not decide whether setting the RTC moves the clock that `rtc_at_receipt` was read from. `VesselAssistance.AgeSpansRtcSet` states what follows if it does.
- `Tracker.TickOk` assumes that each scan driver returns at most five records (35 bytes).
  - For BLE, this follows from `BleScan.Scanner.GetResults`, whose size is at most 7 × 5.
  - For Wi-Fi, the bound is `WIFI_MAX_RESULTS`, which no file of this model defines, so `WIFI_MAX_RESULTS` ≤ 5 is assumed. The bound that `AdvanceOk` proves on the buffer lengths, and the preconditions of the `*ScanEnd` and `PutFrame` methods, depend on it.
- `BleScan.Beacon`: the header that declares `BleBeacons_t` is not part of this model. Its `rssi_` field is taken as a signed `int8_t`, and the record byte is that value modulo 256.
- `vessel_assistance_is_gnss_ready`, `send_time_to_gnss`, `send_warm_start` and `vessel_assistance_send_test_position` are declared but not defined in the source, so they are not modelled. `VesselAssistance.WarmStartReady` states only the readiness rule that the header documents.
- `vessel_assistance_apply_to_gnss` is not modelled, because it prints floating-point coordinates into a `$PAIR062` command. The framing that `send_ag3335_command` adds to that command, and its three sends, are the same as `Nmea.FormatCommand` and `Nmea.SendRepeated` with three repetitions.
- `Tracker.App.Process` models line 1046 as written: `scan_result` is cleared before the policy switch, so every `scan_result == false` guard of that tick holds.
- `BleScan.Scanner.ScanStart` promises success only for the peripheral copy. The `app_ble_all.c` copy falls off the end of a `bool` function, so its answer is unconstrained.
- The peripheral and application copies of the BLE scanner define the same globals and functions, so only one of them can be linked into a firmware image. The model keeps them apart through `BleScan.Variant`.
- `Nmea.SentenceSplitter.Parse` requires every emitted segment to be shorter than the 128-byte `gps_nmea_line`, because the source copies a segment without a bound.
- `AtCommand.ParseCmd` requires every table name to be non-empty and not to begin with `?`, as every entry of the firmware's table does.
- `HalMcu.CharAt` reads the terminator and everything after it as NUL. This stands in for reads past the end of a C string.
- `ModemConfig.Configure` decodes the default credentials with the corrected `HalMcu.HexToBin` (see Findings).
- `HalUart.Port.Init` takes the driver's answers to the eleven attempts as a parameter. The hardware initialisation itself is not modelled.

## Findings

| source | as written | input that shows it | evidently intended | confidence | as-written member | corrected member |
|---|---|---|---|---|---|---|
| smtc_hal/src/smtc_hal_mcu.c:180-186 | the bound test `i >= 2 * len` runs after the byte has been stored to `dst[i / 2]` | an 18-character hexadecimal text with `len` = 8 writes `dst[8]`, one byte past the buffer | at most `len` bytes are written | not executed | HalMcu.HexToBinOverrun | HalMcu.HexToBin |
