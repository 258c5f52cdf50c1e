# zappy-framework in Dafny

A model of the core of the zappy framework. The framework runs battery-powered LoRa sensor nodes that wake on a clock alarm, report their sensors over the radio and go back to deep sleep. The model covers:

- **The packet buffer** (module `Packets`). It is a fixed 256-byte frame. Bytes 0..9 are a header of five big-endian 16-bit fields: DeviceID at 0, NetworkID at 2, Version at 4, Alerts at 6 and Type at 8. A payload follows, written through a cursor. The class `Packets.Packet` keeps the buffer as an `array<byte>` and the cursor `ptr` and the logical length `len` as fields. Each method is proved against a pure function on the packet's value `PacketState`:
  - the setters against `SetField`
  - `WriteUint16` against `Write`
  - `AsBytes` against `UsedBytes`
- **The sensor kinds** (module `Sensors`). This is the enumeration 0..6, the list of all kinds and the metadata table with the integer ratios Mult/Div.
- **The sensor report** (module `SensorReports`). It is a typed view over a shared packet whose payload is a sequence of (kind, value) pairs. The class `SensorReports.SensorReport` has:
  - the `Add*` methods, proved against `Add`
  - the three linear scans, proved against the decoder `Readings` and the lookups `HasKind`, `FirstValue` and `ReadingsMap`
- **The board, clock, radio and application** (module `Capabilities`). These are interfaces in the framework. Here they are one scripted stand-in, `Capabilities.Environment`:
  - every query returns an answer from a fixed script
  - every call is appended to a trace
  - the main loop consumes one scripted `Cycle` per iteration
- **The alarm bootstrap `initTime`** (module `Time`). The method `Time.InitTime` is proved against `Time.InitTimeSpec`.
- **The start-up sequence and main loop of `Run`** (module `Lifecycle`). They are stated as functions of the script: `StartSpec`, `LoopSpec` and `RunSpec`, each giving the outcome, the call trace and the unused cycles.
- **The framework object** (module `Framework`). The class `Framework.Framework` holds:
  - `Run`, proved against `RunSpec`
  - `CurrentAlerts`, proved against `AlertsFor`
  - `Send`, proved against `SendSpec`. Header stamping is `Stamp`.

Each `panic` of `Run` is a `Fatal(stage)` outcome. The infinite loop runs one iteration per scripted cycle. A run whose script runs out ends `Suspended`.

## Model

| member | source | states |
|---|---|---|
| Packets.AlertBits | protocol/packet.go:29-33 | AlertNone is 0, AlertBattLow is 2 and AlertBattCritical is 4; the two flags share no bit |
| Packets.PutU16 | protocol/packet.go:43-61 | a big-endian store puts the high byte at `off` and the low byte at `off+1`, keeps the length and changes no other byte |
| Packets.GetU16 | protocol/sensorreport.go:127-128 | a big-endian read: the value's high byte is `s[off]` and its low byte `s[off+1]` |
| Packets.GetPutU16 | protocol/packet.go:43-61 | a 16-bit field reads back as the value written |
| Packets.GetPutU16Other | protocol/packet.go:43-61 | a 16-bit store leaves every disjoint 16-bit slot reading as before |
| Packets.PutU16Commute | protocol/packet.go:43-61 | stores into disjoint byte pairs commute |
| Packets.HeaderFieldsDisjoint | protocol/packet.go:43-61 | the five header offsets 0/2/4/6/8 lie inside the 10-byte header and do not overlap pairwise |
| Packets.SetField | protocol/packet.go:43-61 | a header setter makes its field read back as the value, changes no other byte and leaves `ptr` and `len` alone |
| Packets.SetFieldKeepsOtherFields | protocol/packet.go:43-61 | setting one header field never changes the value read from another |
| Packets.Write | protocol/packet.go:63-70 | a payload write clamps the cursor up to HeaderLen, stores the value there, advances the cursor by exactly 2, sets the length to it and keeps every other byte |
| Packets.WriteKeepsHeader | protocol/packet.go:63-66 | payload writes never change bytes 0..9 |
| Packets.SetFieldCommutesWithWrite | protocol/packet.go:43-70 | a header setter before or after a payload write gives the same packet |
| Packets.SetFieldsCommute | protocol/packet.go:43-61 | two different header setters commute |
| Packets.Encode | protocol/packet.go:68 | each value is encoded as two bytes |
| Packets.UsedBytes | protocol/packet.go:72-74 | the used prefix has length `ptr` and equals the frame up to `len` when `ptr == len` |
| Packets.WriteAll | protocol/packet.go:63-70 | the reference for a sequence of WriteUint16 calls, one payload write per value in order |
| Packets.WriteAllAppends | protocol/packet.go:63-74 | once past the header with `len == ptr`, n writes append exactly the big-endian encoding of the values to the used bytes and keep `len == ptr` |
| Packets.WriteAllFromZeroed | protocol/packet.go:63-74 | from a zero packet, n > 0 writes give used bytes of length 10 + 2n: ten zero bytes, then the values in order |
| Packets.Packet.PutField | protocol/packet.go:43-61 | in-place header store: the new state is `SetField` of the old |
| Packets.Packet.SetDeviceID | protocol/packet.go:43-45 | writes the device id at offset 0: the new state is `SetField(old, 0, device)` |
| Packets.Packet.SetNetworkID | protocol/packet.go:47-49 | writes the network id at offset 2 |
| Packets.Packet.SetVersion | protocol/packet.go:51-53 | writes the version at offset 4 |
| Packets.Packet.SetAlerts | protocol/packet.go:55-57 | writes the alert word at offset 6 |
| Packets.Packet.SetType | protocol/packet.go:59-61 | writes the packet type at offset 8 |
| Packets.Packet.WriteUint16 | protocol/packet.go:63-70 | the new state is `Write(old, v)`; the slot must fit in the 256-byte buffer |
| Packets.Packet.ReadUint16 | protocol/sensorreport.go:127-128 | returns the big-endian value at the cursor, advances it by 2 and keeps `len` and the bytes |
| Packets.Packet.Skip | protocol/sensorreport.go:145 | advances the cursor by n and keeps `len` and the bytes |
| Packets.Packet.Remaining | protocol/sensorreport.go:126 | the bytes left to scan: the logical length minus the cursor, negative once past it |
| Packets.Packet.UpdateCRC | protocol/packet.go:25 | a version-1 packet (version < 2) is left unchanged |
| Packets.Packet.AsBytes | protocol/packet.go:72-74 | returns exactly `data[0:ptr]` without changing the packet, which is the frame up to `len` when `ptr == len` |
| Sensors.AllSensorTypesEnumerated | protocol/sensors.go:5-23 | the list has seven kinds, the i-th is i, and none repeats |
| Sensors.MetadataCoversAllTypes | protocol/sensors.go:38-46 | the metadata table has an entry for exactly the listed kinds |
| Sensors.MetadataRatiosPositive | protocol/sensors.go:31-45 | every entry has Mult ≥ 1 and Div ≥ 1 |
| Sensors.ToSI | protocol/sensors.go:25-30 | the SI value times Div equals the raw value times Mult |
| Sensors.ConversionExamples | protocol/sensors.go:39-45 | 3700 battery millivolts is 3.7 V, a pressure value r is 10·r Pa, and a coil count converts unchanged |
| SensorReports.Narrow | protocol/sensorreport.go:127 | the conversion of a 16-bit kind to a `SensorType` keeps the low byte: kinds below 256 are unchanged, others lose their multiple of 256 |
| SensorReports.PairCount | protocol/sensorreport.go:126 | the number of complete pairs after the header: 4n bytes fit, 4n+4 do not |
| SensorReports.Readings | protocol/sensorreport.go:126-128 | the decoded pairs: one per complete 4-byte slot from HeaderLen, in order |
| SensorReports.ScanCursor | protocol/sensorreport.go:126-128 | with the cursor at pair k, at least 4 bytes remain iff pair k is complete, and the two reads then return that pair |
| SensorReports.HasKind | protocol/sensorreport.go:136-149 | the reference for a has-test: some decoded pair has narrowed kind t |
| SensorReports.FirstIndexOf | protocol/sensorreport.go:152-160 | the first pair of kind t: no earlier pair has it, it exists iff some pair has kind t, else the result is the length |
| SensorReports.LastIndexOf | protocol/sensorreport.go:122-134 | the last pair of kind t: no later pair has it, it exists iff some pair has kind t, else the result is -1 |
| SensorReports.FirstValue | protocol/sensorreport.go:152-163 | the value of the first pair of kind t, or the default when no pair has kind t |
| SensorReports.ReadingsMap | protocol/sensorreport.go:122-134 | the reference for the full scan: the pairs in order, each overwriting the entry of its narrowed kind |
| SensorReports.ReadingsMapLast | protocol/sensorreport.go:122-134 | the full scan's map has a key for exactly the kinds present, each mapped to the value of its last occurrence |
| SensorReports.MapOfLongerPrefix | protocol/sensorreport.go:130 | scanning one more pair overwrites that pair's key with its value |
| SensorReports.FirstAndLastOccurrenceDiffer | protocol/sensorreport.go:122-163 | on a payload with kind 0 twice, the lookup returns the first value and the map holds the second |
| SensorReports.LookupSeesOnlyLowByte | protocol/sensorreport.go:139-140 | payloads whose kinds agree in their low byte answer every has-test and lookup alike |
| SensorReports.ScanSeesOnlyLowByte | protocol/sensorreport.go:127-130 | payloads whose kinds agree in their low byte give the same map |
| SensorReports.TrailingPartialPairIgnored | protocol/sensorreport.go:126 | up to 3 trailing bytes after whole pairs change nothing in the decoded pairs |
| SensorReports.EmptyPayload | protocol/sensorreport.go:36-42 | with no complete pair nothing is found, every lookup gives its default (0 for the getters) and the map is empty |
| SensorReports.Add | protocol/sensorreport.go:31-34 | one pair append keeps the bytes before the write position, stores kind then value, and leaves `ptr == len` four bytes further on |
| SensorReports.AddAppends | protocol/sensorreport.go:31-34 | on an aligned packet, one Add appends exactly one decoded pair and keeps the header and the earlier pairs |
| SensorReports.AddAll | protocol/sensorreport.go:31-112 | a sequence of Add calls keeps the packet well formed |
| SensorReports.AddAllAppends | protocol/sensorreport.go:31-112 | a sequence of Adds appends exactly those pairs to the decoded pairs, in order |
| SensorReports.ReportRoundTrip | protocol/sensorreport.go:31-134 | the pairs added to a zero packet are exactly the pairs decoded |
| SensorReports.DistinctKindsLookup | protocol/sensorreport.go:122-163 | with distinct kinds, the first and the last occurrence of a pair's kind is that pair |
| SensorReports.DistinctKindsDecode | protocol/sensorreport.go:122-163 | with distinct kinds, the map's keys are exactly the kinds, each maps to its value, and each lookup returns its value |
| SensorReports.DistinctKindsRoundTrip | protocol/sensorreport.go:31-163 | with distinct kinds on a zero packet, AllReadings returns exactly the added kind→value pairs and every getter returns its added value |
| SensorReports.HasScanEnd | protocol/sensorreport.go:136-149 | where a has-test leaves the cursor: just after the kind of the first match, else after the last complete pair |
| SensorReports.GetScanEnd | protocol/sensorreport.go:152-163 | where a lookup leaves the cursor: just after the first matching pair, else after the last complete pair |
| SensorReports.HasScanEndInsideFrame | protocol/sensorreport.go:136-149 | a has-test that finds its kind leaves the cursor at least one value short of the end of the frame |
| SensorReports.SensorReport.AttachPacket | protocol/sensorreport.go:23-25 | the report now views the given packet |
| SensorReports.SensorReport.Packet | protocol/sensorreport.go:27-29 | returns the attached packet |
| SensorReports.SensorReport.AddReading | protocol/sensorreport.go:31-34 | two in-place writes: the new packet state is `Add(old, kind, v)` |
| SensorReports.SensorReport.AddBatteryVoltage | protocol/sensorreport.go:31-34 | appends the pair (0, millivolts) |
| SensorReports.SensorReport.AddTemperature | protocol/sensorreport.go:44-47 | appends the pair (1, centi-degrees) |
| SensorReports.SensorReport.AddHumidity | protocol/sensorreport.go:57-60 | appends the pair (3, centi-percent) |
| SensorReports.SensorReport.AddPressure | protocol/sensorreport.go:70-73 | appends the pair (2, deka-pascals) |
| SensorReports.SensorReport.AddSupplyVoltage | protocol/sensorreport.go:83-86 | appends the pair (4, millivolts) |
| SensorReports.SensorReport.AddLoadPower | protocol/sensorreport.go:96-99 | appends the pair (5, value) |
| SensorReports.SensorReport.AddCoils | protocol/sensorreport.go:109-112 | appends the pair (6, coils) |
| SensorReports.SensorReport.AllReadings | protocol/sensorreport.go:122-134 | returns the map of the frame's decoded pairs, keeps the bytes and `len`, and leaves the cursor after the last complete pair, whatever the cursor was before |
| SensorReports.SensorReport.HasReadingType | protocol/sensorreport.go:136-149 | true iff some complete pair has narrowed kind t; the bytes and `len` are unchanged and the cursor stops after the matching kind or the last pair |
| SensorReports.SensorReport.GetReadingUint16 | protocol/sensorreport.go:152-163 | the value of the first complete pair of kind t, else `def`; the bytes and `len` are unchanged and the cursor stops after that pair or the last one |
| SensorReports.SensorReport.HasBatteryVoltage | protocol/sensorreport.go:36-38 | whether a kind-0 pair is present |
| SensorReports.SensorReport.BatteryVoltage | protocol/sensorreport.go:40-42 | the first kind-0 value, or 0 |
| SensorReports.SensorReport.HasTemperature | protocol/sensorreport.go:49-51 | whether a kind-1 pair is present |
| SensorReports.SensorReport.Temperature | protocol/sensorreport.go:53-55 | the first kind-1 value, or 0 |
| SensorReports.SensorReport.HasHumidity | protocol/sensorreport.go:62-64 | whether a kind-3 pair is present |
| SensorReports.SensorReport.Humidity | protocol/sensorreport.go:66-68 | the first kind-3 value, or 0 |
| SensorReports.SensorReport.HasPressure | protocol/sensorreport.go:75-77 | whether a kind-2 pair is present |
| SensorReports.SensorReport.Pressure | protocol/sensorreport.go:79-81 | the first kind-2 value, or 0 |
| SensorReports.SensorReport.HasSupplyVoltage | protocol/sensorreport.go:88-90 | whether a kind-4 pair is present |
| SensorReports.SensorReport.SupplyVoltage | protocol/sensorreport.go:92-94 | the first kind-4 value, or 0 |
| SensorReports.SensorReport.HasLoadPower | protocol/sensorreport.go:101-103 | whether a kind-5 pair is present |
| SensorReports.SensorReport.LoadPower | protocol/sensorreport.go:105-107 | the first kind-5 value, or 0 |
| SensorReports.SensorReport.HasCoils | protocol/sensorreport.go:114-116 | whether a kind-6 pair is present |
| SensorReports.SensorReport.Coils | protocol/sensorreport.go:118-120 | the first kind-6 value, or 0 |
| SensorReports.ExampleDecodes | protocol/sensorreport.go:31-47 | a battery and a temperature pair added to a zero packet give an 18-byte frame that decodes to those two pairs |
| SensorReports.AddBytes | protocol/sensorreport.go:31-34 | one Add appends exactly the four big-endian bytes of kind and value after the bytes before its write position |
| SensorReports.ExampleBytes | protocol/sensorreport.go:31-47 | the example frame is ten zero header bytes followed by 0, 0, 14, 116 (kind 0, 3700) and 0, 1, 8, 102 (kind 1, 2150) |
| SensorReports.ExampleLookups | protocol/sensorreport.go:36-68 | on those two pairs the map holds both, the battery getter returns 3700 and no humidity is present |
| SensorReports.ExampleReport | protocol/sensorreport.go:31-134 | building that report in place and reading it back: the battery getter returns 3700, no humidity is present, the full scan maps both kinds to their values, and AsBytes returns exactly the 18 bytes of the example frame |
| Capabilities.WakeBits | board.go:53-57 | WakeUnknown is 0, WakeByRTCAlarm is 2 and WakeByUSB is 4, disjoint bits |
| Time.InitTimeProperties | time.go:3-25 | initTime succeeds iff setting the time and the alarm query succeed and an alarm was enabled or installing one succeeded; `SetPeriodicAlarm(2, RTCSecs)` is called (once) iff no alarm is enabled; each error is returned unchanged, and a time error stops before the alarm query |
| Time.InitTimeCalls | time.go:3-25 | initTime sets the time from the clock and makes no start-up or loop call of the board |
| Time.InitTimeSpec | time.go:3-25 | the reference for initTime: set the time, query the alarm, install the default alarm only when none is enabled, stopping at the first error |
| Time.InitTime | time.go:3-25 | the returned error and the calls made are those of `InitTimeSpec` |
| Lifecycle.CycleTraceCalls | framework.go:69-89 | an iteration starts with the alarm query and makes only loop calls |
| Lifecycle.CycleTraceCounts | framework.go:69-89 | an iteration queries and sleeps once each; it acknowledges and calls Triggered once iff the alarm fired, and calls USBPowered once iff the wake reason has the USB bit |
| Lifecycle.CycleTrace | framework.go:70-89 | the reference for one answered iteration: alarm query, acknowledge and Triggered when the alarm fired, deep sleep, USBPowered on a USB wake |
| Lifecycle.LoopSpec | framework.go:69-90 | the reference for the main loop over the scripted cycles: a failed alarm query is fatal, otherwise one iteration per cycle |
| Lifecycle.StartSpec | framework.go:34-67 | the reference for start-up: the five stages in order, halting at the first that fails |
| Lifecycle.RunSpec | framework.go:29-91 | the reference for Run: start-up, then the main loop when start-up is ready |
| Lifecycle.LoopCallsOnly | framework.go:69-90 | the loop makes only loop calls, makes one iff there is a cycle to run, and starts with the alarm query |
| Lifecycle.LoopSkipsStartUp | framework.go:69-90 | the loop repeats no start-up call |
| Lifecycle.InitFailureIsFatal | framework.go:34-67 | each stage's failure is fatal at exactly that stage when every earlier stage succeeded; a failed start-up leaves every cycle unused; otherwise the loop decides the outcome |
| Lifecycle.StartStagesInOrder | framework.go:34-67 | start-up enters each stage iff every earlier one succeeded, never queries the alarm status, and is ready for the loop iff every stage succeeded |
| Lifecycle.StagesReached | framework.go:34-70 | in a run, each stage is entered iff every earlier one succeeded, and the loop's alarm query is made iff start-up succeeded and a cycle is scripted, so App.Initialize is never reached after an earlier failure |
| Lifecycle.Completed | framework.go:70-74 | the cycles whose alarm query answered, up to the first failure |
| Lifecycle.LoopSleeps | framework.go:70-85 | the loop sleeps once per answered cycle; a failed alarm query is fatal and ends the loop, leaving the cycles after it unused; without one the whole script runs |
| Lifecycle.LoopTriggers | framework.go:76-83 | up to the first failed query, the loop acknowledges and calls Triggered exactly once per fired alarm |
| Lifecycle.LoopUsbWakes | framework.go:87-89 | up to the first failed query, USBPowered is called exactly once per wake with the USB bit |
| Lifecycle.CallbackErrorsIgnored | framework.go:76-89 | the results of AcknowledgeAlarm, Triggered and USBPowered change neither the calls nor the outcome |
| Lifecycle.TriggerErrorStillSleeps | framework.go:76-90 | a failing Triggered callback is still followed by deep sleep, the USB callback and the next iteration |
| Framework.AlertFlagsDistinct | framework.go:130 | the clock-failure flag is 8 and shares no bit with the battery flags |
| Framework.AlertsForBits | framework.go:116-134 | low battery is flagged iff below the low threshold, critical iff below the critical one (both may be set), clock failure iff the clock is missing, nil or unhealthy, and no other bit is set |
| Framework.AlertsFor | framework.go:116-134 | the reference for the alert word: the OR of the low, critical and clock-failure flags |
| Framework.AlertQueries | framework.go:119-129 | the calls the alert computation makes: battery, clock, and the health test only for an obtained clock |
| Framework.Stamp | framework.go:104-108 | stamping keeps the cursor and the length |
| Framework.StampHeader | framework.go:104-108 | after stamping, Version is 1, Type is t, NetworkID is 0, DeviceID is the device and Alerts the alert word, and every payload byte is unchanged |
| Framework.StampCommutesWithWrite | framework.go:104-108 | stamping before or after a payload write gives the same packet |
| Framework.ReadingsIgnoreHeader | framework.go:104-108 | frames that agree from byte 10 on decode to the same pairs |
| Framework.StampKeepsReadings | framework.go:104-108 | stamping leaves a report's decoded pairs unchanged |
| Framework.SendSpec | framework.go:94-114 | the packet after sending is well formed |
| Framework.SendShape | framework.go:94-134 | without a radio, Send returns the radio's error untouched, with no transmission; otherwise it stamps the header, queries battery then clock, and transmits the used bytes once, last, with timeout 1000, returning the result; IsHealthy is asked only of an obtained clock |
| Framework.SentReportCarriesReadings | framework.go:102-113 | a sent report's frame and transmitted bytes coincide and decode to the pairs that were added |
| Framework.LookupBeforeSendShortensFrame | framework.go:111 | after a has-test that found its kind, Send transmits the bytes up to the cursor, a proper prefix of the frame at least two bytes short |
| Framework.Framework.Run | framework.go:29-91 | the outcome, the calls made and the unused cycles are those of `RunSpec` |
| Framework.Framework.CurrentAlerts | framework.go:116-134 | the alert word is `AlertsFor` the queried battery level and clock, after these calls in order: BatteryVoltage, RTC, and IsHealthy only for an obtained clock |
| Framework.Framework.Send | framework.go:94-114 | the returned error, the calls made and the packet in place afterwards are those of `SendSpec` |

## Left out

- Packets.Packet.WriteUint16: the Go slice store panics when the cursor is past 254. The model requires the slot to fit and does not model that crash.
- SensorReports.SensorReport.AddReading: an `Add*` at cursor 253 or 254 writes the kind and then crashes on the value. The model requires both slots to fit, so this half-written packet is not modelled. Every report method also requires an attached packet; the crash on a nil packet is not modelled.
- Framework.Framework.Send: `Board.Radio()` returning no error and a nil radio makes `Tx` crash. The scripted radio answer is only an error or a radio, so that case is not modelled. A report without an attached packet is excluded by the precondition.
- Framework.Framework.Send: transmits `AsBytes()`, the bytes up to the cursor, as the code does. A has-test or lookup before `Send` moves the cursor back, so the report goes out cut short (stated by `Framework.LookupBeforeSendShortensFrame`). The model keeps this behaviour and does not propose a corrected send.
- Packets.Packet.UpdateCRC: the checksum of versions 2 and up is not part of this model. The contract only says that a version-1 packet is unchanged, which is the only version the framework sends.
- `HeaderLen()`, `Remaining()`, `ReadUint16()` and `Skip()` are called by the report's scans, but their definitions are not part of this model:
  - `HeaderLen()` is the constant `HeaderLen`.
  - the other three are modelled minimally on a logical length `len`.
  - `WriteUint16` sets `len` to the new cursor, so a packet that was only written keeps `len == ptr`.
- Packets.Packet.ReadUint16: does not clamp the cursor to the header. Every scan sets the cursor to `HeaderLen` first.
- Packets.Packet.AsBytes: returns `data[:ptr]`, as the code does. This equals the frame `data[:len]` when `ptr == len`, which holds after writes or a fresh zero packet but not after a scan has moved the cursor.
- The ASCII header diagram at the top of packet.go puts Alerts and Version the other way round. The setters' offsets are followed.
- The device identifier (a CRC-32 of the hardware id, computed in `New`) is a constructor parameter of `Framework.Framework`. The CRC-32 library and the hardware id are foreign calls.
- `LowBatteryAlertVoltage` and `CriticalBatteryAlertVoltage` are constructor parameters. Their definitions are not part of this model.
- Framework.AlertFlagsDistinct: `AlertRTCFailure` is not defined in the modelled files. It is taken to be the next free bit, 1 << 3.
- `setTimeFromRTC` (time_baremetal.go) is one scripted call, `SetTimeFromRtc`. It reads the clock and adjusts the system clock offset, which is system clock state.
- Board, RTC, Radio and App are interfaces. They are one scripted stand-in, `Capabilities.Environment`:
  - The answers of the start-up calls, of BatteryVoltage, RTC, IsHealthy, Radio and Tx are fixed for a run.
  - Only the alarm status, the acknowledgement, the callbacks' results and the wake reason vary per loop iteration.
- Framework.Framework.Run: the application callbacks are scripted results. A callback cannot itself call `Send` on the framework.
- Framework.Framework.Run: the infinite loop is bounded by the scripted cycles. A run whose script runs out ends `Suspended`, and the rest of the endless loop is not modelled.
- `panic` and the reset that follows are the terminal outcome `Fatal(stage)`. A DeepSleep that never returns is not modelled.
- Framework.Framework.Send: the `Message` interface is represented by its one implementation, `SensorReport`.
- Radio `Rx` is not used by the core and is not modelled. Nor are the clock's `Now`, `Accuracy`, `SetTime` and `Dump`, beyond what `setTimeFromRTC` does.
- Display, `DebugOut` and the logging build variants are dropped: they only print.
- `ErrTooSmall` and `ErrInvalid` are declared in sensorreport.go but never used.
- Floating point is not used: `ToSI` gives the exact rational value `raw * Mult / Div`.
