# Tilt hydrometer monitor — a Dafny model

TiltCon is a Windows console program that listens for Bluetooth LE
advertisements from Tilt hydrometers. A Tilt is a floating sensor that
broadcasts an Apple iBeacon frame. The frame's UUID carries the Tilt's colour
in the high nibble of byte 7. The major field carries the temperature in
degrees Fahrenheit, the minor field the specific gravity times 1000, and the
last byte a transmit-power value. For each colour, the program keeps four
100-slot averaging filters: temperature, gravity, transmit power and signal
strength. It shows their averages and periodically appends them to a log file
per colour.

This project models the core of `TiltCon/TiltMonitor.h`:

| module | file | models |
|---|---|---|
| `Ints`, `Wrappers` | `ints.dfy` | fixed-width integer ranges; `Option` and `Result` |
| `Hex` | `hex.dfy` | `cvBinToHex`, which renders bytes as `"%02X "` text |
| `Decoder` | `decoder.dfy` | the decoding ladder of `CTiltMonitors::OnAdvertisementReceived`: `Decode` is the acceptance rule and `DecodeAdvertisement` is the loop, proved equal to it |
| `FilterSpec` | `filter_spec.dfy` | `CFilterInt` as a pure state-transition system (`Write`, `Reset`, `Get`, the span `Read` reports), with the properties of the ring buffer |
| `Filter` | `filter.dfy` | the class `FilterInt` over two 100-slot arrays, whose methods are proved against `FilterSpec` |
| `Monitor` | `monitor.dfy` | `CTiltMonitor`: the pure transitions `Updated` and `Emitted`, and the class `TiltMonitor` over four `FilterInt` objects, proved against them |
| `Registry` | `registry.dfy` | `CTiltMonitors`: the 8-slot table, the router, `Detect`, `Emit` and the display headings |

Time is counted in WinRT ticks, as `int64`. Every clock reading
(`winrt::clock::now()`) is a parameter (`now`) instead of a read.

Four details of the code that the model keeps:

- The first (bootstrapping) write fills all 100 slots and leaves the sample count at 1. The inner writes count to 100, line 157 zeroes the count and line 166 adds one. Only the constructor leaves the count at 0 (line 130).
- `Get` averages array positions `0 .. min(count, 100)` (lines 182-190), whatever order the samples arrived in. So a bootstrap at 50 followed by a write of 60 averages to 55 (`FilterSpec.SecondSampleAveragesTwoSlots`): only slots 0 and 1 are counted.
- The router's bound is `ARRAYSIZE(m_TiltMonitors)` (line 492), which is 8.
- The transmit power is byte 24 read as an unsigned byte (0..255), at line 483.

## Model

| member | source | states |
|---|---|---|
| `Hex.DigitOf` | TiltCon/TiltMonitor.h:83 | the digit for a nibble is an upper-case hexadecimal digit |
| `Hex.DigitValue` | TiltCon/TiltMonitor.h:83 | a character that parses as a digit is the digit of its value (partner of `DigitOf`) |
| `Hex.HexTextLength` | TiltCon/TiltMonitor.h:80-85 | the text has three characters per byte |
| `Hex.ParseHexStep` | TiltCon/TiltMonitor.h:83-84 | parsing a byte's three characters yields that byte after the bytes in front |
| `Hex.ParseHexText` | TiltCon/TiltMonitor.h:74-86 | the rendering is lossless: parsing the text of any buffer gives the buffer back |
| `Hex.BinToHex` | TiltCon/TiltMonitor.h:74-86 | the loop appends exactly the text of every byte, in order, to the given string |
| `Decoder.BigEndian16` | TiltCon/TiltMonitor.h:477-482 | a 16-bit field lies in 0..65535, and its high and low bytes are recovered by `/ 256` and `% 256` |
| `Decoder.HighNibbleOf` | TiltCon/TiltMonitor.h:452 | `byte7 >> 4` lies in 0..15 |
| `Decoder.ByteValue` | TiltCon/TiltMonitor.h:483 | the transmit-power byte is read unsigned, in 0..255 |
| `Decoder.ReadingOf` | TiltCon/TiltMonitor.h:452-483 | a matching frame yields id `byte7 >> 4` in 0..15, temperature and gravity in 0..65535, tx power in 0..255, and the advertisement's timestamp and RSSI |
| `Decoder.DecodeAdvertisement` | TiltCon/TiltMonitor.h:399-490 | the early-return loop (initial values 99, 9999, 9999, 0) gives exactly the outcome of the acceptance rule `Decode`, rejection reason included |
| `Decoder.AcceptedExactly` | TiltCon/TiltMonitor.h:402-490 | an advertisement is accepted iff it is non-connectable undirected, has a live signal and Apple data, and carries exactly two sections, the first at most 256 bytes and the second a Tilt frame; the reading then comes from that frame |
| `Decoder.HeaderChecksFirst` | TiltCon/TiltMonitor.h:402-418 | type, signal and vendor are checked in that order, before any section, so the sections cannot change the outcome |
| `Decoder.OversizedSectionRejects` | TiltCon/TiltMonitor.h:426-433 | a section over 256 bytes at any index rejects the advertisement |
| `Decoder.TemplateByteRejects` | TiltCon/TiltMonitor.h:436-476 | any differing byte at offsets 0–6 or 8–19 of the second section rejects it |
| `Decoder.LowNibbleIgnored` | TiltCon/TiltMonitor.h:450-453 | byte 7 is not compared, and its low nibble never changes the outcome |
| `Decoder.EncodeFrame` | TiltCon/TiltMonitor.h:25-67 | the frame layout: prefix, colour byte, UUID tail, major, minor, tx power |
| `Decoder.DecodeEncoded` | TiltCon/TiltMonitor.h:399-490 | round trip: decoding the frame of any colour id and fields gives back that id and those fields |
| `Decoder.BlackTiltExample` | TiltCon/TiltMonitor.h:49-66 | a Black Tilt (0x30) at 0x002C and 0x03E8 decodes to id 3, 44 degrees, gravity 1000, tx power 0xC5 |
| `FilterSpec.LastIndex` | TiltCon/TiltMonitor.h:137-139 | the newest slot is the one before the cursor, `(index + 99) % 100` |
| `FilterSpec.Bootstrap` | TiltCon/TiltMonitor.h:149-157 | a bootstrapping write leaves count 1, cursor 0 and the flag down |
| `FilterSpec.Initial` | TiltCon/TiltMonitor.h:121-131 | construction leaves count 0 and the flag up |
| `FilterSpec.Write` | TiltCon/TiltMonitor.h:147-167 | after a write the flag is down and the cursor stays inside the buffer; the count becomes 1 after a bootstrap and goes up by one otherwise; the cursor becomes 0 after a bootstrap and advances mod 100 otherwise |
| `FilterSpec.WriteSlots` | TiltCon/TiltMonitor.h:147-167 | the newest slot holds the written sample; a bootstrap fills every slot with it; any other write changes no other slot |
| `FilterSpec.Reset` | TiltCon/TiltMonitor.h:133-146 | a reset with count 0 changes nothing; otherwise it leaves count 1 and cursor 0 |
| `FilterSpec.ResetSlots` | TiltCon/TiltMonitor.h:133-146 | after a reset every slot holds the newest sample from before it |
| `FilterSpec.Extent` | TiltCon/TiltMonitor.h:182-184 | the number of averaged slots is `min(count, 100)` |
| `FilterSpec.SumAppend` | TiltCon/TiltMonitor.h:187-190 | the sum over two pieces is the sum of their sums |
| `FilterSpec.SumBetween` | TiltCon/TiltMonitor.h:187-190 | a sum of values between two bounds lies between the length times each bound |
| `FilterSpec.SumFitsInt64` | TiltCon/TiltMonitor.h:181-190 | the `int64_t` accumulator cannot overflow on 100 `int` values |
| `FilterSpec.AverageBetween` | TiltCon/TiltMonitor.h:179-193 | `Get` lies between the least and the greatest averaged value over the scale |
| `FilterSpec.AverageOfFlat` | TiltCon/TiltMonitor.h:179-193 | a window of equal values averages to that value over the scale |
| `FilterSpec.ResetAverage` | TiltCon/TiltMonitor.h:133-146 | after `Reset`, `Get` is the newest sample over the scale |
| `FilterSpec.ResetIdempotent` | TiltCon/TiltMonitor.h:133-146 | resetting twice is resetting once |
| `FilterSpec.SecondSampleAveragesTwoSlots` | TiltCon/TiltMonitor.h:147-193 | bootstrap at 50, then write 60, averages to 55 |
| `FilterSpec.BootstrapHolds` | TiltCon/TiltMonitor.h:149-157 | a bootstrap starts a history of one sample that the buffer holds |
| `FilterSpec.WriteHolds` | TiltCon/TiltMonitor.h:158-166 | every write keeps the buffer holding the history extended by the new sample |
| `FilterSpec.ResetHolds` | TiltCon/TiltMonitor.h:133-146 | after a reset the buffer holds a history of just the newest sample |
| `FilterSpec.Recent` | TiltCon/TiltMonitor.h:182-184 | the recent window has `min(n, 100)` samples |
| `FilterSpec.WindowIsRecent` | TiltCon/TiltMonitor.h:179-193 | the slots `Get` averages hold exactly the newest `min(count, 100)` samples, in some order: the same multiset of values, hence the same count and sum |
| `FilterSpec.AverageIsRecentMean` | TiltCon/TiltMonitor.h:179-193 | `Get` is the mean of the newest `min(count, 100)` samples over the scale |
| `FilterSpec.ReadElapsedEndsAtNewest` | TiltCon/TiltMonitor.h:174-177 | after a write, the corrected span ends at that write's timestamp and agrees with the span as written unless the cursor is 0 |
| `FilterSpec.WriteAll` | TiltCon/TiltMonitor.h:147-167 | a run of writes keeps the state well formed |
| `FilterSpec.StampsAfterWrites` | TiltCon/TiltMonitor.h:158-166 | after a bootstrap and up to 100 writes, the stamps sit in slots `0 ..` in order and the rest keep the bootstrap stamp |
| `FilterSpec.ReadElapsedVanishesAtWrap` | TiltCon/TiltMonitor.h:174-177 | a bootstrap at tick 0 and writes at ticks 1..100 give 0 as written, but 99 corrected |
| `FilterSpec.WriteInLockstep` | TiltCon/TiltMonitor.h:300-303 | two filters whose cursor, count and flag agree still agree after one write each |
| `FilterSpec.ResetInLockstep` | TiltCon/TiltMonitor.h:350-353 | two filters whose cursor, count and flag agree still agree after one reset each |
| `Filter.FilterInt.constructor` | TiltCon/TiltMonitor.h:121-131 | the arrays are fresh; the state is `Initial(now)` with the given scale |
| `Filter.FilterInt.Store` | TiltCon/TiltMonitor.h:160-164 | one slot of each array is set at the cursor, and the cursor advances mod 100 |
| `Filter.FilterInt.Write` | TiltCon/TiltMonitor.h:147-167 | the new state is `FilterSpec.Write` of the old one; the object stays valid; the history invariant is kept |
| `Filter.FilterInt.Reset` | TiltCon/TiltMonitor.h:133-146 | the new state is `FilterSpec.Reset` of the old one; after it the history is the newest sample |
| `Filter.FilterInt.Get` | TiltCon/TiltMonitor.h:179-193 | the summing loop returns `Average` of the state; once tracked, that is the mean of the newest `min(count, 100)` samples over the scale |
| `Filter.FilterInt.Summary` | TiltCon/TiltMonitor.h:194-203 | the numbers `Get(string*)` formats: the newest value over the scale, and the average |
| `Filter.FilterInt.Read` | TiltCon/TiltMonitor.h:168-178 | the corrected span from the cursor slot to the newest slot, and the average truncated toward zero |
| `Filter.TruncateReal` | TiltCon/TiltMonitor.h:171 | the `int(v)` conversion rounds toward zero |
| `Monitor.LogPathParts` | TiltCon/TiltMonitor.h:315 | the log path is `"TiltLog_"`, then the colour name, then `".txt"` |
| `Monitor.LogPathInjective` | TiltCon/TiltMonitor.h:315 | different colours log to different files |
| `Monitor.InitialMonitor` | TiltCon/TiltMonitor.h:280-289 | a new monitor has id -1, an empty path and four filters in lockstep |
| `Monitor.Updated` | TiltCon/TiltMonitor.h:290-304 | an update keeps the monitor consistent; it sets the id only on the first update; it keeps the path once set; the newest slot of each filter holds its field |
| `Monitor.Emitted` | TiltCon/TiltMonitor.h:333-354 | emitting keeps id, path and consistency, and is a no-op before the first update |
| `Monitor.Replay` | TiltCon/TiltMonitor.h:290-354 | any run of updates and emits keeps an updated monitor consistent |
| `Monitor.IdFixedByFirstUpdate` | TiltCon/TiltMonitor.h:298-313 | after the first update, no run of updates and emits changes the id or the path |
| `Monitor.EmitRestartsAtNewest` | TiltCon/TiltMonitor.h:350-353 | after `Emit`, each filter's average is its own newest sample over its scale (1, 1000, 1, 1) |
| `Monitor.TiltMonitor.constructor` | TiltCon/TiltMonitor.h:280-289 | four fresh filters with scales 1, 1000, 1, 1; the state is `InitialMonitor(now)` |
| `Monitor.TiltMonitor.Begin` | TiltCon/TiltMonitor.h:311-316 | the id is recorded, and the colour's log path is appended to the path |
| `Monitor.TiltMonitor.OnAdvertisementReceived` | TiltCon/TiltMonitor.h:290-304 | the new state is `Updated` of the old one |
| `Monitor.TiltMonitor.WriteReadings` | TiltCon/TiltMonitor.h:300-301 | the temperature and gravity filters each take one write |
| `Monitor.TiltMonitor.WriteRadio` | TiltCon/TiltMonitor.h:302-303 | the transmit-power and signal filters each take one write |
| `Monitor.TiltMonitor.Detect` | TiltCon/TiltMonitor.h:305-310 | detected iff the monitor has counted a sample, and then its id is a colour id |
| `Monitor.TiltMonitor.Emit` | TiltCon/TiltMonitor.h:333-354 | the new state is `Emitted` of the old one |
| `Monitor.TiltMonitor.ResetReadings` | TiltCon/TiltMonitor.h:350-351 | the temperature and gravity filters are each reset |
| `Monitor.TiltMonitor.ResetRadio` | TiltCon/TiltMonitor.h:352-353 | the transmit-power and signal filters are each reset |
| `Monitor.TiltMonitor.DisplayLabel` | TiltCon/TiltMonitor.h:261-266 | the heading is empty before the first update and is the colour name followed by `": "` after it |
| `Registry.AdmitAsWritten` | TiltCon/TiltMonitor.h:492-494 | as written, ids below 8 are admitted, to the slot with the same number |
| `Registry.Slot` | TiltCon/TiltMonitor.h:492-494 | corrected routing: an id has a slot iff it is a colour id 1..8, and the slot is `id - 1` |
| `Registry.SlotNamesColour` | TiltCon/TiltMonitor.h:239 | every colour has a slot, and that slot names the colour |
| `Registry.SlotInjective` | TiltCon/TiltMonitor.h:492-494 | no two ids share a slot |
| `Registry.Routed` | TiltCon/TiltMonitor.h:399-500 | a routed advertisement decodes successfully, and its slot is its id minus one |
| `Registry.RoutedExactly` | TiltCon/TiltMonitor.h:487-494 | routed iff decoded to a colour id |
| `Registry.Headings` | TiltCon/TiltMonitor.h:502-509 | at most one heading per monitor |
| `Registry.HeadingsNoneDetected` | TiltCon/TiltMonitor.h:502-509 | with nothing detected the display has no headings |
| `Registry.HeadingsAllDetected` | TiltCon/TiltMonitor.h:502-509 | with every Tilt detected the headings run through the colour table in order |
| `Registry.TiltMonitors.constructor` | TiltCon/TiltMonitor.h:362 | eight fresh, never-updated monitors |
| `Registry.TiltMonitors.OnAdvertisementReceived` | TiltCon/TiltMonitor.h:399-501 | an advertisement that is not routed changes nothing; a routed one updates exactly its slot with its reading; detection is never lost |
| `Registry.TiltMonitors.Detect` | TiltCon/TiltMonitor.h:389-397 | true iff some slot has been updated |
| `Registry.TiltMonitors.Emit` | TiltCon/TiltMonitor.h:510-516 | every slot emits, and detection is unchanged |
| `Registry.TiltMonitors.DisplayHeadings` | TiltCon/TiltMonitor.h:502-509 | the loop yields the headings of the detected monitors in slot order |
| `Registry.UpdateKeepsDetection` | TiltCon/TiltMonitor.h:290-310 | an update never makes a detected slot undetected, and never changes its id |
| `Registry.RoutedUpdateSetsColour` | TiltCon/TiltMonitor.h:494-500 | the slot an update is routed to ends up holding its own colour id, name and log path |
| `Registry.AsWrittenAdmitsColourlessId` | TiltCon/TiltMonitor.h:492-494 | as written, a frame with high nibble 0 is admitted with id 0, which has no colour |
| `Registry.AsWrittenDropsPink` | TiltCon/TiltMonitor.h:492-493 | as written, a Pink Tilt (id 8) is dropped |
| `Registry.CorrectedRoutesPinkDropsZero` | TiltCon/TiltMonitor.h:492-494 | corrected, id 0 is dropped and Pink goes to the last slot |

## Left out

- The WinRT watcher and signal-strength filter setup and teardown (TiltCon/TiltMonitor.h:363-388), and BLE event delivery. These are platform calls. An advertisement is a plain value: its type, its raw RSSI, whether it has company-id 0x004C data, its sections and its timestamp.
- File I/O in `Begin` and `Emit`: opening, the header row and the appended log row. `Emit` resets the filters whether or not the file opened, and so does the model.
- All `sprintf_s` and float formatting. This covers the text of `Read`, `Get(string*)`, `GetStatistics` and `Emit`, and `DateTimeToString`. `Summary` and `Read` return the numbers that would be formatted.
- `GetStatistics` (samples per hour and seconds since the last update) is left out. It reads the clock and divides doubles by a span that can be zero.
- `UpdateDisplay` of a monitor and of the table is modelled only as far as its headings (`DisplayLabel`, `DisplayHeadings`). The escape sequence that clears the screen is left out, and so are the statistics and averages printed after each heading, because they are float formatting.
- `m_StartTime` is never read, so it is left out. The dead `clock::now()` read in `Reset` is left out too.
- TiltCon/main.cpp (the display and emit scheduling loop) is not part of this model.
- Concurrency: every operation is modelled as one atomic step, and the steps as a sequence. In the program the advertisement callback (TiltCon/main.cpp:9, into TiltCon/TiltMonitor.h:399-501) runs on a platform thread while the main loop calls `UpdateDisplay` and `Emit` (TiltCon/main.cpp:23-39), with no lock between them. Interleavings inside a call are therefore not captured. For example, an update that lands between the resets of lines 350-351 and those of lines 352-353 leaves the four filters of a monitor with different counts, which `Monitor.Consistent` rules out.
- `double` arithmetic is modelled as exact `real` arithmetic, so rounding in `Get` is not modelled. The scale must be positive: the program only constructs scales 1 and 1000.
- `Filter.FilterInt.Write`: `m_Count` is a 32-bit `ULONG`, but the model counts with `nat`, so wrap-around after 2^32 writes is not modelled.
- `FilterSpec.ReadElapsed`: the tick subtraction is unbounded `int`, so overflow of a 64-bit `TimeSpan` is not modelled.
- `Registry.TiltMonitors`: the table keeps its eight monitors as `MonitorState` values in an array and advances them with `Monitor.Updated` and `Monitor.Emitted`. This matches the C++ array of embedded objects, which cannot alias. The class `Monitor.TiltMonitor` is proved against the same two functions.

## Findings

| source | as written | input that shows it | evidently intended | confidence | as-written member | corrected member |
|---|---|---|---|---|---|---|
| TiltCon/TiltMonitor.h:492-494 | ids `0..7` are admitted to `m_TiltMonitors[id]`, but the colour table is 1-based (`m_Color[id-1]`, lines 266 and 315) | a Tilt frame whose byte 7 is `0x0_` gives id 0, which is admitted and indexes `m_Color[-1]`; a Pink Tilt (`0x8_`, id 8) is always dropped | colour ids `1..8` are routed to slots `0..7`, and every other id is dropped | not executed | `Registry.AsWrittenAdmitsColourlessId`, `Registry.AsWrittenDropsPink` (over `Registry.AdmitAsWritten`) | `Registry.Slot`, `Registry.CorrectedRoutesPinkDropsZero`, used by `Registry.TiltMonitors.OnAdvertisementReceived` |
| TiltCon/TiltMonitor.h:174-177 | `Read` ends its span at `m_Timestamps[0]` when `m_Index == 0`, although the newest slot is then 99 (as in `Get(string*)`, lines 196-198) | bootstrap at tick 0, then writes at ticks 1..100: the cursor is back at 0, and the reported span is 0 instead of 99 | the span ends at the newest slot, `(m_Index + 99) % 100` | not executed | `FilterSpec.ReadElapsedVanishesAtWrap` (over `FilterSpec.ReadElapsedAsWritten`) | `FilterSpec.ReadElapsedEndsAtNewest` (over `FilterSpec.ReadElapsed`), used by `Filter.FilterInt.Read` |
