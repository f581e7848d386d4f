# RESFET verification model

RESFET runs a rocket engine test stand from a Raspberry Pi: it fires burns on command, shuts
them down on a timer, on a STOP or on a bad chamber pressure, and streams sensor readings to
packets, a log and a decoding script. This project models its three hard parts and proves
properties of them.

**Burn control.** The command thread, the ignition monitor and the pressure thread share two
atomics and the driver pins. `BurnProtocol` gives the state, the events (one per atomic load or
store, pin write, clock reading or sleep) and the step function; a run is any sequence of enabled
events, so every claim covers every interleaving. `BurnSafety`, `BurnStop`, `BurnOrder`,
`BurnAccounting`, `BurnTiming` and `BurnPressure` prove what holds in all runs; `BurnRuns` builds
the runs that show what can happen. `TestStand` has the steps as methods that update the fields in
place and carries its own run as a history, so that the theorems apply to the object. `Clock` and
`RunningAverage` hold the arithmetic.

**Telemetry.** `Adc` reassembles the bits of a reading, `AdcBus` interleaves the threads that
share the SPI bus, `CircularBuffers` is the ring and its drain into a packet, `SensorThread` is
the reading loop over several sensors with one shared packet buffer, `Packets` and `Decoder` are
the packet format and the script that reads it back, and `Pipeline` joins them.

**Configuration.** `ConfigSyntax` states what a file means, `ConfigText` ties the scan patterns and
lines to the text they match and shows that a written configuration reads back, `ConfigRoundTrip`
writes any mapping as such a file, `Config` reads files through a model of `istream::getline`, and
`ConfigLineEndings` compares LF and CRLF files. The scan patterns follow section 7.21.6.2 of
ISO/IEC 9899:2011.

Results that differ from what one would expect of the code:

- A STOP does not by itself keep the pins LOW once its own writes are done. The valve test comes
  before the ignition test, so a monitor that wakes from its sleep can open the valve once more
  before it sees the STOP. `BurnStop.StopKeepsPinsLowExactly` gives the exact condition on the
  state at the end of STOP, and `BurnStop.StopCanPulse` a run of the program in which it fails.
- A STOP and a START inside one sleep of the monitor go unnoticed, and the valve can then open
  with the igniter LOW (`BurnOrder.StopThenStartLags`). `BurnOrder.OrderKeptExactly` says which
  states keep the igniter ahead of the valve.
- The header comment of the configuration class says that a `[]` line returns to the unnamed
  section. The header pattern needs at least one character, so such a line is malformed and the
  read fails (`ConfigSyntax.EmptyHeader`, `ConfigSyntax.UnnamedSection`); the model follows the code.
- A skipped line of 128 characters or more (a comment, or a line starting with CR or NUL) leaves
  the stream failed but not at its end, and the read never returns (`ConfigSyntax.HangsExactly`,
  `ConfigSyntax.OverlongCommentHangs`).
- A reading of a sensor index over the limit returns without unlocking the SPI mutex, and no thread
  reads a sensor again. `AdcBus.AbandonedExactly` shows that nothing else has this effect; the
  program as wired only reads sensors it has registered.
- START turns the burn signal on before it clears the pressure flag, so a burn can still see a flag
  from before it; `BurnPressure.StaleFlag` says for how long, and `BurnPressure.StaleFlagEndsBurn`
  shows a run in which that flag ends the new burn.
- The comment on the packet header calls `length` the number of items; the code stores a byte
  count that includes the header, and so does the model.

Assumptions: the clock does not run backwards and stays below 2^64 ns; averages and calibration
are over the reals; the host is little-endian with unsigned plain `char`; a sleep may end at any
time after its duration, counted from the load before it. `mainOpen` starts with an arbitrary
value, since the program does not initialise it. The ring is modelled with the one slot more than
its capacity that its indexes use, and the configuration buffers with room for 64 characters and a
terminator.

## Model

| member | source | states |
|---|---|---|
| Clock.Stopwatch.SetStartTime | src/time/time.cpp:18-22 | over any sequence of calls the recorded start is the first non-zero clock value, and 0 before there is one |
| Clock.StartNeverMoves | src/time/time.cpp:18-22 | once a start is recorded no further calls move it |
| Clock.FirstNonZeroAt | src/time/time.cpp:18-22 | what the recorded start is: the first clock value that is not 0, or 0 when there is none |
| Clock.StartIsPast | src/time/time.cpp:18-55 | on a clock that does not run backwards the recorded start is not in the future and elapsed times do not wrap |
| Clock.ElapsedMsIsFloor | src/time/time.cpp:42-55 | the three nested truncations give the floor of the true elapsed milliseconds |
| Clock.SubtractionModulo | src/time/time.cpp:50-55 | the unsigned difference is the one modulo 2^64, also when it wraps |
| Clock.SampleDifference | src/visitor/worker_visitor.cpp:113-143 | the unsigned difference of two samples does not wrap and brackets the real time between them strictly |
| Clock.WholeMillisecondsCount | src/time/time.cpp:42-55 | whole milliseconds of real time are never lost to truncation |
| RunningAverage.ClosedForm | src/thread/thread.cpp:97-121 | the average is 0.95^n times its start plus the weighted sum of the readings |
| RunningAverage.DecayBound | src/thread/thread.cpp:121 | 0.95^n is at most 19 / (19 + n) |
| RunningAverage.Recurrence | src/thread/thread.cpp:121 | a new reading counts for a twentieth and the average before it for the rest |
| RunningAverage.AfterRawCounts | src/thread/thread.cpp:119-121 | the average in terms of raw counts: decayed start, plus slope times their weighted sum, plus the intercept times the weight of the readings |
| RunningAverage.TripsLow | src/thread/thread.cpp:118-128 | readings at least d below the minimum bring the average below it after more than 19 (avg - min) / d of them |
| RunningAverage.TripsHigh | src/thread/thread.cpp:118-128 | the same above the maximum |
| RunningAverage.StaysInBand | src/thread/thread.cpp:118-128 | readings in a band keep the average in the band |
| RunningAverage.StaysBelow | src/thread/thread.cpp:118-128 | an average below the minimum stays there while readings do not exceed it |
| TestStand.Stand.constructor | src/visitor/worker_visitor.cpp:93-98 | the recorded start of the clock, no burn, no shutoff, pins LOW, average 700, any mainOpen, and an empty history |
| TestStand.Stand.History | src/visitor/worker_visitor.cpp:93-246 | a stand that has come from its start by these methods has the properties proved of runs: pins contained, clock and command invariants, the average of its raw counts, burns within STARTs |
| TestStand.Stand.MonitorStep | src/visitor/worker_visitor.cpp:93-156 | each in-place step of the monitor is the protocol's monitor step, and the history stays a run |
| TestStand.Stand.ReceiveCommand | src/visitor/worker_visitor.cpp:158-246 | the dispatcher's first action for every byte, unknown bytes included |
| TestStand.Stand.WriteDriver | src/visitor/worker_visitor.cpp:160-219 | each driver byte writes the pin that the protocol step says (BurnProtocol.DriverBytes) |
| TestStand.Stand.VisitCommand | src/visitor/worker_visitor.cpp:158-246 | a command carried out alone: byte by byte the level of every driver, and the two atomics |
| BurnProtocol.DriverBytes | src/visitor/worker_visitor.cpp:160-219 | byte 2k-2 switches driver k off, byte 2k-1 on, and neither changes another driver; larger bytes change none |
| TestStand.Stand.FinishBurn | src/visitor/worker_visitor.cpp:112-150 | with the burn signal off the monitor's loop ends, within ten steps and one wait, with both pins LOW |
| TestStand.Stand.EmergencyStop | src/visitor/worker_visitor.cpp:225-235 | STOP in any state of the stand, whatever commands came before, ends with a waiting monitor and both pins LOW |
| TestStand.Stand.HandleReading | src/thread/thread.cpp:118-139 | a PT1 count enters the average as a twentieth of its calibrated value, and the flag says whether the average of all counts so far is out of band |
| BurnSafety.CommandInvHolds | src/visitor/worker_visitor.cpp:225-246 | while STOP is still writing its pins the burn signal is off |
| BurnSafety.PinsContained | src/visitor/worker_visitor.cpp:97-150 | without manual SETs a HIGH pin means the monitor is between raise and shutdown write, and a waiting monitor has both LOW, for any initial mainOpen |
| BurnSafety.ValveHasCause | src/visitor/worker_visitor.cpp:122-147 | a HIGH valve goes back to a monitor raise with no shutdown write since |
| BurnSafety.IgniterHasCause | src/visitor/worker_visitor.cpp:117-148 | a HIGH igniter goes back to a monitor raise with no shutdown write since |
| BurnSafety.ValveRaisedOncePerBurn | src/visitor/worker_visitor.cpp:112-150 | between two raises of the valve the monitor ends one burn and begins another |
| BurnOrder.OrderKeptExactly | src/visitor/worker_visitor.cpp:112-150 | from any state, valve HIGH implies igniter HIGH in every continuation without STOP and manual writes if and only if no instruction of the monitor or of a pending STOP can leave the valve HIGH alone |
| BurnOrder.IgniterLeadsValve | src/visitor/worker_visitor.cpp:116-150 | with no STOP and no manual write since a burn began, valve HIGH implies igniter HIGH, unless manual commands had broken that before the burn |
| BurnOrder.StopThenStartLags | src/visitor/worker_visitor.cpp:225-246 | STOP then START inside one sleep has a run that opens the valve with the igniter LOW |
| BurnSafety.ClockInvHolds | src/visitor/worker_visitor.cpp:112-144 | in every run the burn's sampled times are behind the clock and a sleeper's wake-up is within one period |
| BurnStop.StopEndsBurn | src/visitor/worker_visitor.cpp:104-150 | after STOP's first store and no later START at most ten monitor steps are left, and after ten the monitor waits |
| BurnStop.StopRepeatsNothing | src/visitor/worker_visitor.cpp:104-150 | after STOP no burn instruction runs twice: at most one more in-loop sleep and one raise of each pin |
| BurnStop.StopMakesStandSafe | src/visitor/worker_visitor.cpp:97-150 | after a STOP in any state, without START or manual SET after it, ten monitor steps leave the monitor waiting, with both pins LOW once STOP's writes are done or if the pins were the monitor's own |
| BurnStop.MonitorNeverBlocks | src/visitor/worker_visitor.cpp:105-142 | in every state some advance of the clock enables the monitor |
| BurnStop.StopIsDone | src/visitor/worker_visitor.cpp:225-235 | STOP's last write leaves the burn signal off and the command thread idle |
| BurnStop.StopKeepsPinsLowExactly | src/visitor/worker_visitor.cpp:120-143 | once STOP is done the pins stay LOW in every continuation if and only if no instruction before the next ignition test can raise one |
| BurnStop.StopCanPulse | src/visitor/worker_visitor.cpp:120-143 | the program reaches a state after START and STOP from which the valve rises with no further command |
| BurnAccounting.BurnBalance | src/visitor/worker_visitor.cpp:105-150 | every effective START began one burn, was cancelled by a STOP or is pending |
| BurnAccounting.BurnsNeedStarts | src/visitor/worker_visitor.cpp:243-246 | burns begun never exceed STARTs issued |
| BurnAccounting.LateStartIsLost | src/visitor/worker_visitor.cpp:146-150 | a START before the monitor's final store begins no further burn by itself |
| BurnTiming.BurnOpensAndCloses | src/visitor/worker_visitor.cpp:112-150 | a burn with no STOP, no manual write of the valve and no pressure test past the delay that finds shutoff enabled and the flag set opens the valve at a sample in (preignite, preignite+G] and closes it at one in [hotflow, hotflow+G) |
| BurnTiming.BurnIsBounded | src/visitor/worker_visitor.cpp:120-144 | the k-th sample is at least 50k, and a burn has at most hotflow/50 iterations, rounded up |
| BurnTiming.MainOpenCleared | src/visitor/worker_visitor.cpp:146-150 | after a completed burn the valve counts as unopened whenever a burn begins, whatever mainOpen was at the start |
| BurnTiming.LaterBurnOpensAndCloses | src/visitor/worker_visitor.cpp:112-150 | so every undisturbed burn after a completed one opens and closes the valve at those samples |
| BurnTiming.RunsToBurnTime | src/visitor/worker_visitor.cpp:120-139 | without STOP, a burn with shutoff disabled or with the flag clear at every test past the delay runs to hotflow |
| BurnTiming.SleepLasts | src/visitor/worker_visitor.cpp:105-142 | each sleep of the monitor, polling or in the loop, takes at least 50 ms of real time |
| BurnTiming.EveryBurnEnds | src/visitor/worker_visitor.cpp:112-150 | every burn, however it ends, is back to waiting within 7 + 6 ceil(hotflow/50) monitor steps |
| BurnTiming.ValveOpensLate | src/visitor/worker_visitor.cpp:113-126 | more than preignite ms of real time pass between the sampled start and the opening of the valve |
| BurnPressure.AverageOfRun | src/thread/thread.cpp:118-121 | in any interleaving the average is that of the run's readings |
| BurnPressure.AverageTrips | src/thread/thread.cpp:118-128 | after the trip count the average is out of band and stays so while the fault lasts |
| BurnPressure.AverageOfRawCounts | src/thread/thread.cpp:118-121 | the same average in terms of the raw counts of the run, slope and intercept |
| BurnPressure.FlagStays | src/thread/thread.cpp:127-139 | the flag published then is true and stays true until a START clears it |
| BurnPressure.PressureEndsBurn | src/visitor/worker_visitor.cpp:128-150 | the next pressure test past the delay ends the burn, and four monitor steps later it waits with both pins LOW, whatever manual commands came before that test |
| BurnPressure.FlagSetExactly | src/thread/thread.cpp:127-139 | the flag is set if and only if its last store was the sensor thread's, with the average out of band |
| BurnPressure.StaleFlag | src/visitor/worker_visitor.cpp:243-246 | a flag published before a START is seen after it only while the command thread is between its two stores |
| BurnPressure.StaleFlagEndsBurn | src/visitor/worker_visitor.cpp:128-132 | from the start state there is a run in which a flag published before a START ends the burn of that START |
| BurnPressure.AverageRecovers | src/thread/thread.cpp:118-128 | readings inside the band by d bring the average back after more than 19/d times its distance from the band of them, and keep it there |
| BurnPressure.PressureRecovers | src/visitor/worker_visitor.cpp:128-132 | the flag stored after that is false and stays false, and no pressure test ends a burn while such readings last |
| BurnPressure.NoFalseTrip | src/thread/thread.cpp:97-139 | readings in band never set the flag and never end a burn |
| CircularBuffers.CircularBuffer.constructor | src/circular_buffer/circular_buffer.cpp:20-27 | an empty ring of the given capacity |
| CircularBuffers.CircularBuffer.PushDataItem | src/circular_buffer/circular_buffer.cpp:53-74 | appends the item, or reports FULL and drops it exactly when capacity items are held |
| CircularBuffers.CircularBuffer.PopDataItem | src/circular_buffer/circular_buffer.cpp:76-95 | takes the oldest item out and stores it, or reports EMPTY and changes nothing |
| CircularBuffers.CircularBuffer.GetData | src/circular_buffer/circular_buffer.cpp:29-51 | drains min(held, (size-4)/16) items in order into the packet and returns its length; no item is lost for lack of room |
| CircularBuffers.Conservation | src/circular_buffer/circular_buffer.cpp:20-95 | over any run accepted items are the drained ones followed by the held ones, and pushes are drained, held or rejected |
| CircularBuffers.Operate | src/circular_buffer/circular_buffer.cpp:20-95 | the same law for the operations carried out on a ring object: what it ends with, what its packets unpack to, and how often FULL is reported |
| Packets.UnpackPacket | scripts/struct_decoder.py:43-50 | a packet unpacks to its items whatever the buffer held before |
| Packets.PacketLayout | src/circular_buffer/circular_buffer.cpp:41-50 | the header fields, and that pads and tail keep their old bytes |
| Packets.DecodePrefix | scripts/struct_decoder.py:35-54 | any byte prefix of a log decodes to a prefix of its records |
| Packets.PacketBytes | src/circular_buffer/circular_buffer.cpp:29-51 | byte for byte where and in which order header, readings and timestamps stand |
| Decoder.DecodeFile | scripts/struct_decoder.py:35-54 | the script's loops compute the decoding of the log |
| SensorThread.PackedAt | src/thread/thread.cpp:142-148 | of every seventeen readings the log has the first sixteen, in order |
| SensorThread.LogRoundTrip | scripts/struct_decoder.py:35-54 | the log decodes to exactly the packed readings and timestamps |
| SensorThread.TruncatedLog | scripts/struct_decoder.py:35-54 | a truncated log decodes to a prefix of them |
| SensorThread.Exchange | src/thread/thread.cpp:143-148 | one push, and on a full ring one drain appended to the log, keep log and ring in step with everything read |
| SensorThread.PeriodicThread.constructor | src/thread/thread.cpp:28-70 | rings of sixteen items for every sensor, empty logs, average 700, all of it newly allocated |
| SensorThread.PeriodicThread.FoldPressure | src/thread/thread.cpp:118-139 | a PT1 reading updates the average by a twentieth, and the flag is whether it is above the maximum or below the minimum |
| SensorThread.PeriodicThread.Record | src/thread/thread.cpp:142-165 | one reading of one sensor leaves every channel exact, and a drained packet without a socket ends the thread |
| SensorThread.PeriodicThread.Sweep | src/thread/thread.cpp:110-169 | one pass gives every sensor its reading, or ends after the first sensor whose drained packet finds the socket gone, and exactly then; the socket may change from sensor to sensor |
| SensorThread.ThreadFunc | src/thread/thread.cpp:85-173 | from its start the thread ends at the first packet that is drained without a socket and nowhere else; record j of each log is count and timestamp 17 (j/16) + j%16 of its sensor; the flag is that of the average of the counts of sensor 5, and untouched without one |
| Adc.ReadingSurvives | src/adc/adc.cpp:127-134 | shifts, masks and byte swap give (256 b1 + b2) / 4, which the signed 16-bit load returns unchanged |
| Adc.AdcValue | src/adc/adc.cpp:127-134 | the value is below 2^14, and below 2^12 when the top two bits of b1 are 0 |
| Adc.Reassemble | src/adc/adc.cpp:127-134 | the in-place rewriting of the receive buffer returns that value |
| Adc.CommandFields | src/adc/adc.cpp:115-116 | start bit, mode bit and channel do not overlap in the command byte |
| Adc.AdcReader.AddAdcInfo | src/adc/adc.cpp:142-147 | registers an index the guard admits and ignores one above the limit |
| Adc.AdcReader.ReadItem | src/adc/adc.cpp:100-135 | the transfer happens with the sensor's pin LOW, the bus is restored, and a rejected index leaves it locked |
| AdcBus.ChipSelectExclusion | src/adc/adc.cpp:100-135 | in every interleaving at most one chip select is LOW, and a transfer happens with exactly its own sensor's pin LOW |
| AdcBus.AbandonedExactly | src/adc/adc.cpp:101-129 | the mutex is left locked by a thread that has returned if and only if some reading was rejected for its sensor index |
| AdcBus.RejectionHappens | src/adc/adc.cpp:101-107 | whenever the bus is free, an idle thread that asks for an index over the limit can be the one that leaves it locked |
| AdcBus.BusIsReleased | src/adc/adc.cpp:100-135 | without a rejection the holder of the bus can always go on and releases it within six steps of its own |
| AdcBus.RejectionBlocksTheBus | src/adc/adc.cpp:101-107 | after a rejected sensor index no thread ever transfers again |
| Pipeline.EndToEnd | src/adc/adc.cpp:127-134 | record j of the decoded log is the ADC number and timestamp of answer 17 (j/16) + j%16 |
| Pipeline.SignedDecodeExactly | scripts/struct_decoder.py:8-50 | arbitrary readings survive the signed decode if and only if all packed ones are below 2^15 |
| ConfigSyntax.ParserMeaning | src/config/config.cpp:62-106 | the parse succeeds exactly when every line is skipped or matches, and then every section and key has its values in file order |
| ConfigSyntax.HangsExactly | src/config/config.cpp:62-81 | the parse hangs exactly when an overlong skipped line precedes every failing line |
| ConfigText.PairExactly | src/config/config.cpp:22-29 | a text matches the pair pattern, with key and value in this order, if and only if it is a key of 1 to 64 characters, =, white space and a word cut off at 64 characters |
| ConfigText.HeaderExactly | src/config/config.cpp:22-29 | a text matches the header pattern if and only if it is [ and a name of 1 to 64 characters up to a ] or the cut-off |
| ConfigText.ClassifyExactly | src/config/config.cpp:65-101 | what a line does, by its length, its first character and its text up to the first NUL |
| ConfigText.LinesExactly | src/config/config.cpp:62-63 | the lines of a file are the pieces between its newlines |
| ConfigText.ReadsBack | src/config/config.cpp:62-106 | a configuration written out, with comments and blank lines anywhere, reads back as itself |
| ConfigRoundTrip.MappingRoundTrip | src/config/config.cpp:42-106 | for every mapping within the format there is a file that reads as exactly that mapping |
| ConfigSyntax.OverlongCommentHangs | src/config/config.cpp:62-69 | a file that starts with a skipped line of 128 characters or more is never read to its end |
| ConfigSyntax.EmptyHeader | src/config/config.cpp:22-29 | a header line names a section, no line starting with empty brackets is one, and the line [] matches neither pattern |
| ConfigSyntax.UnnamedSection | include/config/config.hpp:35-37 | the unnamed section holds exactly up to the first header and never comes back |
| Config.InputStream.GetLine | src/config/config.cpp:63 | what getline extracts and which flags it sets, for short, exact, overlong and final lines |
| Config.ReadAgain | src/config/config.cpp:62-69 | on a failed stream further reads are empty and change nothing |
| Config.ConfigMapping.ReadFrom | src/config/config.cpp:42-106 | returns 0 with the file's mapping, 1 with the empty mapping, or not at all; a file written from entries gives 0 and the values of those entries |
| Config.ConfigMapping.Append | src/config/config.cpp:88-90 | adds one value to a key of a section and changes nothing else |
| Config.ConfigMapping.GetString | src/config/config.cpp:127-138 | copies the first value padded with NULs, or reports a missing key and writes nothing |
| ConfigLineEndings.CrHarmlessExactly | src/config/config.cpp:22-29 | a CR at the end of a line changes no parse if and only if the line is short with any bracket closed, or fails anyway |
| ConfigLineEndings.LineEndingInvariance | src/config/config.cpp:62-101 | files of such lines give the same result and mapping with LF and CRLF |

## Left out

- Sockets, TCP and UDP: a send succeeds or throws and both continue; only a missing socket matters, and it is a parameter of the sensor thread.
- LunaVisitor and TitanVisitor: they write the same pins as the base dispatcher, and the Titan presets write none.
- Logger formatting, log directories and dates; a data log is a byte sequence that packets are appended to.
- GPIO and SPI calls: pins are levels, a transfer returns arbitrary bytes.
- The text lines and calibrated values the decoding script prints; the model returns the two numbers each line is made of.
- Floating-point rounding of the average and of the conversion.
- The loads of the pressure flag that only choose what is printed change nothing; the protocol has one step for them and the sensor thread none.
- Interference of other threads inside one sweep of the sensor thread; the protocol interleaves its average and flag steps with the other threads.
- AdcBus.ChipSelectExclusion: covers readings that begin after the pin setup, because src/main.cpp starts the sensor threads (136-138) before that setup writes the chip selects without the mutex (157-163).
- Sensor index 13, which the guards admit although the tables have 13 entries; the model gives it an entry.
- getInt, getDouble, getBool and getVector, which only convert text with the C library; writeTo, which is a stub.
- Opening and closing files; a file is its text, or absent.
