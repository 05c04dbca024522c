# DCF77 word clock: decoder, word display and serial buffer

This project models the core of a German word-clock firmware for an STM32F0 board. The firmware has three parts:

- **DCF77 decoder** (`src/dcf77.rs`). It reads the DCF77 long-wave time signal from the receiver pin. It uses the edge timing to assemble 59-bit minute frames and decodes a frame into a date and time.
- **Word display** (`src/display.rs`). It draws a time as German words ("es ist fünf vor halb drei"). Ten main words and twelve hour words share eight multiplexed, active-low driver lines behind one master enable. It also drives four single-minute LEDs.
- **Serial buffer** (`src/main.rs`). This is a bounded byte queue that formatted text is written into. An interrupt task drains it to the UART.

Files:

- `results.dfy`: the `Result` and `Option` types the model returns.
- `chrono.dfy`: the dates and times `chrono`'s constructors accept, shared by the decoder and the display.
- `bits.dfy`: a `u64` register as 64 booleans. It provides `set_bit`, `get_bits` and the XOR fold behind the parity checks.
- `dcf77.dfy`: the decoder's states and its edge-driven transition `Update`, as a pure function. It also holds the parity check `ValidFrame`, the field reader `ExtractNumber` and `now` (`Decode`), plus the class `Dcf77` that updates its state in place on every edge.
- `dcf77_frames.dfy`: properties over whole minutes of signal:
  - an encoder for frames in the layout the decoder reads, and the round trip through `now`;
  - reception of one minute of pulses, edge by edge;
  - single-bit errors caught by the parity check;
  - the panic when the minute gap is missed.
- `display.dfy`: the phrase table and the wiring of words to lines. The class `WordDisplay` holds the GPIO hardware as `trace`, the log of pin writes that took effect. The class `MinuteDisplay` holds an array of four pin levels.
- `serial.dfy`: the bounded queue, `SerialBuffer::write_str`, and the `process_serial` drain loop.

Modelling choices:

- A hardware write can fail. Each display keeps a set `faulty` of pins whose writes fail. A failing write changes nothing and makes the routine return that pin's error at once, as the `?` operator does.
- A routine made of stages (`init`, `set_time`, `test`) is specified by a `Progress` value. It is built with `Step`, which runs a stage only if every earlier stage succeeded.
- Lemmas (`SetTimeRunIsFlat` and its siblings) show this is the same as running the routine's whole write list up to its first failing write.
- A pin's level is the last write to it in `trace`. Before any write it is low, the reset value of the output register.

## Model

| member | source | states |
|---|---|---|
| Bits.SetBit | src/dcf77.rs:66 | `set_bit(b, v)` makes bit `b` equal `v` and leaves every other bit of the register unchanged |
| Bits.Field | src/dcf77.rs:223 | `get_bits(lo..lo+n)` reads an `n`-bit number, below `2^n` |
| Bits.FieldOfBits | src/dcf77.rs:223 | a number whose binary digits are placed from bit `lo` upwards is read back by `get_bits` |
| Bits.FieldAgree | src/dcf77.rs:223 | registers equal on a range read the same number from it with `get_bits` |
| Bits.Parity | src/dcf77.rs:249-252 | the `map(get_bit).fold(false, ^)` over a range is true exactly when the range holds an odd number of ones, so a false fold means even parity |
| Bits.ParityOneBit | src/dcf77.rs:249-252 | two registers that differ in one bit of a range have XOR folds that differ exactly by that bit |
| Bits.ParityAgree | src/dcf77.rs:249-252 | registers equal on a range have equal XOR folds over it |
| Bits.FlipBreaksParity | src/dcf77.rs:249-256 | flipping any single bit of a range flips its XOR fold, so the even-parity check then fails |
| Dcf77.New | src/dcf77.rs:53-61 | a new decoder has no framing and both registers clear, and satisfies the decoder invariant |
| Dcf77.StartMinute | src/dcf77.rs:42-50 | the assembled frame becomes the committed one, assembly restarts with an empty register, and the second counter is 0 |
| Dcf77.WriteBit | src/dcf77.rs:64-75 | the received bit is stored at the current second and nothing else of either register changes; the phase becomes "awaiting low" at the same second |
| Dcf77.NextSecond | src/dcf77.rs:89-100 | the counter advances by one with no cap, and both registers are unchanged |
| Dcf77.Abandon | src/dcf77.rs:78-87 | framing is lost: the frame under assembly is cleared and the committed frame kept (the two `From` impls for `Unknown` are identical) |
| Dcf77.Update | src/dcf77.rs:132-183 | the committed frame changes only on a falling edge inside the minute-gap window, which then starts second 0; every transition keeps the invariant that `next_bits` holds nothing at or above the current second |
| Dcf77.RisingWhileAwaitingHigh | src/dcf77.rs:141-152 | a rising edge while awaiting a data bit stores 0 below 150 ms and 1 from 150 to under 250 ms, changing only that bit; from 250 ms it drops framing |
| Dcf77.FallingAfterMinuteGap | src/dcf77.rs:161-172 | a falling edge with 1800 < ms < 2200 (both exclusive), from `Unknown` or `AwaitingLow`, commits `next_bits` and starts second 0 |
| Dcf77.FallingOrdinarySecond | src/dcf77.rs:169-175 | a falling edge outside that window after a data bit advances the counter and keeps both registers |
| Dcf77.OutOfOrderEdges | src/dcf77.rs:133-181 | a rising edge in `AwaitingLow` or a falling edge in `AwaitingHigh` drops framing, clears `next_bits` and keeps `current_bits`; in `Unknown`, edges other than a falling one after the gap change nothing |
| Dcf77.ReacquireCommitsZero | src/dcf77.rs:161-164 | since `next_bits` is 0 while framing is unknown, re-acquiring framing commits an all-zero frame |
| Dcf77.CheckParity | src/dcf77.rs:248-259 | the loop returns `None` iff every range has even parity; otherwise it returns the error of the first range that fails |
| Dcf77.ValidFrame | src/dcf77.rs:241-260 | `valid` fails with ParityErrorMinute iff bits 21..=28 have odd parity; with ParityErrorHour iff those pass and 29..=35 fail; with ParityErrorDate iff both pass and 36..=58 fail; and succeeds iff all three pass |
| Dcf77.ExtractNumber | src/dcf77.rs:222-226 | units plus ten times tens is below 16 + 10·2^tens, so the conversions to `u32`/`i32` never panic |
| Dcf77.Fields | src/dcf77.rs:228-234 | the five `extract_number` reads of minute, hour, day, month and year, with the live counter as the second; every value fits the source's `u32`/`i32` |
| Dcf77.FieldsAgree | src/dcf77.rs:228-234 | the five fields are read from bits 21..=58 only: registers equal there give equal fields |
| Dcf77.DecodeReadsBits21To58 | src/dcf77.rs:213-260 | `now` depends on the committed frame only through bits 21..=58: frames that agree there give the same result, error or time |
| Dcf77.Decode | src/dcf77.rs:213-239 | `now` returns WouldBlock iff framing is unknown; otherwise a parity failure is reported first; a result is returned only for a valid date and time, built from the committed frame's fields with the live counter as the second |
| Dcf77.DecodeRejects | src/dcf77.rs:236-238 | once parity passes, an invalid date is reported before an invalid time, and otherwise the fields are returned |
| Dcf77.DecodeAfterReacquire | src/dcf77.rs:161-164 | right after framing is re-acquired from `Unknown`, `now` reports InvalidDate (the committed frame is zero, so the month reads 0) |
| Dcf77.ZeroFieldsAndParity | src/dcf77.rs:222-226 | an all-zero register has even parity and zero fields over any range |
| Dcf77.Dcf77.Init | src/dcf77.rs:193-199 | a new `DCF77` holds a new decoder and the given inversion flag |
| Dcf77.Dcf77.UpdateState | src/dcf77.rs:201-211 | the edge is rising iff the pin level differs from `inverted`, and the state is replaced by the transition's result |
| Dcf77.Dcf77.Now | src/dcf77.rs:213-239 | `now` on the object blocks iff framing is unknown and otherwise agrees with `Decode` |
| Dcf77Frames.FrameParity | src/dcf77.rs:241-260 | a frame built for a time passes all three parity checks |
| Dcf77Frames.ExtractPlaced | src/dcf77.rs:222-226 | a decimal number placed as units at `fst` and tens at `fst+5` is read back exactly |
| Dcf77Frames.FrameData | src/dcf77.rs:228-234 | away from the three parity positions, a frame holds the data bits `now` reads |
| Dcf77Frames.MinuteHourRead | src/dcf77.rs:230-231 | minute and hour are read back from a frame built for them |
| Dcf77Frames.DayRead | src/dcf77.rs:232 | the day is read back |
| Dcf77Frames.YearRead | src/dcf77.rs:234 | the two-digit year is read back |
| Dcf77Frames.MonthRead | src/dcf77.rs:233 | the month is read back when its tens bit agrees with the year's lowest units bit, which it shares |
| Dcf77Frames.SharedBit | src/dcf77.rs:233-234 | for an encodable time, the month's tens digit equals the year's lowest units bit, the bit both fields read |
| Dcf77Frames.DecodeFrame | src/dcf77.rs:213-239 | round trip: a decoder whose committed frame agrees on bits 21..=58 with the frame built for `t` (bits 0..=20, such as the always-set bit 20, may hold anything), with its counter at `t.second`, returns exactly `t` |
| Dcf77Frames.MinuteBitFlipDetected | src/dcf77.rs:241-256 | flipping any one bit of 21..=28 of a correct frame makes `now` fail with ParityErrorMinute |
| Dcf77Frames.HourBitFlipDetected | src/dcf77.rs:241-256 | flipping any one bit of 29..=35 of a correct frame makes `now` fail with ParityErrorHour |
| Dcf77Frames.DateBitFlipDetected | src/dcf77.rs:241-256 | flipping any one bit of 36..=58 of a correct frame leaves the minute and hour checks passing and makes `now` fail with ParityErrorDate |
| Dcf77Frames.Run | src/dcf77.rs:201-211 | driving the decoder through a sequence of pin interrupts keeps the decoder invariant (a `None` result marks the edge where the source would panic) |
| Dcf77Frames.RunAppend | src/dcf77.rs:201-211 | running two edge sequences in turn is running their concatenation |
| Dcf77Frames.EdgesAppend | src/dcf77.rs:132-183 | the edges of consecutive seconds are the concatenation of each second's edges |
| Dcf77Frames.OrdinarySeconds | src/dcf77.rs:141-175 | data pulses separated by ordinary gaps store their bits from the current second upwards, advance the counter once per second, and leave the committed frame alone |
| Dcf77Frames.ReceiveMinute | src/dcf77.rs:132-183 | 59 data pulses ending with the minute gap commit exactly the 59 received bits, with bits 59-63 clear, and restart at second 0 |
| Dcf77Frames.TransmittedTimeIsDecoded | src/dcf77.rs:132-239 | end to end: a minute of pulses whose bits 21..=58 are those of the frame for `t` makes `now` return `t`, whatever bits 0..=20 carry |
| Dcf77Frames.MissedMinuteGapPanics | src/dcf77.rs:64-66 | the counter has no cap: after 64 ordinary seconds the next data pulse asks `set_bit` for bit 64, where the source panics |
| Display.WordIndex | src/display.rs:165-183 | `update_main_words` visits every main word, at a known position |
| Display.LineIndex | src/display.rs:195-208 | `update_driver_lines` visits every driver line, at a known position |
| Display.OrdersAreEnumerations | src/display.rs:165-208 | each word and each line is visited exactly once |
| Display.FirstFaultIs | src/display.rs:144-152 | the routine stops at the first write that fails |
| Display.FirstFaultAppend | src/display.rs:370-386 | running two write lists in turn stops in the first if it fails, and otherwise wherever the second stops |
| Display.StepAppend | src/display.rs:370-386 | running two stages one after the other, each aborting on error, is running their concatenation |
| Display.LevelAfterAppend | src/display.rs:144-152 | a pin's level after two write lists is its level after the second, starting from its level after the first |
| Display.LevelAfterLast | src/display.rs:144-152 | a pin ends at the level of the last write to it |
| Display.LevelAfterUntouched | src/display.rs:144-152 | a pin that is never written keeps its level |
| Display.AllLinesUpTo | src/display.rs:154-183 | collecting the lines word by word gives the union of the lit words' lines |
| Display.StateIndex | src/display.rs:371 | the table index `second / 5` is below 12 for any valid time |
| Display.HourIndex | src/display.rs:372 | the hour-word index `(second + next_hour) % 12` is below 12 |
| Display.MainWordLevel | src/display.rs:154-183 | after `update_main_words`, a main word's enable is low iff the phrase contains it; no other pin changes |
| Display.HourLevel | src/display.rs:185-193 | after `update_hour_words(h)`, hour enable i is high iff i ≠ h; no other pin changes |
| Display.HourWordsEnabled | src/display.rs:185-193 | for h < 12 exactly hour word h is enabled; for h ≥ 12 (as `test` uses) none is |
| Display.LineLevelAfter | src/display.rs:195-208 | after `update_driver_lines(mask)`, a line is high iff it is not in the mask (active low); no other pin changes |
| Display.PulseLevel | src/display.rs:378-381 | the fault-clear pulse leaves the enable high and no other pin changed |
| Display.SetTimeRenders | src/display.rs:370-386 | a completed `set_time(t)` leaves every pin at a level that depends only on `t`, so repeating it changes nothing |
| Display.SetTimeShows | src/display.rs:370-386 | this holds whatever was written before |
| Display.SetTimeRunIsFlat | src/display.rs:370-386 | stage by stage, `set_time` carries out its write list (main words, hour words, lines, pulse) up to the first failing write, and fails with that pin |
| Display.SetTimeRunShows | src/display.rs:370-386 | when `set_time` succeeds, every pin shows the rendered picture |
| Display.Line5Wiring | src/display.rs:247-339 | no main word uses line 5A or 5B, and every hour word uses 5A |
| Display.Line5AAlwaysActive | src/display.rs:247-339 | line 5A is driven low in every picture `set_time` draws |
| Display.MaskIsLitWiring | src/display.rs:374 | the mask holds exactly the lines of the lit main words and of the chosen hour word |
| Display.FiveMinuteTable | src/display.rs:44-101 | the table has 12 phrases; `next_hour` is false for indices 0-4 and true for 5-11 |
| Display.OffStateDark | src/display.rs:39-42 | `OFF_STATE` needs no lines and leaves every main-word enable high |
| Display.InitLevels | src/display.rs:355-360 | a completed `init` leaves the enable high, all main words off, hour word 12 enabled, and all lines active |
| Display.InitRunIsFlat | src/display.rs:355-362 | stage by stage, `init` carries out its write list up to the first failing write, and fails with that pin |
| Display.InitRunShows | src/display.rs:355-362 | when `init` succeeds, the pins show that picture |
| Display.TestLevels | src/display.rs:388-402 | a completed `test` leaves hour words 12 and 2 enabled on lines 5A and 5B, and everything else off |
| Display.TestShows | src/display.rs:388-402 | this holds whatever was written before |
| Display.TestRunIsFlat | src/display.rs:388-402 | stage by stage, `test` carries out its write list up to the first failing write, and fails with that pin |
| Display.TestRunShows | src/display.rs:388-402 | when `test` succeeds, the pins show that picture |
| Display.WordDisplay.constructor | src/display.rs:244-353 | a new display believes it shows 00:00:00, and nothing has been written |
| Display.WordDisplay.SetPin | src/display.rs:144-152 | a write to a faulty pin fails and changes nothing; otherwise it is appended to the hardware log |
| Display.WordDisplay.Wait | src/display.rs:380 | `delay` changes no pin |
| Display.WordDisplay.UpdateMainWords | src/display.rs:165-183 | writes each main word's enable in order and stops at the first failure; on success it returns exactly the union of the lit words' lines |
| Display.WordDisplay.UpdateHourWords | src/display.rs:185-193 | writes hour enable i := (i ≠ h) for i = 0..11 in order, stopping at the first failure |
| Display.WordDisplay.UpdateDriverLines | src/display.rs:195-208 | writes each line := not in mask, in order, stopping at the first failure |
| Display.WordDisplay.ClearFault | src/display.rs:378-381 | enable low, delay, enable high, stopping at the first failure |
| Display.WordDisplay.Init | src/display.rs:211-363 | carries out `init`'s stages up to the first failure; on success the pins show the initial picture |
| Display.WordDisplay.NeedsUpdate | src/display.rs:365-368 | true when the hour differs; with the same hour, true exactly when the shown minute and the new second differ modulo 5 |
| Display.WordDisplay.SetTime | src/display.rs:370-386 | carries out the stages in order and aborts at the first pin error; `current` becomes `t` only when every stage succeeded; on success every pin shows the picture for `t` |
| Display.WordDisplay.Test | src/display.rs:388-402 | carries out `test`'s stages up to the first failure; on success only hour words 12 and 2 are lit |
| Display.FirstFaultyMinutePin | src/display.rs:406-421 | the first minute pin whose write fails, with every earlier one sound |
| Display.MinuteThermometer | src/display.rs:416-421 | pins 0 and 1 are never high; the high pins are closed upwards; they are {2,3}, {3} or none as `minute % 5` is 0, 1 or more |
| Display.MinuteDisplay.constructor | src/display.rs:407 | the four pins start low |
| Display.MinuteDisplay.SetPin | src/display.rs:144-152 | a write to a faulty minute pin fails and changes nothing; otherwise exactly that pin changes |
| Display.MinuteDisplay.Init | src/display.rs:406-414 | drives the pins low in order, failing at the first faulty pin; all four pins end low |
| Display.MinuteDisplay.SetTime | src/display.rs:416-421 | pins before the first faulty one get `minute % 5 + 1 < i`; the others keep their level; fails with the first faulty pin |
| Serial.Accepted | src/main.rs:48-52 | the bytes kept are a prefix of the text: all of it if it fits, otherwise as many as there is room for |
| Serial.AcceptedAll | src/main.rs:48-55 | the whole text is kept iff it fits in the free space |
| Serial.Queue.constructor | src/main.rs:37-41 | a new queue is empty |
| Serial.Queue.Enqueue | src/main.rs:49 | appends the byte iff the queue is not full, and otherwise hands it back unchanged |
| Serial.Queue.Dequeue | src/main.rs:231 | removes and returns the oldest byte, or `None` when empty |
| Serial.SerialBuffer.constructor | src/main.rs:37-41 | `SerialBuffer::new` yields an empty queue of capacity 32 |
| Serial.SerialBuffer.WriteStr | src/main.rs:44-56 | returns Ok iff the whole text fits. The queue becomes the old contents followed by the accepted prefix: all of it on Ok, up to the first byte that did not fit on Err, with no rollback. The empty text gives Ok and no change. The length never exceeds the capacity |
| Serial.Uart.Write | src/main.rs:232 | the UART sends the byte after all earlier ones |
| Serial.ProcessSerial | src/main.rs:229-234 | the task sends every queued byte in FIFO order and ends with the queue empty |

## Left out

- RTIC plumbing in `src/main.rs` is not modelled. This covers peripheral and pin set-up, EXTI registers, the `rtc` and `dcf77_pin` tasks, `idle`, and task priorities. It is hardware glue and interrupt concurrency.
- The decoder's hardware timer and pin read are inputs: `timer.restart()` becomes the elapsed milliseconds, and the pin level a boolean. `replace_with` is one assignment. `hprintln` is unused.
- `chrono` is replaced by explicit predicates. `from_ymd_opt` is a proleptic Gregorian date check (`ValidDate`). `and_hms_opt` accepts exactly h < 24, m < 60, s < 60, which `ValidTime` states; the decoder's counter can reach 59 to 64, and those seconds are rejected as InvalidTime.
- Dcf77.Dcf77.UpdateState: requires that the transition does not reach `set_bit` with an index of 64 or more, where the source panics. `Dcf77Frames.MissedMinuteGapPanics` shows that this state is reachable.
- `DCF77StateWrapper::current_bits` is the `currentBits` field of the parser value.
- The word display's GPIO hardware is a write log. The HAL's `Pin::Error` becomes `PinFault(pin)` for the pins in a fixed `faulty` set. `delay(200)` is a `Delay` event, not real time.
- `WordDisplay::init` takes the pin handles and builds the struct. The model keeps only the wiring (`WordLines`, `HourLines`) and the writes that follow.
- `NaiveTime` in the display is a `Time` record of hour, minute and second; only its field accessors are used.
- `SerialBuffer::write_str` takes the bytes of the text. The UTF-8 encoding of `&str` is not modelled.
- `heapless::spsc::Queue` internals (ring indices, the single-producer/single-consumer split) are modelled as a sequence with a capacity.
- The UART write in `process_serial` is blocking and its error unwraps to a panic. The model treats it as always succeeding.
- `src/brightness.rs` is not part of this model. It is a PWM/ADC wrapper whose only logic is `max_duty / 20`. The dimming ramps it calls are not defined in the sources.
- `src/cli.rs` is not part of this model. It is an unfinished stub, and its parser always fails.

Kept as written:

- `extract_number` reads each tens field at `fst + 5`, one bit after the units. In the standard DCF77 layout the tens follow the units directly. So the minute's tens include the P1 parity bit 28, and the month's tens bit 50 is also the year's lowest units bit. A frame for a given time exists only when these agree (`Dcf77Frames.Encodable`).
- The year is the raw two-digit value.
- The minute-gap window is exclusive at both ends: a gap of exactly 1800 ms or 2200 ms is an ordinary second. The gap is timed from the rising edge that ends the last pulse, so when bit 58 is a 1 (a 200 ms pulse) the nominal gap measures exactly 1800 ms and is missed. The counter then runs on past 58, and five seconds later a data pulse asks `set_bit` for bit 64, where the source panics (`Dcf77Frames.MissedMinuteGapPanics`).
- `set_time` and `needs_update` derive the phrase and the hour word from `time.second()`, not from the minute and hour, and the model keeps this. `needs_update` compares the current minute modulo 5 with the new second modulo 5.
- `init` leaves hour word 12 enabled and every line active.
