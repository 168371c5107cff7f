# PicoCalc emulator: verified models of its wire protocols and its scenario runner

The PicoCalc emulator stands in for a board: an SPI PSRAM, an ST7365P panel, an SD card, an I2S
receiver, a keyboard controller, a character display and a PLL, each a small deterministic state
machine fed with pin levels, bytes or register writes. A harness runs firmware against that board,
polls a script of inputs and screen checks in virtual time, and judges the run. This project models
those machines and that harness in Dafny and proves what they are for.

The project is organised by component. A `...Spec` file gives the machine as a value with one function per
stimulus; a file with a class gives the object whose fields the program updates in place, each
method proved against that specification; a `...Theorems` file states what holds over whole runs.

| component | files |
|---|---|
| bits, bytes and shift registers; division with remainder; pin words | `Bits.dfy`, `Arith.dfy`, `PinWords.dfy` |
| SPI PSRAM | `PsramSpec.dfy`, `Psram.dfy`, `PsramTheorems.dfy`, `PsramAnswers.dfy` |
| ST7365P panel and its byte-level transport | `PanelSpec.dfy`, `Panel.dfy`, `PanelRaster.dfy`, `PanelCopy.dfy`, `PanelFormats.dfy`, `PanelCounts.dfy` |
| bit-level panel transport | `LcdWire.dfy`, `LcdWireTheorems.dfy` |
| SD card and its wire; FAT32 formatter | `SdSpec.dfy`, `SdCard.dfy`, `SdTheorems.dfy`, `SdStart.dfy`, `Fat32.dfy`, `FatReader.dfy` |
| I2S receiver | `I2s.dfy`, `I2sTheorems.dfy` |
| SHA-256 | `Sha256.dfy`, `Sha256Constants.dfy` |
| keyboard controller | `KeyboardSpec.dfy`, `Keyboard.dfy`, `KeyboardTheorems.dfy`, `KeyboardKeys.dfy` |
| virtual clock | `VirtualClock.dfy` |
| scenario engine | `ScenarioSpec.dfy`, `Scenario.dfy`, `ScenarioTheorems.dfy`, `ScenarioKeys.dfy`, `ScenarioTyping.dfy`, `ScenarioSpans.dfy`, `PanelWatch.dfy` |
| verdict, run loop, a whole run | `Verdict.dfy`, `RunSpec.dfy`, `RunLoop.dfy`, `RunTheorems.dfy`, `Harness.dfy` |
| character display | `CharLcd.dfy`, `CharLcdTheorems.dfy` |
| PLL lock | `Pll.dfy` |
| RV32I blinky image | `Rv32.dfy`, `Rv32Machine.dfy`, `Blinky.dfy`, `BlinkyTheorems.dfy` |

Main results, hardest first:

- **The pin-level PSRAM refines a machine over frames of bytes** (`PsramChip.Psram.Tick`): for every
  trace of pin words the registers, the buffer, the reset arming, the counters and the level on MISO
  are those of a pure fold over the trace cut into CS-low frames. A Write frame followed by a Fast
  Read frame reads the data back bit for bit, after exactly the configured number of delay clocks.
  Each wire's samples are tied to the words of the GPIO port: a level is read high exactly at the
  pins that are set, and a word made of a sample shows that sample (`PinWords.dfy`).
- **The two panel transports are indistinguishable**: bytes clocked bit by bit reach the panel exactly
  as direct calls do, every byte read is the reply to the previous one, and this lag is exactly the
  RAMRD dummy byte of the other transport. Reading any region, swapping bytes 0 and 2 of each triple
  and writing it elsewhere copies it exactly, whether or not the two windows overlap; in
  RGB565 a window reads back as the bytes written to it. COLMOD alone decides which of the two holds
  (`PanelFormats.dfy`): both are proved of the command stream that starts with it.
- **The SD card is a map from block number to 512 bytes** over every sequence of complete exchanges,
  and the driver's bytes bring it there from power-on (`SdStart.CardComesUp`). The FAT32 formatter
  accepts exactly the cards from 66 599 sectors to the 32-bit limit, its sizing loop ends within two
  passes, and a reader that follows the boot sector finds the layout, the root directory's cluster
  ended, every other cluster free, and FSInfo in agreement (`FatReader.dfy`).
- **A judged pass means what it says, and every run that deserves one gets it**
  (`Harness.RunAndJudge`). The run loop is accounted for quantum by quantum: every poll of the
  scenario is what this machine showed after some number of quanta, on the loop's schedule and at
  its virtual time; the outcome is that of the first turn at which a stop condition held, the
  scenario was done, or the machine crashed or stalled. A pass then means that every step passed and
  ended at the first poll at which it was over, that every condition waited for or asserted held of
  this machine, that every text a step looked for and every marker is in its output, that the run
  took at least the sum of its waits and of its typing, that the keys sent are the script without
  exactly the events that early polls lost, and that every key, those of the command line included,
  was read, is waiting, or was waiting at a reset. Below it: virtual time never decreases and trails
  exact time by less than k + 1 ns after k rate changes.
- **Every key event has exactly one fate, and each fate its cause**: an event is delivered exactly
  when a poll took it as the oldest one waiting, dropped exactly when it met or made way at a full
  queue, and cleared exactly when it was waiting at a reset (`KeyboardTheorems.FateIffCause`).
- **SHA-256 with its ad-hoc tail equals FIPS 180-4**; **I2S frames decode exactly from any receptive
  state**; **any sampling rate drives the character display**; **LOCK reads one exactly when the loop
  has settled**; **the blinky image toggles once every 4097 instructions for ever while the other
  hart parks**.

Where an unconditional claim is false of the code, the code is kept and the exact condition proved:

- A `key_events` step takes an event off its queue before it looks at the time
  (crates/picocalc-harness/src/scenario.rs:1250-1253), so a poll before the step's own deadline loses
  one event and the step still passes. `ScenarioKeys.PassedSendsScript` says exactly when nothing is
  lost. The conversion of a deadline to cycles rounds down, so the loop itself polls early:
  `RunTheorems.LosesNothingIff` says exactly which runs lose a key, those in which a replay is polled
  at the very cycle its deadline converts to while that deadline is off the cycle grid, and
  `Harness.LoopSchedulingCanLoseKey` is such a run, on schedule to its last poll and passed.
- Releasing chip select does not cancel an announced write
  (crates/picocalc-board/src/sdcard.rs:373-378), although the comment there says the exchange is
  abandoned. The card then is no block map any more: an idle card behaves as one over every sequence
  of exchanges exactly when no write is pending and no application command announced
  (`SdTheorems.BlockMapIff`). After one more read
  everything is swallowed up to a start token, and the 512 bytes behind it overwrite the block of the
  abandoned write (`SdTheorems.AbandonedWriteTakesWhatFollows`), even if the token is an argument byte
  of a read (`SdTheorems.ReadOverwrites`).
- The I2S receiver is out of step for ever if it has taken fifteen bits when a transmission starts
  with word select low: it ends the frame aligned exactly when it had not
  (`I2sTheorems.AlignedIffNotFifteen`), and if it had, it pairs every right sample with the left
  sample of the frame before, the second one with a word made of bits of both samples of the first,
  however long the stream (`I2sTheorems.NeverRealigns`). Fifteen bit
  clocks after reset lead there (`I2sTheorems.FifteenFromReset`).
- The character display sees a phantom bit when chip select falls with the clock high and the level
  is sampled again; `CharLcdTheorems.RepeatSafeIff` is the exact condition.
- The comment on the panel's byte transfer (crates/picocalc-board/src/st7365p.rs:314-315) says the
  returned byte is always zero; the code answers RAMRD with pixel bytes, and the model follows the code.

## Model

| member | source | states |
|---|---|---|
| `PsramChip.Psram.constructor` | crates/picoem-devices/src/psram.rs:204-250 | a new chip is idle with a zeroed 8 MiB buffer, standing for the empty trace |
| `PsramChip.Psram.Tick` | crates/picoem-devices/src/psram.rs:315-356 | after any trace of pin words the whole object is what the byte-level machine makes of the frames in that trace, and the returned level is the one that machine drives; chip-select falls are counted |
| `PsramChip.Psram.BeginFrame` | crates/picoem-devices/src/psram.rs:360-373 | a falling chip select opens a new empty frame and forgets the command under way, not the buffer |
| `PsramChip.Psram.EndFrame` | crates/picoem-devices/src/psram.rs:375-389 | a rising chip select closes the frame: a partial byte is discarded and nothing of the chip state changes |
| `PsramChip.Psram.OnSckRising` | crates/picoem-devices/src/psram.rs:393-403 | one more MOSI bit enters the frame, most significant first; the eighth completes a byte and is acted upon |
| `PsramChip.Psram.OnSckFalling` | crates/picoem-devices/src/psram.rs:405-442 | one more falling edge: the delay counts down, then the next answer bit is presented and every eighth edge fetches the next byte |
| `PsramChip.Psram.ConsumeByte` | crates/picoem-devices/src/psram.rs:446-498 | one more whole byte has the effect the byte-level machine gives it in every one of the nine phases |
| `PsramChip.Psram.HandleCommand` | crates/picoem-devices/src/psram.rs:500-552 | the command byte selects the phase; a reset works only when armed, and every command but Reset Enable disarms |
| `PsramChip.Psram.HandleAddrByte` | crates/picoem-devices/src/psram.rs:554-568 | three bytes, most significant first, make the address, reduced modulo 8 MiB |
| `PsramChip.Psram.StoreByte` | crates/picoem-devices/src/psram.rs:450-456 | a data byte lands at the next address, wrapping at the end of the buffer |
| `PsramChip.Psram.AdvanceReadByte` | crates/picoem-devices/src/psram.rs:582-588 | the next byte of a read comes from the address after the last one, wrapping |
| `PsramChip.Psram.AdvanceIdByte` | crates/picoem-devices/src/psram.rs:575-580 | the identity bytes come in order and then zeros |
| `PsramTheorems.ArmedByLastCommand` | crates/picoem-devices/src/psram.rs:500-552 | over any frames the chip is armed exactly when the last completed command byte was 0x66 |
| `PsramTheorems.ResetTakesEffect` | crates/picoem-devices/src/psram.rs:500-552 | a frame is dropped to idle by a reset exactly when its command is 0x99 and the previous completed command was 0x66 |
| `PsramTheorems.DelayOnlyShiftsAnswer` | crates/picoem-devices/src/psram.rs:264-268 | the configured delay and identity change neither the buffer, the arming, the write count nor the command counters |
| `PsramTheorems.StoredReadsBack` | crates/picoem-devices/src/psram.rs:450-456 | up to 8 MiB of data written from any address is all there afterwards, addresses taken modulo 8 MiB |
| `PsramTheorems.StoredLeavesTheRest` | crates/picoem-devices/src/psram.rs:450-456 | a cell that no written byte maps to is unchanged |
| `PsramTheorems.FastReadSamples` | crates/picoem-devices/src/psram.rs:405-442 | what the master samples at any data clock of a Fast Read frame: zero during the delay, then the bits of the buffer from the address on |
| `PsramTheorems.WriteThenFastRead` | crates/picoem-devices/src/psram.rs:405-588 | a Write frame and then a Fast Read frame at an equal address sample the delay zeros and then exactly the data, most significant bit first |
| `PsramAnswers.WrittenIsRead` | crates/picoem-devices/src/psram.rs:405-588 | the same with every byte named: 0x02 and a three-byte address write, 0x0B and an address equal modulo 8 MiB read back |
| `PsramAnswers.ReadIdSamples` | crates/picoem-devices/src/psram.rs:405-580 | what the master samples in a Read ID frame: zero during the delay, then the eight identity bytes, most significant bit first, and zeros behind them |
| `Bits.LevelsOfWord` | crates/picoem-devices/src/psram.rs:318-320 | a word in which exactly some pins are set reads high at exactly those pins |
| `PinWords.PsramSeesWave` | crates/picoem-devices/src/psram.rs:315-320 | driven on its three pins, whatever the other pins carry, any waveform is the one the memory samples |
| `PanelDevice.St7365p.constructor` | crates/picocalc-board/src/st7365p.rs:223-272 | power-up state; undriven pads read as chip select and reset asserted |
| `PanelDevice.St7365p.SetControlLines` | crates/picocalc-board/src/st7365p.rs:303-312 | the lines are remembered and a release of reset re-initialises the controller and counts a pulse |
| `PanelDevice.St7365p.TransferByte` | crates/picocalc-board/src/st7365p.rs:316-332 | one byte is a command or a datum by the DC line, ignored when deselected or in reset; RAMRD data clocks answer pixel bytes |
| `PanelDevice.St7365p.NextRamrdByte` | crates/picocalc-board/src/st7365p.rs:342-368 | the readout steps through the packed bytes of the pixel under the pointer and then moves the pointer on; its index stays inside the format |
| `PanelDevice.St7365p.CommandByte` | crates/picocalc-board/src/st7365p.rs:382-438 | each opcode starts its parameters, resets the pixel in flight and is counted; unknown ones are counted by opcode |
| `PanelDevice.St7365p.DataByte` | crates/picocalc-board/src/st7365p.rs:440-486 | parameter bytes set windows, address mode and pixel format at the right index; others are pixels or orphans |
| `PanelDevice.St7365p.PixelByte` | crates/picocalc-board/src/st7365p.rs:488-505 | two or three bytes make a pixel in the current format; the buffer index stays in bounds |
| `PanelDevice.St7365p.StorePixel` | crates/picocalc-board/src/st7365p.rs:507-516 | a pixel is written under the pointer or counted as dropped, and the pointer advances |
| `PanelDevice.St7365p.AdvancePointer` | crates/picocalc-board/src/st7365p.rs:521-532 | column first, then row, then back to the window origin |
| `PanelDevice.St7365p.PowerOnReset` | crates/picocalc-board/src/st7365p.rs:544-560 | what a reset forgets, and that counters survive it |
| `PanelDevice.St7365pWire.Transfer` | crates/picocalc-board/src/wire.rs:33-44 | the byte-level transport hands the low byte of the word to the panel |
| `PanelDevice.St7365pWire.ObservePins` | crates/picocalc-board/src/wire.rs:46-54 | pad levels become control lines |
| `PinWords.PanelLinesOfWord` | crates/picocalc-board/src/wire.rs:46-54 | the panel is selected and reset on low pins 13 and 15 and takes data on a high pin 14 |
| `PanelRaster.PointerAfter` | crates/picocalc-board/src/st7365p.rs:521-532 | for every window, reversed ones included, after n pixels the pointer is at column n mod W and row (n div W) mod H of it |
| `PanelRaster.PaintWalks` | crates/picocalc-board/src/st7365p.rs:507-532 | whatever is painted, the pointer walks the window and written plus dropped grows by the number of pixels |
| `PanelRaster.PaintedLast` | crates/picocalc-board/src/st7365p.rs:507-532 | a cell holds the last pixel that landed on it |
| `PanelRaster.PaintedElsewhere` | crates/picocalc-board/src/st7365p.rs:507-532 | a cell on which no pixel landed is unchanged |
| `PanelRaster.FullPass` | crates/picocalc-board/src/st7365p.rs:507-532 | after one full pass a window shows the pixels in raster order and nothing outside it changed |
| `PanelCopy.SwappedReadback` | crates/picocalc-board/src/st7365p.rs:138-143 | reading RGB666, swapping bytes 0 and 2 of every triple and unpacking gives the pixels back |
| `PanelCopy.WrittenReadsBack` | crates/picocalc-board/src/st7365p.rs:342-516 | in RGB565, over the whole command stream, a window on the screen filled by RAMWR reads back by RAMRD, behind the optional dummy byte, as the very bytes written |
| `PanelCopy.KeptReadsBack` | crates/picocalc-board/src/st7365p.rs:342-516 | and any window reads back as what it kept: pixels beside the screen come back as zero |
| `PanelCopy.ReadRegion` | crates/picocalc-board/src/st7365p.rs:342-378 | a RAMRD data phase answers the optional dummy byte and then the packed region in raster order, changing no pixel |
| `PanelCopy.WriteRegion` | crates/picocalc-board/src/st7365p.rs:382-516 | a RAMWR data phase paints the unpacked colours from the window origin |
| `PanelCopy.WindowSet` | crates/picocalc-board/src/st7365p.rs:440-465 | CASET and RASET parameter bytes set the window and nothing of the picture |
| `PanelCopy.CopyIsExact` | crates/picocalc-board/src/st7365p.rs:342-532 | over the whole command stream every cell of the target window takes the colour of its place in the source window and no other cell changes |
| `PanelFormats.ColmodSet` | crates/picocalc-board/src/st7365p.rs:470-476 | over the command stream COLMOD sets two-byte pixels for low bits 5 and three-byte pixels for low bits 6, and otherwise leaves the format |
| `PanelFormats.TwoBytesAPixel` | crates/picocalc-board/src/st7365p.rs:488-505 | after COLMOD with low bits 5 every two RAMWR bytes are one pixel, the high byte first |
| `PanelFormats.ThreeBytesAPixel` | crates/picocalc-board/src/st7365p.rs:488-505 | after COLMOD with low bits 6 every three are one: red, green and blue in the top bits of each |
| `PanelFormats.ThreeBytesFromReset` | crates/picocalc-board/src/st7365p.rs:544-560 | after a reset by pin or by command the screen is black and three bytes make a pixel |
| `PanelFormats.ReadsBackFromColmod` | crates/picocalc-board/src/st7365p.rs:342-516 | from any state, COLMOD 5 and a window on the screen: the bytes written are the bytes read |
| `PanelFormats.CopyFromColmod` | crates/picocalc-board/src/st7365p.rs:342-532 | from any state, COLMOD 6: the copy between two windows is exact |
| `PanelFormats.BringUp` | crates/picocalc-board/src/st7365p.rs:382-438 | sleep, address mode, inversion and display each follow their own opcode |
| `PanelCounts.CommandsCounted` | crates/picocalc-board/src/st7365p.rs:382-438 | over any commands each is counted as often as it came, unknown opcodes included, and only the two for inversion are not |
| `PanelCounts.OrphansCounted` | crates/picocalc-board/src/st7365p.rs:440-486 | data without a command is counted as orphaned and does nothing else |
| `PanelCounts.OrphansAfterReset` | crates/picocalc-board/src/st7365p.rs:440-560 | and so is whatever data follows a reset |
| `PanelCounts.Deaf` | crates/picocalc-board/src/st7365p.rs:316-320 | held in reset or not selected, the panel hears nothing and answers zeros |
| `PanelCounts.FreshPanel` | crates/picocalc-board/src/st7365p.rs:223-312 | from power-up it is black, has counted nothing and is deaf until reset is let go, which counts as one pulse |
| `LcdWire.LcdPioWire.constructor` | crates/picocalc-board/src/lcd_pio_wire.rs:73-90 | a new wire turns the RAMRD dummy byte off and waits for a first snapshot |
| `LcdWire.LcdPioWire.Tick` | crates/picocalc-board/src/lcd_pio_wire.rs:98-163 | for any two pad words the shift registers stand for the same link: bits of the byte in flight, reply going out, edge counts, and the level driven on MISO while selected |
| `PinWords.PanelPadsOfWord` | crates/picocalc-board/src/lcd_pio_wire.rs:98-118 | clock, data, select, data/command and reset are pins 10, 11, 13, 14 and 15 of the pad word |
| `LcdWireTheorems.WholeByte` | crates/picocalc-board/src/lcd_pio_wire.rs:118-160 | eight clocked bits, most significant first, are one byte handed to the panel, and its reply is loaded |
| `LcdWireTheorems.CutShort` | crates/picocalc-board/src/lcd_pio_wire.rs:118-128 | a byte cut short by chip select never reaches the panel and is counted as partial, exactly if it had a bit |
| `LcdWireTheorems.SampledBit` | crates/picocalc-board/src/lcd_pio_wire.rs:128-160 | at the rise of bit j the master samples bit j of the reply loaded before this byte |
| `LcdWireTheorems.WireIsDirect` | crates/picocalc-board/src/lcd_pio_wire.rs:98-163 | for every list of (DC, byte) pairs the panel ends as after direct calls |
| `LcdWireTheorems.ReadsPreviousReply` | crates/picocalc-board/src/lcd_pio_wire.rs:98-163 | each byte read on MISO is the panel reply to the previous byte |
| `LcdWireTheorems.RamrdStreamsAgree` | crates/picocalc-board/src/st7365p.rs:299-368 | the dummy byte of the one transport and the one-byte lag of the other cancel for every read |
| `LcdWireTheorems.SameStreamBothWays` | crates/picocalc-board/src/lcd_pio_wire.rs:98-163 | after RAMRD a master sees bit for bit the same stream on the bit-level wire (dummy off) and on the byte-level hook (dummy on) |
| `SdDevice.SdCard.Deselect` | crates/picocalc-board/src/sdcard.rs:374-378 | releasing chip select drops the exchange in flight but keeps a pending write |
| `SdDevice.SdCard.Transfer` | crates/picocalc-board/src/sdcard.rs:381-457 | one byte exchanged in each of the six phases; the write buffer holds exactly 512 bytes whenever it is committed |
| `SdDevice.SdCard.CommitWrite` | crates/picocalc-board/src/sdcard.rs:463-471 | the buffered block replaces the addressed one when it is in range; the write is no longer pending |
| `SdDevice.SdCard.BeginReply` | crates/picocalc-board/src/sdcard.rs:477-552 | the answer to each command and application command, with its effect on the session |
| `SdDevice.SdCard.QueueBlockRead` | crates/picocalc-board/src/sdcard.rs:554-569 | a block in range is queued behind its token with two check bytes; out of range nothing is queued |
| `SdDevice.SdCardWire.ObservePins` | crates/picocalc-board/src/sd_wire.rs:49-56 | the card is deselected exactly on a rising chip select |
| `PinWords.CardSelectOfWord` | crates/picocalc-board/src/sd_wire.rs:49-56 | chip select is pin 17 |
| `SdDevice.SdCardWire.Transfer` | crates/picocalc-board/src/sd_wire.rs:42-47 | the low byte of the word goes to the card and its answer comes back |
| `SdTheorems.ArgOf` | crates/picocalc-board/src/sdcard.rs:473-475 | every 32-bit block number has argument bytes that the card decodes back to it |
| `SdStart.NoiseIgnored` | crates/picocalc-board/src/sdcard.rs:381-400 | between commands only bytes 0x40 to 0x7F are heard |
| `SdStart.GoesIdle` | crates/picocalc-board/src/sdcard.rs:508-509 | CMD0 answers idle |
| `SdStart.Echoes` | crates/picocalc-board/src/sdcard.rs:510-517 | CMD8 answers the voltage nibble and the check byte it was sent |
| `SdStart.Announced` | crates/picocalc-board/src/sdcard.rs:531-536 | CMD55 makes the next command an application command and answers idle until the card is initialised |
| `SdStart.Polled` | crates/picocalc-board/src/sdcard.rs:486-497 | ACMD41 answers idle while the card is busy and then ready, which initialises it |
| `SdStart.TellsCapacity` | crates/picocalc-board/src/sdcard.rs:537-545 | CMD58 answers powered up and high capacity: the driver addresses in blocks |
| `SdStart.Accepts` | crates/picocalc-board/src/sdcard.rs:518-549 | CMD16 and every unknown command are answered ready, the unknown ones noted |
| `SdStart.TallyCounts` | crates/picocalc-board/src/sdcard.rs:571-581 | the tally of an unknown command counts every one, up to the end of its 32 bits |
| `SdStart.CardComesUp` | crates/picocalc-board/src/sdcard.rs:381-552 | from power-on the bytes of the driver get exactly these replies and leave the card initialised, idle, and its medium as it was |
| `SdStart.ThenABlockMap` | crates/picocalc-board/src/sdcard.rs:381-569 | and from there on it is a map from block number to 512 bytes |
| `SdTheorems.FrameAnswered` | crates/picocalc-board/src/sdcard.rs:381-552 | a command frame from an idle card is taken in silence and then answered |
| `SdTheorems.ReadExchange` | crates/picocalc-board/src/sdcard.rs:381-569 | a complete CMD17 exchange returns R1, the token, the block and two check bytes and changes no block |
| `SdTheorems.WriteExchange` | crates/picocalc-board/src/sdcard.rs:381-552 | a complete CMD24 exchange replaces exactly the addressed block, answers data-accepted and leaves the card ready |
| `SdTheorems.CardIsABlockMap` | crates/picocalc-board/src/sdcard.rs:381-569 | after any sequence of complete exchanges every block is the one last written there |
| `SdTheorems.ReadReturnsLastWritten` | crates/picocalc-board/src/sdcard.rs:381-569 | at any place in any sequence of exchanges a read returns the block last written to its address before, or the initial contents |
| `SdTheorems.ReadEndsIdleIff` | crates/picocalc-board/src/sdcard.rs:374-457 | from an idle card a read ends idle exactly when no write is pending |
| `SdTheorems.OnlyDataSettlesAWrite` | crates/picocalc-board/src/sdcard.rs:374-471 | over any bytes and chip-select releases, as long as no block of data is completed, the medium is unchanged and an announced write stays pending |
| `SdTheorems.BlockMapIff` | crates/picocalc-board/src/sdcard.rs:374-569 | an idle card behaves as a block map over every sequence of complete exchanges exactly when no write is pending and no application command announced |
| `SdTheorems.AbandonedWriteTakesWhatFollows` | crates/picocalc-board/src/sdcard.rs:374-471 | after a CMD24 abandoned by chip select and one read, everything up to a start token is swallowed and the 512 bytes behind it replace the abandoned block |
| `SdTheorems.ReadOverwrites` | crates/picocalc-board/src/sdcard.rs:374-569 | in that state a read whose last argument byte is 0xFE writes its own check byte and the polls that follow over the abandoned block |
| `Fat32.SizeTables` | crates/picocalc-board/src/sdcard.rs:281-299 | the sizing loop ends within two passes, with tables that cover every cluster and the two reserved entries, and refuses only when no layout fits |
| `Fat32.RequiredIsLeast` | crates/picocalc-board/src/sdcard.rs:290-291 | the table size asked for holds the four bytes of every entry, and one sector fewer would not |
| `Fat32.FormatFat32` | crates/picocalc-board/src/sdcard.rs:265-366 | exactly the cards from 66 599 sectors to the 32-bit limit are formatted, the card then holds exactly the image, and a refused card is untouched |
| `Fat32.WriteFront` | crates/picocalc-board/src/sdcard.rs:306-351 | boot sector, FSInfo and their backups at sectors 6 and 7 are written in place |
| `Fat32.WriteTables` | crates/picocalc-board/src/sdcard.rs:353-365 | both tables start with the media descriptor, the end mark and the root cluster, and all else is blank |
| `Fat32.ImageSectors` | crates/picocalc-board/src/sdcard.rs:306-365 | what stands in the sectors and table heads a reader looks at |
| `Fat32.BootDecodes` | crates/picocalc-board/src/sdcard.rs:307-334 | the fields decoded from the boot sector are the layout, and the signature is there |
| `Fat32.MountsAsLaidOut` | crates/picocalc-board/src/sdcard.rs:265-366 | both boot sectors decode to a FAT32 volume whose reserved area, tables and clusters are disjoint and end at the last sector, with a table entry for every cluster |
| `FatReader.TablesRead` | crates/picocalc-board/src/sdcard.rs:353-359 | in both tables, read where the boot sector says, the first entry carries its media byte, the root directory ends its chain, and every cluster behind it is free |
| `FatReader.InfoRead` | crates/picocalc-board/src/sdcard.rs:336-351 | FSInfo, where the boot sector says, is signed, counts the free entries of the tables and names the first of them; the backups are where the boot sector says |
| `FatReader.RootIsEmpty` | crates/picocalc-board/src/sdcard.rs:361-365 | the cluster of the root directory is all zeros |
| `FatReader.BootIsNamed` | crates/picocalc-board/src/sdcard.rs:307-334 | the jump, the geometry fields, the serial number, and the names of maker, label and type |
| `I2sDevice.I2sCapture.Tick` | crates/picoem-devices/src/i2s_capture.rs:159-178 | one pad word: the word-select edge is handled before the bit clock |
| `PinWords.ReceiverSees` | crates/picoem-devices/src/i2s_capture.rs:159-162 | driven on its three pins, any sample is the one the receiver sees |
| `I2sDevice.I2sCapture.OnLrclkEdge` | crates/picoem-devices/src/i2s_capture.rs:180-230 | a full fifteen-bit window waits for its last bit; any other window drops the word and both waiting halves |
| `I2sDevice.I2sCapture.OnBclkRising` | crates/picoem-devices/src/i2s_capture.rs:232-288 | the bit goes to the word that still lacks its last one, or else to the current word; completed halves pair into frames |
| `I2sTheorems.FrameDecoded` | crates/picoem-devices/src/i2s_capture.rs:159-288 | one transmitted frame from any receptive state is appended exactly and leaves the decoder aligned |
| `I2sTheorems.StreamDecoded` | crates/picoem-devices/src/i2s_capture.rs:159-288 | any list of stereo pairs sent with the waveform is appended exactly, whatever came before the receptive state |
| `I2sTheorems.SignedStreamDecoded` | crates/picoem-devices/src/i2s_capture.rs:180-288 | any list of signed sixteen-bit pairs, sent in two's complement, is captured as those numbers |
| `I2sTheorems.AlignedIffNotFifteen` | crates/picoem-devices/src/i2s_capture.rs:180-288 | with word select low, whatever is waiting, a frame leaves the decoder aligned exactly unless fifteen bits had been taken |
| `I2sTheorems.NeverRealigns` | crates/picoem-devices/src/i2s_capture.rs:180-288 | from fifteen bits taken, a stream of any length appends exactly the mispaired frames: each right sample with the left one of the frame before, and the second with the last bit of the first right word, then bits 15 to 2 and 0 of the first left one |
| `I2sTheorems.FirstSampleCounts` | crates/picoem-devices/src/i2s_capture.rs:159-178 | reset takes both clocks for low, so a first sample with the bit clock high brings a bit |
| `I2sTheorems.FifteenFromReset` | crates/picoem-devices/src/i2s_capture.rs:180-288 | fifteen bit clocks under low word select lead from reset to that state |
| `Sha256.Sha256Hex` | crates/picocalc-board/src/sha256.rs:29-57 | for every byte string shorter than 2^61 bytes the result is the hex form of the FIPS 180-4 digest |
| `Sha256.Compress` | crates/picocalc-board/src/sha256.rs:59-109 | the rolling registers and the in-place schedule compute one block of section 6.2.2 |
| `Sha256.Expand` | crates/picocalc-board/src/sha256.rs:60-76 | the message schedule filled in place is the recursive one |
| `Sha256.Finish` | crates/picocalc-board/src/sha256.rs:39-50 | the one-or-two-block tail completes the digest |
| `Sha256.TailIsPadding` | crates/picocalc-board/src/sha256.rs:39-50 | the blocks processed, with the tail, are exactly the padded message of section 5.1.1 |
| `Sha256.PaddingIsShortest` | crates/picocalc-board/src/sha256.rs:39-50 | the padding makes whole blocks and no shorter run of zeros does |
| `Sha256Constants.RoundConstants` | crates/picocalc-board/src/sha256.rs:13-22 | every round constant is the first 32 bits behind the point of the cube root of its prime |
| `Sha256Constants.Start0To3` | crates/picocalc-board/src/sha256.rs:24-27 | the start value is made of the square roots of 2, 3, 5 and 7 |
| `Sha256Constants.Start4To7` | crates/picocalc-board/src/sha256.rs:24-27 | and of 11, 13, 17 and 19 |
| `Sha256Constants.Chooses` | crates/picocalc-board/src/sha256.rs:78-109 | each bit of the choice is that of the second word where the first is set and of the third where it is not |
| `Sha256Constants.Majority` | crates/picocalc-board/src/sha256.rs:78-109 | each bit of the majority is the one that two of three words have |
| `Sha256Constants.BigSigma0Bits` | crates/picocalc-board/src/sha256.rs:78-109 | each bit is the parity of the bits 2, 13 and 22 places up, round the word |
| `Sha256Constants.BigSigma1Bits` | crates/picocalc-board/src/sha256.rs:78-109 | and of 6, 11 and 25 |
| `Sha256Constants.SmallSigma0Bits` | crates/picocalc-board/src/sha256.rs:66-76 | of 7, 18 and, not going round, 3 |
| `Sha256Constants.SmallSigma1Bits` | crates/picocalc-board/src/sha256.rs:66-76 | of 17, 19 and, not going round, 10 |
| `Sha256Constants.LengthField` | crates/picocalc-board/src/sha256.rs:48-50 | the eight length bytes are the number of bits, most significant byte first |
| `Sha256Constants.WordsAsRead` | crates/picocalc-board/src/sha256.rs:61-68 | four bytes are read as one word, the most significant first |
| `Sha256Constants.WordsAsPrinted` | crates/picocalc-board/src/sha256.rs:52-56 | a word is printed as eight lower-case hexadecimal digits |
| `Sha256Constants.AddsRound` | crates/picocalc-board/src/sha256.rs:72-108 | addition goes round at 32 bits |
| `KeyboardDevice.Keyboard.constructor` | crates/picocalc-board/src/keyboard.rs:379-412 | power-up state: empty queue, default configuration, LCD backlight 32 |
| `KeyboardDevice.Keyboard.PushEvent` | crates/picocalc-board/src/keyboard.rs:556-573 | an event is queued; a full queue counts a drop and loses the arriving or the oldest event by the overflow setting, with the interrupt bits |
| `KeyboardDevice.Keyboard.PressAndRelease` | crates/picocalc-board/src/keyboard.rs:418-421 | press and release are two independent pushes |
| `KeyboardDevice.Keyboard.ModifierEvent` | crates/picocalc-board/src/keyboard.rs:440-453 | a modifier is active while its own event is reported |
| `KeyboardDevice.Keyboard.MappedKeyEvent` | crates/picocalc-board/src/keyboard.rs:488-549 | shift, caps lock, alt shortcuts, lamp steps and repeats turn a physical transition into at most one event |
| `KeyboardDevice.Keyboard.ReplyFor` | crates/picocalc-board/src/keyboard.rs:602-657 | the reply of each register, and that preparing it is what pops the queue or resets the controller |
| `KeyboardDevice.Keyboard.WriteByte` | crates/picocalc-board/src/keyboard.rs:687-745 | a byte on the bus selects a register, announces a write, or is the value of one; the reply is latched |
| `KeyboardDevice.Keyboard.ReadByte` | crates/picocalc-board/src/keyboard.rs:747-762 | the latched reply is clocked out and then zeros |
| `KeyboardDevice.Keyboard.TransactionEnd` | crates/picocalc-board/src/keyboard.rs:764-771 | a stop forgets a half-written register and rewinds the reply |
| `KeyboardTheorems.EveryEventAccountedFor` | crates/picocalc-board/src/keyboard.rs:440-771 | over any mix of key and bus traffic the books of the run give every arrival one fate: waiting, delivered, dropped or cleared; deliveries are in order, older than everything waiting, and those cleared are as many as were waiting at the resets |
| `KeyboardTheorems.FateIffCause` | crates/picocalc-board/src/keyboard.rs:440-771 | an event has left the queue exactly by its cause: taken by a poll as the oldest waiting, lost at a full queue by its policy, or waiting at a reset |
| `KeyboardTheorems.FatesAddUp` | crates/picocalc-board/src/keyboard.rs:556-657 | arrivals are delivered plus queued plus dropped plus those waiting at resets, each a counter or a fact of the run |
| `KeyboardTheorems.AllKeysInOrder` | crates/picocalc-board/src/keyboard.rs:556-657 | with nothing dropped and nothing cleared, what was read and then what waits are all that arrived, in order |
| `KeyboardTheorems.CountRegisterAgrees` | crates/picocalc-board/src/keyboard.rs:602-612 | in every reachable state the count register tells the queue length in its low five bits and both lock flags |
| `KeyboardTheorems.ReadsNeverConsume` | crates/picocalc-board/src/keyboard.rs:747-771 | any reads and stops change nothing but the reply position |
| `KeyboardTheorems.ExchangeAnswers` | crates/picocalc-board/src/keyboard.rs:687-771 | select and read give the same two bytes with a repeated start and with a stop in between |
| `KeyboardTheorems.PollsDrain` | crates/picocalc-board/src/keyboard.rs:602-657 | repeated polling hands out the queue oldest first and then zeros |
| `KeyboardTheorems.BurstKeeps` | crates/picocalc-board/src/keyboard.rs:556-573 | a burst into an empty queue keeps its first 31 events, or its last 31 with overwriting on, and counts the rest as dropped |
| `KeyboardTheorems.TypedKeysArrive` | crates/picocalc-board/src/keyboard.rs:556-657 | what the firmware reads after a burst is exactly what was kept |
| `KeyboardTheorems.NoStuckKeys` | crates/picocalc-board/src/keyboard.rs:488-549 | with the modifiers held as they are, a release sends exactly the code its press sent, or nothing when the press sent nothing |
| `KeyboardKeys.EventBytes` | crates/picocalc-board/src/keyboard.rs:602-657 | a poll reads 1, 2 or 3 for a press, a hold or a release and then the code, or two zeros when nothing waits |
| `KeyboardKeys.RegistersRead` | crates/picocalc-board/src/keyboard.rs:602-657 | version, lamps, battery, matrix, joystick and power registers read what they hold |
| `KeyboardKeys.ResetRestores` | crates/picocalc-board/src/keyboard.rs:575-657 | selecting the reset register empties the queue and restores the power-up settings |
| `KeyboardKeys.PowersUp` | crates/picocalc-board/src/keyboard.rs:379-412 | a controller starts as a reset leaves it, with full charge and nothing counted |
| `KeyboardKeys.QueuedUnder` | crates/picocalc-board/src/keyboard.rs:556-573 | with 31 events waiting an arriving one counts as dropped, and takes the place of the oldest exactly when bit 0 of the configuration is set |
| `KeyboardKeys.InterruptsUnder` | crates/picocalc-board/src/keyboard.rs:556-573 | bit 4 raises the key interrupt with every event, bit 1 the overflow interrupt with every drop |
| `KeyboardKeys.SelectsTallied` | crates/picocalc-board/src/keyboard.rs:723-745 | a byte with the top bit set announces a write and does nothing else; any other selects its register, and is counted, as unknown exactly outside 1 to 14 |
| `KeyboardKeys.WritesTallied` | crates/picocalc-board/src/keyboard.rs:688-721 | the byte behind an announcement goes to a lamp, the power-off delay or nowhere, and is counted as unknown exactly for registers without a case |
| `KeyboardKeys.ReadsRunDry` | crates/picocalc-board/src/keyboard.rs:747-762 | however many bytes are read, they are the latched reply and then zeros |
| `KeyboardKeys.LetterSends` | crates/picocalc-board/src/keyboard.rs:488-549 | a letter sends its small form, and its capital under either shift or caps lock |
| `KeyboardKeys.SymbolSends` | crates/picocalc-board/src/keyboard.rs:488-549 | any other key sends its own code, or its symbol under either shift |
| `KeyboardKeys.HeldRepeats` | crates/picocalc-board/src/keyboard.rs:534-663 | a held key comes as a further press exactly if it is printable, or enter, tab, a deletion or an arrow |
| `KeyboardKeys.UnmodifiedSends` | crates/picocalc-board/src/keyboard.rs:488-549 | with bit 7 of the configuration clear every key sends its own code |
| `KeyboardKeys.AltSends` | crates/picocalc-board/src/keyboard.rs:488-549 | with alt down the four lamp and silent keys send nothing, I sends insert, and the rest themselves |
| `KeyboardKeys.CapsLockTurns` | crates/picocalc-board/src/keyboard.rs:488-495 | caps lock turns over with each press of its key |
| `KeyboardKeys.ModifierHolds` | crates/picocalc-board/src/keyboard.rs:440-453 | a modifier counts from press to release and reports its own code when the configuration asks for it |
| `KeyboardKeys.TypesBothCases` | crates/picocalc-board/src/keyboard.rs:440-549 | from power-up, a letter typed plainly and then with the left shift held arrives small and then capital |
| `KeyboardTheorems.LampsReadBack` | crates/picocalc-board/src/keyboard.rs:669-745 | writing either backlight reads back its register and the largest allowed level no brighter than asked |
| `KeyboardTheorems.LampTaps` | crates/picocalc-board/src/keyboard.rs:507-527 | any number of alt taps sends nothing, walks the LCD sixteen levels at a time between 16 and 240, and takes the keyboard lamp round its eight levels |
| `VirtualClock.ClockCell.Rebase` | crates/picocalc-harness/src/main.rs:935-944 | a changed rate starts a new stretch whose clock reads at the seam what the old one read |
| `VirtualClock.ReachedIff` | crates/picocalc-harness/src/main.rs:920-932 | a cycle is at or after a deadline exactly from the converted cycle on, or one later when the deadline is off the cycle grid |
| `VirtualClock.SixtyFourBits` | crates/picocalc-harness/src/main.rs:920-932 | the clock is exact while its quotient fits 64 bits, and a converted cycle saturates at 64 bits |
| `VirtualClock.DeadlineBracketed` | crates/picocalc-harness/src/main.rs:920-932 | the converted cycle never overshoots a deadline at or after the epoch, and one more cycle always reaches it |
| `VirtualClock.EarlyIffOffCycle` | crates/picocalc-harness/src/main.rs:920-932 | the converted cycle comes before the deadline exactly when the deadline is off the cycle grid |
| `VirtualClock.WithinOneNsPerChange` | crates/picocalc-harness/src/main.rs:905-945 | over any run with k rate changes virtual time is at most exact time and less than k + 1 ns below it |
| `VirtualClock.NeverDecreases` | crates/picocalc-harness/src/main.rs:905-945 | virtual time never decreases over a run |
| `ScenarioEngine.ReadRegion` | crates/picocalc-harness/src/scenario.rs:682-691 | the region as little-endian pixels, row by row |
| `ScenarioEngine.CountLit` | crates/picocalc-harness/src/scenario.rs:693-703 | the number of pixels of the region that are not black |
| `ScenarioEngine.Finds` | crates/picocalc-harness/src/scenario.rs:838-847 | a nonempty byte string occurs in the output |
| `ScenarioTheorems.OccursIffInside` | crates/picocalc-harness/src/scenario.rs:838-847 | a text is found exactly when it is nonempty and the output is something, the text, and something |
| `ScenarioEngine.Evaluate` | crates/picocalc-harness/src/scenario.rs:723-849 | the verdict on each of the six conditions and the history it leaves; a fault exactly when the panel is needed and absent |
| `ScenarioTheorems.SameBytesIffSamePixels` | crates/picocalc-harness/src/scenario.rs:682-691 | the bytes that are hashed agree exactly when every pixel of the region does |
| `PanelWatch.PaintedRegionReadsBack` | crates/picocalc-harness/src/scenario.rs:682-691 | after one full pass over a window the watched rectangle reads as exactly the colours sent, little-endian and in order, so its hash is theirs |
| `PanelWatch.PixelTestsPainted` | crates/picocalc-harness/src/scenario.rs:723-849 | on a painted window a pixel test holds exactly when the colour sent for that place passes it |
| `PanelWatch.HashTestsPainted` | crates/picocalc-harness/src/scenario.rs:723-849 | a hash test holds exactly for the SHA-256 of the colours sent |
| `PanelWatch.CountTestsCells` | crates/picocalc-harness/src/scenario.rs:693-849 | a count test holds exactly when the number of cells that are not black is within its bounds |
| `ScenarioTheorems.NothingLitIffBlack` | crates/picocalc-harness/src/scenario.rs:693-703 | the count is zero exactly when the whole region is black |
| `ScenarioTheorems.ChangedIsReal` | crates/picocalc-harness/src/scenario.rs:814-837 | a region reported as changed differs in some pixel from the baseline |
| `ScenarioTheorems.StableIffUnchanged` | crates/picocalc-harness/src/scenario.rs:792-813 | over any polls a region counts as stable exactly when its fingerprint was the same at every poll of a stretch that is long enough |
| `ScenarioTheorems.ChangedIffUnlikeFirst` | crates/picocalc-harness/src/scenario.rs:814-837 | over any polls a region counts as changed exactly when its fingerprint differs from the one of the first poll |
| `ScenarioEngine.Engine.Poll` | crates/picocalc-harness/src/scenario.rs:1045-1081 | a poll terminates, advances as many steps as it can, and pushes exactly the keys it is meant to into the keyboard controller |
| `ScenarioEngine.Engine.Advance` | crates/picocalc-harness/src/scenario.rs:1104-1319 | what one look makes of each kind of step |
| `ScenarioEngine.Engine.AdvanceWatch` | crates/picocalc-harness/src/scenario.rs:1140-1176 | a watch passes when its condition holds, fails at its deadline, and never asks to be polled beyond it |
| `ScenarioEngine.Engine.AdvanceTyping` | crates/picocalc-harness/src/scenario.rs:1201-1228 | the key loop checks the time before it takes a character: none is lost |
| `ScenarioEngine.Engine.AdvanceReplaying` | crates/picocalc-harness/src/scenario.rs:1242-1268 | the event loop takes an event before it checks the time: an early look loses one |
| `ScenarioEngine.Engine.FinishIncomplete` | crates/picocalc-harness/src/scenario.rs:1010-1038 | when the run stops, every step without a result is recorded as incomplete |
| `ScenarioTheorems.ResultsInOrder` | crates/picocalc-harness/src/scenario.rs:1045-1102 | for every scenario and poll schedule results appear once per step, in step order, at non-decreasing times |
| `ScenarioTheorems.PassedIffEveryStepPassed` | crates/picocalc-harness/src/scenario.rs:986-1081 | between polls the scenario has passed exactly when every step has a passing result |
| `ScenarioSpans.StepsEndWhenOver` | crates/picocalc-harness/src/scenario.rs:1045-1319 | over any run every finished step, those that send keys included, spans the polls from the end of the step before to the first one at which it was over, with the status its condition earned there; the step under way never asks to be polled beyond its deadline; and the keys sent are those each step sends over its own polls |
| `ScenarioSpans.NoStepEndsEarly` | crates/picocalc-harness/src/scenario.rs:1104-1176 | over any run a finished wait lies between two polls at least its time apart, and so does a watch that failed, to the nanosecond |
| `ScenarioSpans.PassedStepSawIt` | crates/picocalc-harness/src/scenario.rs:1140-1319 | a watch or an assertion that passed saw its condition hold at one of the polls |
| `ScenarioSpans.WaitsAddUp` | crates/picocalc-harness/src/scenario.rs:1104-1228 | a scenario that passed took at least the sum of its waits and of the gaps between the characters it typed |
| `ScenarioSpans.KeyStepsTakeTime` | crates/picocalc-harness/src/scenario.rs:1177-1268 | in any run a finished step that made n sends took at least n - 1 gaps |
| `ScenarioTheorems.AsksForLater` | crates/picocalc-harness/src/scenario.rs:1104-1268 | an unfinished poll always asks for a strictly later one |
| `ScenarioTheorems.StoppedRunIsJudged` | crates/picocalc-harness/src/scenario.rs:986-1038 | however the run ends, passing still means every step passed, and truncation means some step is incomplete |
| `ScenarioTheorems.StatusTells` | crates/picocalc-harness/src/scenario.rs:995-1007 | of a run that has ended the status says error for a fault, incomplete when some step is, fail when one failed, and pass exactly when every step passed |
| `ScenarioKeys.PassedSendsScript` | crates/picocalc-harness/src/scenario.rs:1177-1268 | a passed scenario sent its whole script in order without exactly the events lost to polls that came too early for a replay, one for each such poll |
| `ScenarioKeys.NothingRepeatedOrReordered` | crates/picocalc-harness/src/scenario.rs:1177-1268 | at any moment of any run what was sent, with what was lost in its places, and then what is ahead make up the script |
| `ScenarioKeys.NothingLost` | crates/picocalc-harness/src/scenario.rs:1177-1268 | nothing is lost when every poll comes no earlier than asked, or when no step is a replay |
| `ScenarioTyping.SendsAreSpaced` | crates/picocalc-harness/src/scenario.rs:1204-1268 | two sends of a step are at least its gap apart, and with a gap each sends one stroke or one event |
| `ScenarioTyping.NextLookTypes` | crates/picocalc-harness/src/scenario.rs:1201-1228 | one look at a typing step does what its tally says: a character goes at the first poll at which the gap is over |
| `ScenarioTyping.NextLookReplays` | crates/picocalc-harness/src/scenario.rs:1242-1268 | one look at a replay does what its tally says: an event is done with at the very next poll, sent if the gap is over and missed if not |
| `Verdict.VerdictExactly` | crates/picocalc-harness/src/main.rs:641-721 | a pass and a failure, each exactly characterised by what the run showed |
| `Verdict.NoSilentRefusal` | crates/picocalc-harness/src/main.rs:653-713 | every verdict but a pass carries a reason |
| `Verdict.ReasonsTell` | crates/picocalc-harness/src/main.rs:641-721 | a report gives a reason exactly when its cause is there |
| `Verdict.MissingExactly` | crates/picocalc-harness/src/main.rs:681-692 | the markers reported missing are exactly those the output does not contain |
| `Verdict.Missing` | crates/picocalc-harness/src/main.rs:681-695 | no marker is missing exactly when each is nonempty and occurs in the output |
| `RunLoop.HearKeys` | crates/picocalc-harness/src/main.rs:2224-2236 | keys pushed into the controller, by the command line before a run or by the scenario during it, arrive in their order |
| `RunLoop.PollEngine` | crates/picocalc-harness/src/main.rs:995-1007 | the engine sees this machine, at this virtual time, with every byte sent so far, and the controller hears exactly the keys it sends |
| `RunLoop.Turn` | crates/picocalc-harness/src/main.rs:1070-1123 | one turn plays one quantum, loses no output, keeps clock and schedule in step with the machine, and reports an error exactly when the machine crashed or its clock stood still |
| `RunLoop.Finish` | crates/picocalc-harness/src/main.rs:973-990 | closing a run drains the remaining output, and the outcome tells cycles, virtual time, PC and output of this machine after exactly the quanta played |
| `RunLoop.Run` | crates/picocalc-harness/src/main.rs:954-1125 | for every machine behaviour the loop terminates, and stops at the first turn at which a stop condition holds, the scenario is done, or the machine crashes or stalls, with the outcome of that turn; the scenario is polled at reset and then exactly whenever its deadline falls due, and sees the machine as it is |
| `Harness.RunAndJudge` | crates/picocalc-harness/src/main.rs:2309-2449 | a run passes exactly when nothing went wrong, every marker is in the output, and it stopped as told, or its scenario was done with every step passed, or it stopped at its PC; it cannot be judged exactly when nothing went wrong and there is nothing to go by or a step did not end. A pass means that every step passed, in spans of this run's own states; what was waited for held, texts and markers are in the output, waits and typing fit in the elapsed time; every key, those of the command line included, arrived, none was dropped, and each was read, is waiting or was waiting at a reset, all in order when there was none; no register was unknown; and the stop was the expected one |
| `Harness.LoopSchedulingCanLoseKey` | crates/picocalc-harness/src/main.rs:995-1035 | a run, on the loop's own schedule and with nothing to stop it, on which a replay loses its last event and still passes |
| `RunTheorems.EarlyPollIff` | crates/picocalc-harness/src/main.rs:1031-1034 | a poll on schedule comes before the deadline exactly when the machine is at the cycle the deadline converts to and the deadline is off the cycle grid |
| `RunTheorems.LosesNothingIff` | crates/picocalc-harness/src/main.rs:995-1123 | a run loses no replayed key exactly when no such poll finds a replay with events left |
| `RunTheorems.StopsInOrder` | crates/picocalc-harness/src/main.rs:726-1068 | the stop address wins over NMI and HardFault, and these over the cycle limit; no other exception stops a run |
| `RunTheorems.PassProves` | crates/picocalc-harness/src/scenario.rs:986-1319 | a passed scenario on schedule has shown all that its steps ask for, of the machine that was run |
| `RunSpec.NeverBackwards` | crates/picocalc-harness/src/main.rs:954-1125 | over every run neither virtual time nor the cycle count seen by a poll goes back |
| `RunSpec.SameAtTheSeam` | crates/picocalc-harness/src/main.rs:1112-1123 | the clock read before the rate is adopted tells the same time as after |
| `CharLcdDevice.LcdDecoder.OnSample` | crates/picoem-devices/src/lcd.rs:82-134 | one sample: the first only primes, a falling chip select opens a frame, a clock rise takes a bit, a rising chip select applies the frame |
| `PinWords.DisplaySees` | crates/picoem-devices/src/lcd.rs:82-90 | driven on its three pins, any sample is the one the display sees |
| `CharLcdDevice.LcdDecoder.ApplyFrame` | crates/picoem-devices/src/lcd.rs:140-167 | clear, clamped cursor, or write; an empty frame or unknown opcode does nothing |
| `CharLcdDevice.LcdDecoder.WriteChar` | crates/picoem-devices/src/lcd.rs:169-197 | the character is stored, and the cursor wraps and scrolls so that it ends in range |
| `CharLcdDevice.LcdDecoder.ScrollUp` | crates/picoem-devices/src/lcd.rs:199-204 | the lower row moves up in place and is blanked |
| `CharLcdTheorems.RepeatSafeIff` | crates/picoem-devices/src/lcd.rs:82-134 | seeing a level once more changes nothing exactly when chip select did not fall with the clock high |
| `CharLcdTheorems.SamplingRateIrrelevant` | crates/picoem-devices/src/lcd.rs:82-134 | a waveform with the clock low at every fall gives the same state under any sampling that sees each level |
| `CharLcdTheorems.FrameIsCommand` | roms/rp2350/gen_lcd_demo.py:220-263 | one transmitted frame is one command to the display, whatever its length |
| `CharLcdTheorems.AnySamplingDrivesDisplay` | crates/picoem-devices/src/lcd.rs:82-204 | any frames, sampled at any such rate, act as their commands in order |
| `CharLcdTheorems.FromPowerUp` | crates/picoem-devices/src/lcd.rs:82-204 | nothing is heard until chip select is first seen released; from then on frames are commands to a blank display and the cursor stays on it |
| `CharLcdTheorems.TextFlows` | crates/picoem-devices/src/lcd.rs:169-204 | text of any length n from a cleared display leaves the cursor at (n mod 20, min(n div 20, 1)) and the rows as the last full line and the padded tail |
| `CharLcdTheorems.ClearThenWriteShows` | crates/picoem-devices/src/lcd.rs:82-204 | from any display, a clear frame and a write frame on the wire show the text so laid out |
| `CharLcdTheorems.CursorThenCharacter` | crates/picoem-devices/src/lcd.rs:140-204 | a set-cursor frame names column and row, each held to the display, and the next character lands there and nowhere else |
| `CharLcdTheorems.CursorFramesShow` | crates/picoem-devices/src/lcd.rs:82-204 | and so on the wire under any sampling |
| `CharLcdTheorems.ClearLeavesSpaces` | crates/picoem-devices/src/lcd.rs:147-151 | a clear frame leaves forty spaces and the cursor at home |
| `CharLcdTheorems.ShortAndUnknownFrames` | crates/picoem-devices/src/lcd.rs:140-167 | what a short cursor frame leaves out counts as zero; unknown opcodes and empty frames do nothing |
| `Pll.LockReadsOneIffSettled` | crates/picoem-common/src/clocks.rs:125-185 | over any writes at non-decreasing cycles LOCK reads one exactly when the PLL runs and 2000 cycles have passed since every power-up, configuration and divider change; the other bits are the register |
| `Pll.ArmedByLastRestart` | crates/picoem-common/src/clocks.rs:166-185 | the arm always belongs to the last restart |
| `Pll.PostDividersKeepLock` | crates/picoem-common/src/clocks.rs:166-185 | changing only the post-dividers never costs the lock |
| `Pll.SilentIffUnconfigured` | crates/picoem-common/src/clocks.rs:78-91 | the output is zero exactly for a zero feedback divider, and no intermediate value leaves 64 bits |
| `Pll.FrequencyBracketed` | crates/picoem-common/src/clocks.rs:78-91 | the output is the reference over its divider, times the feedback divider, over both post-dividers, rounded down and held to 32 bits |
| `Rv32.DecodesBack` | roms/rp2350/gen_blinky_riscv.py:73-159 | decoding undoes encoding for every instruction and operand |
| `Rv32.BranchGathered` | roms/rp2350/gen_blinky_riscv.py:95-107 | gathering the scattered bits gives back every branch distance |
| `Rv32.JumpGathered` | roms/rp2350/gen_blinky_riscv.py:113-123 | and every jump distance |
| `Rv32.Formats` | roms/rp2350/gen_blinky_riscv.py:73-159 | every word has opcode, registers, function code and immediate where the ISA puts them |
| `Rv32.BranchImmediate` | roms/rp2350/gen_blinky_riscv.py:95-107 | the bits of a branch word, weighed as the ISA weighs them, are its distance modulo 8192 |
| `Rv32.JumpImmediate` | roms/rp2350/gen_blinky_riscv.py:113-123 | and those of a jump word its distance modulo 2 MiB |
| `Rv32.KnownWords` | roms/rp2350/gen_blinky_riscv.py:73-159 | words as an assembler writes them, immediates of both signs among them |
| `Blinky.Asm.Emit` | roms/rp2350/gen_blinky_riscv.py:207-209 | emitted bytes are the assembled program so far, and the address advances |
| `Blinky.BuildImage` | roms/rp2350/gen_blinky_riscv.py:220-327 | the image is the assembled program, with both backward distances computed from addresses |
| `BlinkyTheorems.LoadsEveryValue` | roms/rp2350/gen_blinky_riscv.py:165-189 | executing the one or two instructions leaves any 32-bit value in any register and nothing else changed |
| `BlinkyTheorems.ImageIsLoaded` | roms/rp2350/gen_blinky_riscv.py:220-327 | the image at its load address, whatever follows it, is where the two run theorems start |
| `BlinkyTheorems.OtherHartsPark` | roms/rp2350/gen_blinky_riscv.py:247-252 | a hart with another id never traps, never stores and never leaves its parking jump, for any number of instructions |
| `BlinkyTheorems.PrologueRuns` | roms/rp2350/gen_blinky_riscv.py:247-286 | the first hart reaches the loop after 17 instructions and three setup stores |
| `BlinkyTheorems.FirstHartBlinks` | roms/rp2350/gen_blinky_riscv.py:305-327 | after m more instructions it has made exactly (m + 1) div 4097 further stores, each the same toggle |

## Left out

- CPU cores, bus, PIO engine and emulator: in the run loop the emulator is any script of steps, each consuming some cycles, setting the clock rate, sending output, talking to the keyboard and drawing a screen.
- Command-line parsing, JSON and text reports, PNG, WAV and UART files, git and build scripts, tracing features.
- Scenario parsing: the model starts from a scenario that the parser accepted; its guarantees (regions inside the viewport, a poll interval of at least one, one bound per pixel condition) are types.
- The park states in the message of a stalled clock: the message is only its beginning.
- Step labels, detail strings, snapshot digests and PNG names in step results; a snapshot step keeps only whether it can be taken.
- Poisoned mutexes: a shared model is an object reference.
- 64-bit overflow of event counters, cycle stamps and sums of nanoseconds: they are natural numbers; the truncating cast and the saturations of the virtual clock are modelled, and its run theorems are stated for runs whose exact length fits 64 bits.
- Field grouping: objects with many fields keep them in a few records, with the same contents.
- Sorted vectors of unknown opcodes: modelled as maps from opcode to count.
- RunLoop.Run: does not model how close the emulator stops to the limit it is given; the result holds for every choice.
- Fat32.SizeTables: minimality of the table size is not claimed; the code does not promise it.
- Refusals of the FAT32 formatter are panics in the code and a missing result in the model.
- FAT16 formatting, framebuffer cropping, pin constants, `pacer.rs`, other ROM generators: correct but easy, or repeats of the same shapes.
- Sample-rate inference and cycle stamps of the I2S receiver: floating point.
- Physical timing, matrix scanning tables and debounce of the keyboard, SD check bytes and busy states: the code states that it does not model them.
- Padding of the blinky image to 256 bytes and its annotation track: the theorems hold whatever follows the program in memory.
