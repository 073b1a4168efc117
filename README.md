# cc2530_eink in Dafny

This project models the firmware of a CC2530 board that drives a 2.13" black/red
e-paper panel (UC8151/IL0373 controller, 104 x 212 pixels) and takes commands
over a serial line. It models the following parts of the firmware and proves
properties about each:

- **Two panel drivers.** `EPD_2in13b_V3.c` is the Waveshare-style driver with
  init, clear, display, refresh and sleep. `GxGDEW0213Z16.c` is the GxEPD-style
  driver with init and clear. Both act only through pins, SPI bytes, watchdog
  feeds and reads of the busy pin.
  - The board is a `Hal.Board` object holding a `trace` of events, oldest
    first, and a count of busy-pin reads.
  - The busy pin is an input: the set `busyHigh` of read numbers at which it
    reads high.
  - Each driver function is a method that appends to the trace. It is proved
    equal to a trace function of the old state.
  - Module `Uc8151` decodes a trace into the bytes the controller latches
    (`Observe`). DC low makes a byte a command and DC high makes it data,
    counted only while CS is low. The protocol lemmas are stated on what the
    controller receives.
- **The busy wait** (`ReadBusy` / `WaitBusy`). Command 0x71 comes first. The
  loop polls while the pin reads high, feeding the watchdog and waiting 10 ms
  on each iteration. It gives up after 1000 iterations, and the wait ends with
  `HAL_Delay(200)`. `Uc8151.WaitIterations` gives the number of iterations.
  The lemmas prove that the loop stops exactly at the first low reading or at
  the ceiling, and that every high reading is followed at once by a feed.
- **`HAL_Delay`** (`hal_delay.h`) is a count of watchdog feeds. The count is
  `ms << 1` truncated to 16 bits, with no clamp.
- **The serial console** (`uart.c`):
  - the CR LF rule of `uart_putc` and `uart_puts`;
  - the in-place `strrev_local`;
  - `uint_to_str` and `uint_to_hex`, proved against a numeral function that
    reads back to the value;
  - the `uart_printf` interpreter, proved against a `Format` function of the
    format and the argument list.
- **The command receiver** (`uart_rx.c`). `uart_getc` consumes the head of the
  received bytes. `uart_read_bytes` fills the framebuffer array in place. There
  are three dispatch cases in `uart_process_command`:
  - 0x13 reads a 2756-byte frame and hands it to `EPD_SendFrame`;
  - 0x31 runs `EPD_Clear`;
  - any other byte is reported as unknown.

  The host's side is `Encode`, and `Receive` reads it back.

Files:

- `hal.dfy` (module `Hal`): events, the board, the UART, `HAL_Delay`.
- `uc8151.dfy` (module `Uc8151`): the controller's view of the bus, the busy
  wait, feed and poll counting.
- `epd_2in13b_v3.dfy` (module `Epd2in13bV3`): the Waveshare driver.
- `gxgdew0213z16.dfy` (module `GxGdew0213z16`): the GxEPD driver.
- `uart_text.dfy` (module `UartText`): the console text as functions.
- `uart.dfy` (module `Uart`): the console routines as methods.
- `uart_rx.dfy` (module `UartRx`): the command receiver.

## Model

| member | source | states |
|---|---|---|
| Hal.Board.constructor | epd_busy.h:18-22 | A fresh board has an empty trace and no reads of the busy pin yet; the pin's levels are the given input. |
| Hal.Board.SpiCsLow | spi.c:31 | Appends one CS-low event; nothing else changes. |
| Hal.Board.SpiCsHigh | spi.c:32 | Appends one CS-high event; nothing else changes. |
| Hal.Board.SpiDcLow | spi.c:35 | Appends one DC-low event; nothing else changes. |
| Hal.Board.SpiDcHigh | spi.c:36 | Appends one DC-high event; nothing else changes. |
| Hal.Board.SpiRstLow | spi.c:39 | Appends one RST-low event; nothing else changes. |
| Hal.Board.SpiRstHigh | spi.c:40 | Appends one RST-high event; nothing else changes. |
| Hal.Board.SpiWriteByte | spi.c:123-132 | Appends the byte shifted out on SPI; nothing else changes. |
| Hal.Board.WdtFeed | wdt.h:10-11 | Appends one watchdog feed; nothing else changes. |
| Hal.Board.EpdBusy | epd_busy.h:18-22 | Returns whether the pin is high at this read, records the reading in the trace, and advances the read count by exactly one. |
| Hal.DelayIterations | hal_delay.h:17-19 | `ms << 1` kept to 16 bits: 2*ms below 0x8000, 2*ms - 65536 from 0x8000 on; zero iterations exactly for ms = 0 and ms = 0x8000 (no clamp). |
| Hal.Delay | hal_delay.h:14-23 | The loop appends exactly DelayIterations(ms) watchdog feeds and nothing else, and reads no pin. |
| Uc8151.ObserveConcat | EPD_2in13b_V3.c:61-78 | What the controller latches from a trace is what it latches from the first part, then from the second part starting from the lines the first part left. |
| Uc8151.ObserveFramed | EPD_2in13b_V3.c:61-78 | A DC edge, CS low, one byte, CS high delivers exactly that byte, as a command for DC low and as data for DC high, from any prior line state. |
| Uc8151.ObserveCommand | EPD_2in13b_V3.c:61-67 | The four events of SendCommand deliver exactly one command byte, leaving DC low and CS high. |
| Uc8151.ObserveData | EPD_2in13b_V3.c:72-78 | The four events of SendData deliver exactly one data byte, leaving DC high and CS high. |
| Uc8151.ObserveQuiet | hal_delay.h:19-22 | Feeds and busy reads deliver nothing and leave the select lines as they were. |
| Uc8151.ObserveFrames | GxGDEW0213Z16.c:87-93 | Back-to-back SendData calls deliver their bytes in order, all as data. |
| Uc8151.ObserveDelay | hal_delay.h:14-23 | A delay is silent on the bus. |
| Uc8151.FramesCount | GxGDEW0213Z16.c:87-93 | Back-to-back data bytes neither feed the watchdog nor read the busy pin. |
| Uc8151.HighRun | EPD_2in13b_V3.c:98-109 | The number of iterations counted from iteration k lies between k and the ceiling of 1000. |
| Uc8151.HighRunSpec | EPD_2in13b_V3.c:98-109 | Every read from iteration k up to the run's end is high; if the run ends below 1000, the read that ends it is low. |
| Uc8151.HighRunFrom | EPD_2in13b_V3.c:98-109 | Any count meeting the loop's exit rule from iteration k on is the run. |
| Uc8151.HighRunStep | EPD_2in13b_V3.c:98-107 | A high read below the ceiling lets the loop go on without changing where it will stop. |
| Uc8151.HighRunEnd | EPD_2in13b_V3.c:98-108 | A low read, or reaching 1000 iterations, ends the loop there. |
| Uc8151.WaitIterations | EPD_2in13b_V3.c:98-109 | The loop runs at most 1000 iterations. |
| Uc8151.WaitIterationsSpec | EPD_2in13b_V3.c:98-109 | Every read before the loop stops is high; below the ceiling, the read that stops it is low (the loop exits early exactly when busy reads low). |
| Uc8151.WaitIterationsUnique | EPD_2in13b_V3.c:98-109 | The iteration count is the only count that meets the exit rule. |
| Uc8151.SamplesRead | EPD_2in13b_V3.c:98-108 | A wait reads the pin at most 1000 times in its loop condition. |
| Uc8151.PollsAfterWait | EPD_2in13b_V3.c:98-109 | After a wait, the read count has grown by at least one and at most 1000. |
| Uc8151.ObserveWait | EPD_2in13b_V3.c:93-111 | On the bus a whole busy wait is the read-status command 0x71 and nothing else. |
| Uc8151.RoundsFed | EPD_2in13b_V3.c:98-101 | In the loop, every high reading is followed at once by a watchdog feed. |
| Uc8151.WaitFed | EPD_2in13b_V3.c:93-111 | In a whole wait, the iteration that reaches the ceiling included, every high reading is followed at once by a feed. |
| Uc8151.PollsFedConcat | EPD_2in13b_V3.c:98-100 | The feed-after-high-read property holds for two traces run one after the other. |
| Uc8151.FramesNoPolls | GxGDEW0213Z16.c:87-93 | Data bytes never read the busy pin. |
| Uc8151.CountConcat | hal_delay.h:19-22 | Event counts add up over concatenated traces. |
| Uc8151.FrameCounts | EPD_2in13b_V3.c:61-78 | A framed byte contains no feed and no busy read. |
| Uc8151.FeedsCount | hal_delay.h:19-22 | HAL_Delay's trace holds exactly its iteration count of feeds. |
| Uc8151.RoundsCount | EPD_2in13b_V3.c:98-101 | n loop iterations read high n times, never read low, and feed 21n times (one WDT_FEED plus the 20 of HAL_Delay(10)). |
| Uc8151.WaitCounts | EPD_2in13b_V3.c:93-111 | A wait of n iterations reads high n times and reads the pin SamplesRead(n) times in all (n + 1, or 1000 at the ceiling). It feeds 21n + 400 times, the 400 being from HAL_Delay(200). |
| Epd2in13bV3.RowBytes | EPD_2in13b_V3.c:185-187 | Bytes per row are the width over 8 rounded up. |
| Epd2in13bV3.Geometry | EPD_2in13b_V3.c:185-188 | 13 bytes per row and 2756 bytes per plane. |
| Epd2in13bV3.Reset | EPD_2in13b_V3.c:50-56 | CS high, RST high, 100 ms, RST low, 2 ms, RST high, 10 ms; no pin read. |
| Epd2in13bV3.SendCommand | EPD_2in13b_V3.c:61-67 | DC low, CS low, the byte, CS high, with nothing in between. |
| Epd2in13bV3.SendData | EPD_2in13b_V3.c:72-78 | DC high, CS low, the byte, CS high, with nothing in between. |
| Epd2in13bV3.ReadBusy | EPD_2in13b_V3.c:93-112 | Appends exactly the wait of WaitIterations reads: 0x71, each high read with its feed and 10 ms delay, the low read unless the ceiling came first, and then 200 ms. The read count advances by the reads made. |
| Epd2in13bV3.TurnOnDisplay | EPD_2in13b_V3.c:117-122 | Command 0x12, 100 ms, one busy wait. |
| Epd2in13bV3.Init | EPD_2in13b_V3.c:128-177 | The reset sequence and 10 ms only; no pin read. |
| Epd2in13bV3.SendPlane | EPD_2in13b_V3.c:222-227 | The nested row and column loops send plane[0..2756) in order. Each byte is followed by one feed, and every index i + j*13 is in bounds. |
| Epd2in13bV3.Clear | EPD_2in13b_V3.c:182-207 | 0x10 and 2756 bytes of 0xFF, then 0x13 and 2756 bytes of 0xFF, each byte followed by a feed; then one refresh. |
| Epd2in13bV3.Display | EPD_2in13b_V3.c:213-237 | 0x10 and the black plane's first 2756 bytes, then 0x13 and the red plane's, each byte followed by a feed; then one refresh. |
| Epd2in13bV3.Sleep | EPD_2in13b_V3.c:242-252 | 0x50 0xF7, 0x02, a busy wait, 0x07 0xA5. |
| Epd2in13bV3.ObserveStream | EPD_2in13b_V3.c:222-227 | A streamed plane reaches the controller as exactly its bytes, as data, in order. |
| Epd2in13bV3.StreamAt | EPD_2in13b_V3.c:223-227 | Byte k of a plane occupies events 5k to 5k+4: its data frame, then a feed. |
| Epd2in13bV3.StreamNoPolls | EPD_2in13b_V3.c:223-227 | Streaming a plane never reads the busy pin. |
| Epd2in13bV3.StreamFeedCount | EPD_2in13b_V3.c:223-227 | Streaming a plane feeds the watchdog once per byte. |
| Epd2in13bV3.InitSendsNothing | EPD_2in13b_V3.c:128-177 | Init delivers no command and no data byte to the controller (the configuration is commented out); it leaves CS high. |
| Epd2in13bV3.ObserveRefresh | EPD_2in13b_V3.c:117-122 | A refresh delivers 0x12 followed by the 0x71 of its wait and nothing else. |
| Epd2in13bV3.DisplayProtocol | EPD_2in13b_V3.c:213-237 | The controller receives 0x10, the black plane as data, 0x13, the red plane as data, then 0x12 and 0x71. |
| Epd2in13bV3.DisplayRowMajor | EPD_2in13b_V3.c:223-234 | Column i of row j is sent as data byte 1 + i + 13j (black) and 2 + 2756 + i + 13j (red). That is byte i + 13j of each plane, an index always below 2756. |
| Epd2in13bV3.ClearProtocol | EPD_2in13b_V3.c:182-207 | The controller receives 0x10, 2756 bytes of 0xFF, 0x13, 2756 bytes of 0xFF, then 0x12 and 0x71. |
| Epd2in13bV3.SleepProtocol | EPD_2in13b_V3.c:242-252 | The controller receives exactly 0x50, data 0xF7, 0x02, 0x71, 0x07, data 0xA5. |
| Epd2in13bV3.DisplayFed | EPD_2in13b_V3.c:213-237 | In Display and Clear, every high busy reading is followed at once by a feed. |
| Epd2in13bV3.DisplayFeedCount | EPD_2in13b_V3.c:213-237 | Display and Clear feed once per plane byte (5512), 200 times in HAL_Delay(100), and 21n + 400 times in a wait of n iterations. |
| Epd2in13bV3.PlanesFeedCount | EPD_2in13b_V3.c:222-234 | The two planes and their commands feed once per byte. |
| Epd2in13bV3.RefreshFeedCount | EPD_2in13b_V3.c:117-122 | A refresh feeds 200 + 21n + 400 times for a wait of n iterations. |
| Epd2in13bV3.SleepFed | EPD_2in13b_V3.c:242-252 | In Sleep, every high busy reading is followed at once by a feed. |
| GxGdew0213z16.SendCommand | GxGDEW0213Z16.c:8-14 | DC low, CS low, the byte, CS high: the same framing as the other driver. |
| GxGdew0213z16.SendData | GxGDEW0213Z16.c:19-25 | DC high, CS low, the byte, CS high. |
| GxGdew0213z16.WaitBusy | GxGDEW0213Z16.c:27-46 | The same bounded wait as ReadBusy: 0x71 first, at most 1000 iterations, a feed on each, an early exit exactly at the first low reading, then 200 ms. |
| GxGdew0213z16.EPD_Init | GxGDEW0213Z16.c:48-79 | RST low, 10 ms, RST high, 10 ms. Then 0x06 [17 17 17], 0x04, a busy wait, 0x00 [8F], 0x50 [37], 0x61 [68 00 D4]. |
| GxGdew0213z16.EPD_Clear | GxGDEW0213Z16.c:83-103 | A complete EPD_Init. Then 0x10 with 5512 bytes of 0xFF and 0x13 with 2756 bytes of 0xFF. Then 0x12 and a wait, 0x02 and a wait, 0x07 0xA5. |
| GxGdew0213z16.ObserveCommandParams | GxGDEW0213Z16.c:57-60 | A command with its parameter bytes reaches the controller as that command followed by the bytes as data. |
| GxGdew0213z16.ObserveResetPulse | GxGDEW0213Z16.c:50-54 | The reset pulse delivers nothing. |
| GxGdew0213z16.ResolutionBytes | GxGDEW0213Z16.c:74-81 | The resolution bytes are the width 104 and the height 212 big-endian (0x00 0xD4); BUFFER_SIZE is 104 * 212 / 8. |
| GxGdew0213z16.InitProtocol | GxGDEW0213Z16.c:48-79 | The controller receives 0x06 17 17 17, 0x04, 0x71, 0x00 8F, 0x50 37, 0x61 68 00 D4, in that order. |
| GxGdew0213z16.ClearPlanes | GxGDEW0213Z16.c:85-93 | After the init bytes the controller receives 0x10 with 5512 bytes of 0xFF, then 0x13 with 2756. |
| GxGdew0213z16.ClearProtocol | GxGDEW0213Z16.c:83-103 | The controller receives the init bytes, both planes of 0xFF, 0x12 0x71, 0x02 0x71, and 0x07 0xA5. The last command, 0x07 with 0xA5, puts the panel into deep sleep. |
| GxGdew0213z16.CommandFed | GxGDEW0213Z16.c:8-25 | A command and its data hold no busy reading. |
| GxGdew0213z16.InitFed | GxGDEW0213Z16.c:48-79 | In EPD_Init, every high busy reading is followed at once by a feed. |
| GxGdew0213z16.ClearFed | GxGDEW0213Z16.c:83-103 | In EPD_Clear, every high busy reading is followed at once by a feed. |
| UartText.CrlfConcat | uart.c:37-46 | The newline rule applies character by character, so it distributes over concatenation. |
| UartText.CrlfPlain | uart.c:37-46 | Text without '\n' goes out unchanged. |
| UartText.StripCrlf | uart.c:37-46 | Round trip: reading CR LF back as '\n' recovers the original text. |
| UartText.CrlfNoBareNewline | uart.c:40-43 | Every '\n' on the line is directly preceded by '\r'. |
| UartText.HexDigits | uart.c:98-100 | Both hex tables have 16 digits. |
| UartText.Numeral | uart.c:83-110 | A numeral has at least one digit; the numeral of zero is the single digit "0". |
| UartText.NumeralValue | uart.c:83-110 | Round trip: the decimal or hex numeral of v, read back in its base, is v. |
| UartText.NumeralDigits | uart.c:83-110 | Every character is a digit of its table, and there is no leading zero. |
| UartText.LowFirstLength | uart.c:87-90 | A value below base^k has at most k digits. |
| UartText.DecimalLength | uart.c:87-90 | A 16-bit value has at most 5 decimal digits. |
| UartText.HexLength | uart.c:103-106 | A 16-bit value has at most 4 hex digits. |
| UartText.ReverseAt | uart.c:70-80 | Character k of the reversal is character len-1-k of the original. |
| UartText.ReverseReverse | uart.c:70-80 | Reversing twice gives the original. |
| UartText.NumeralReversed | uart.c:87-91 | The digits produced least significant first, once reversed, are the numeral. |
| UartText.Converted | uart.c:86-91 | Including the "0" special case, the conversion loop's output reversed is the numeral. |
| UartText.NulAt | uart.c:51 | The terminator's position: a NUL with no NUL before it. |
| UartText.UntilNulAt | uart.c:49-53 | The text of a C string is everything before its first NUL. |
| UartText.Magnitude | uart.c:148-150 | The magnitude %d prints is 65536 - w for a negative int16 (32768 for 0x8000) and w otherwise. |
| UartText.SignedWire | uart.c:148-154 | On the line, %d is '-' for a negative value followed by the padded magnitude. |
| UartText.Directive | uart.c:128-135 | A directive that is read is at least 2 characters long and never runs past the format. |
| UartText.DirectiveShape | uart.c:128-135 | A directive is `%c` (2 characters, no padding) or `%0wc` (4 characters). It is missing exactly when the format ends inside it. |
| UartText.Conversion | uart.c:137-182 | A conversion takes no more arguments than there are. |
| UartText.FormatPlainAt | uart.c:121-126 | A plain character of the format is sent as itself, and the rest follows it. |
| UartText.DirectiveAt | uart.c:128-135 | Where a directive at a position ends, and the width and conversion it reads. |
| UartText.FormatDirectiveAt | uart.c:128-182 | A directive sends its conversion, then the rest of the format goes on with the arguments it left. |
| UartText.FormatPlain | uart.c:121-126 | A format piece without '%' prints itself and takes no argument. |
| UartText.PaddedPlain | uart.c:152-171 | Padded numerals contain no newline, so uart_putc sends them unchanged. |
| UartText.ZeroPadShape | uart.c:160-161 | Exactly max(0, pad - len) '0's precede the digits. |
| UartText.SignedDecimalSign | uart.c:148-155 | %d starts with '-' exactly for a negative int16, followed by the padded magnitude; otherwise it prints as %u. |
| UartText.PercentDirectives | uart.c:174-181 | "%%" prints one '%'; an unknown conversion c prints '%' then c; neither takes an argument. |
| Uart.PutC | uart.c:37-46 | '\n' goes out as '\r' '\n'; any other character as itself. |
| Uart.PutS | uart.c:49-53 | Sends the characters before the NUL, each under the newline rule. |
| Uart.StrRev | uart.c:70-80 | s[0..len) becomes its reverse in place; the other cells are unchanged. |
| Uart.UintToStr | uart.c:83-94 | buf[0..len) is the decimal numeral of val (no leading zero, "0" for 0), buf[len] is NUL, 1 <= len <= 5, and the cells after the NUL are unchanged. |
| Uart.UintToHex | uart.c:96-110 | buf[0..len) is the hex numeral of val in the table `upper` selects, buf[len] is NUL, 1 <= len <= 4, and the cells after the NUL are unchanged. |
| Uart.PutPadded | uart.c:160-161 | Sends max(0, pad - len) '0's, then buf[0..len). |
| Uart.PutDecimal | uart.c:157-163 | %u: the zero-padded decimal numeral. |
| Uart.PutHex | uart.c:165-172 | %x / %X: the zero-padded hex numeral, in lower or upper case. |
| Uart.PutSigned | uart.c:148-155 | %d: '-' for a negative value, then the padded magnitude. |
| Uart.PutConversion | uart.c:137-182 | Sends what Conversion prescribes for c, and takes as many arguments. |
| Uart.PutPlain | uart.c:123-126 | Sends one plain character and moves on by one. |
| Uart.PutDirective | uart.c:128-182 | Reads the optional width, sends the conversion, and moves past the directive and its arguments. |
| Uart.Printf | uart.c:112-186 | What reaches the line is Format(fmt, args) under the newline rule. |
| UartRx.Encode | uart_rx.c:34-35 | A request starts with its opcode byte: 0x13, 0x31, or the unknown byte itself. A frame request is one byte longer than its frame; every other request is that one byte. |
| UartRx.ReceiveEncode | uart_rx.c:40-62 | Round trip: the receiver reads back every well-formed request a host sends, whatever follows it. |
| UartRx.ReceiveSplit | uart_rx.c:40-62 | What the receiver reads is a well-formed request made of exactly the bytes at the head of the line: 1 + 2756 for 0x13, one for any other opcode. |
| UartRx.ReceiveBlocks | uart_rx.c:12-18 | The receiver waits for more bytes exactly when none is waiting, or 0x13 is waiting without a whole frame after it. |
| UartRx.FrameSizeNumeral | uart_rx.c:49 | The size printed is "2756". |
| UartRx.SizeFormatted | uart_rx.c:49 | The frame report prints "Received framebuffer (", the size in decimal, " bytes)\n". |
| UartRx.ReceivedFormatted | uart_rx.c:49 | The 0x13 report is that line for 2756. |
| UartRx.ClearedFormatted | uart_rx.c:56 | The 0x31 report is "Framebuffer cleared\n". |
| UartRx.UnknownFormatted | uart_rx.c:60 | The report for an unknown opcode is "Unknown command 0x" followed by the opcode in two upper-case hex digits and a newline. |
| UartRx.FormatsWithoutNul | uart_rx.c:49-60 | The three report formats contain no NUL. |
| UartRx.ReportFormatted | uart_rx.c:49-60 | Each report's uart_printf call prints exactly that report. |
| UartRx.ReportLine | uart_rx.c:49-60 | Each report is one console line: its only newline is the last character, which goes out as CR LF. |
| UartRx.UnknownEcho | uart_rx.c:60 | The unknown-command report holds two hex digits that read back as the opcode. |
| UartRx.Receiver.constructor | uart_rx.c:7 | The framebuffer is a fresh array of 2756 bytes, and no frame has been handed on yet. |
| UartRx.GetC | uart_rx.c:12-18 | Returns the next received byte and consumes it. |
| UartRx.ReadBytes | uart_rx.c:23-29 | buf[0..len) holds the next len received bytes in order, and the rest of buf is unchanged. Exactly those bytes are consumed. |
| UartRx.ProcessCommand | uart_rx.c:40-62 | Consumes exactly the request's bytes and prints its report, with no ack byte. For 0x13 the framebuffer equals the received frame, handed on once after it is complete. For 0x31 the trace gains exactly one EPD_Clear and the framebuffer is unchanged. Any other opcode touches neither the panel nor the framebuffer. |

## Left out

- Bus transport: `spi.c` register setup, pin mux and the TX-flag spin. A pin write or an SPI byte is one trace event.
- Watchdog registers: `wdt.c` setup and the WDCTL write pair behind `WDT_FEED()` are one Feed event.
- Timing: wall-clock time, the 535-step inner spin of `HAL_Delay`, reset hold times and SPI speed are not modelled. Only the feeds and the order of events are.
- Diagnostic printing in the drivers: the `uart_printf` calls of `ReadBusy` and `WaitBusy` (EPD_2in13b_V3.c:97, 103-104, 106, 110; GxGDEW0213Z16.c:31, 37-38, 40, 44) and the busy-pin reads inside them are not modelled. These reads do not steer the loop. The busy input is indexed by the loop-condition reads only.
- `EPD_SendFrame` and `EPD_Test` are declared but not defined in the firmware. A call to `EPD_SendFrame` is recorded in `Receiver.shown` and has no modelled bus effect.
- `main.c` (clock set-up, the demo loop) and `uart_init` are left out. `EPD_2in13b_V3.h` is not part of this model: the geometry 104 x 212 is taken from GxGDEW0213Z16.c:74-81.
- The host script `host_script/send.py` speaks another protocol (opcodes 0x69/0x57/0x43 and an ack). The firmware's own opcodes 0x13/0x31 without an ack are modelled instead.
- The commented-out configuration in `EPD_2IN13B_V3_Init` is dead code. `Init` sends the reset sequence only.
- UartRx.GetC: requires a waiting byte. The C function spins until one arrives, and that wait is not modelled.
- UartRx.ReadBytes: requires len bytes to be waiting, for the same reason.
- UartRx.ProcessCommand: requires the whole request to be waiting (`Receive(u.rx).Some?`), because a blocked receive never returns.
- UartRx.ProcessCommand: for 0x31 the console output states only the report line. On the board, each of EPD_Clear's three WaitBusy calls also prints its diagnostic lines before the report: GxGDEW0213Z16.c:31 and 44 every time, and 37-38 and 40 on long waits. Those lines are not modelled.
- Uart.Printf: requires every directive to be complete and to find an argument of the right kind (`Format(fmt, args).Some?`). Otherwise the C function reads past the format or the varargs, with undefined behaviour. The varargs are a `seq<Arg>`.
- Uart.PutS: requires the string to contain a NUL; otherwise the C loop reads past it.
- Uart.StrRev: requires len >= 1. For len = 0 the C code computes `j = len - 1` as 255 and would swap outside the string, and no caller passes 0.
- Epd2in13bV3.Display: requires both planes to hold at least 2756 bytes. The C function takes raw pointers and checks nothing.
- The image planes of `Display` are read-only sequences, not arrays, because the driver only reads them.
