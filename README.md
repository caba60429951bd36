# TM1640 bit-banged driver, modelled in Dafny

This project models the protocol encoder of an ESP32 driver for the TM1640 LED display
controller (`main/main.c`). The driver speaks the chip's two-wire bus by toggling two GPIO
lines: CLOCK is pin 16 and DATA is pin 17. The model covers these C functions:

- `send_start`, `send_byte` and `send_end`: the framing layer.
- `write_sram` and `display_brightness`: the command encoding layer.
- `tm1640_init`: the session setup.

Each C function is a method of the class `Driver.Tm1640`:

- Every GPIO call and every delay appends one `Event` to the field `trace`.
- The GPIO driver's answers come from an oracle fixed at construction. The call recorded at
  trace position `j` returns `respond(j)`.
- Each method is proved to append exactly the events of a specification, and to return its
  result.

The specifications are built in four modules:

- **Steps** gives the meaning of an operation as a list of driver calls, each with an
  optional delay (`Run`):
  - a failing call whose result the C code checks (`if(ret) return ret;`) ends the operation
    with that error;
  - a call whose result the code overwrites does not end it.
- **Framing** defines the step lists of `send_start`, `send_byte` and `send_end`. It also
  relates them to the bus: `SampledData` is the DATA level at each rising CLOCK edge.
- **Commands** defines the command bytes and the transactions of `write_sram` and
  `display_brightness`.
- **Session** defines `tm1640_init`.

`send_byte`'s loop is specified bit by bit (`Framing.SendBits`), and `SendBitsIsRun` ties
that to the step list. `Driver.Tm1640.SendPayload` is `write_sram`'s payload loop and final
`send_end` (lines 117-121), written as a method of its own. `WriteSram` calls it last.

The model follows the code as written, including these quirks:

- The size check reads `offset + (uint8_t)buf_size > 16`. The model checks
  `offset + |buf| % 256 > 16`, so a 256-byte payload at offset 0 is accepted and sent.
- In bits 0 to 6 of `send_byte`, a failing CLOCK-low write is overwritten by the next
  bit's DATA write. Only bit 7's CLOCK-low result reaches the caller.
- `tm1640_init` never uses `data_pin`. It raises CLOCK through the fixed pin 16, not
  through `clock_pin`.
- On an error, the code returns at once without sending the end condition. The model does
  the same.
- Nothing stops a transaction before `tm1640_init` has run, in the code or in the model.

## Model

| member | source | states |
|---|---|---|
| Driver.Tm1640.GpioSetLevel | main/main.c:25-30 | gpio_set_level appends one SetLevel event and returns the oracle's answer for that trace position |
| Driver.Tm1640.GpioSetOutput | main/main.c:146 | gpio_set_direction(pin, output) appends one SetOutput event and returns the oracle's answer |
| Driver.Tm1640.GpioPullUp | main/main.c:149 | gpio_pullup_en appends one PullUp event and returns the oracle's answer |
| Driver.Tm1640.DelayMicroseconds | main/main.c:47-51 | a delay appends one Delay event with the requested count and cannot fail |
| Driver.Tm1640.SendStart | main/main.c:53-61 | send_start appends exactly what its step list emits under Run, and returns Run's result: DATA low, 1 us, then CLOCK low, 1 us, stopping after the first write if it fails |
| Driver.Tm1640.SendByte | main/main.c:63-79 | the loop over the 8 bits appends exactly SendBits' events and returns its result; invariant: the trace so far, followed by what the rest of the loop emits, is the whole byte |
| Driver.StopsAtData | main/main.c:67-69 | a failing DATA write ends send_byte with that error, after the bit's DATA write and its 1 us delay |
| Driver.StopsAtRise | main/main.c:71-73 | a failing CLOCK-high write ends send_byte with that error, after the CLOCK-high write and its 2 us delay |
| Driver.BitSent | main/main.c:75-77 | once a bit's CLOCK-high write succeeds, all six events of the bit are on the trace, and the CLOCK-low result becomes the status carried into the next bit |
| Driver.Tm1640.SendEnd | main/main.c:81-94 | send_end appends exactly what its step list emits under Run, and returns Run's result |
| Driver.Tm1640.WriteSram | main/main.c:96-122 | write_sram appends exactly WriteSramSpec's events and returns its result: nothing and ESP_ERR_INVALID_SIZE when the range check fails, otherwise the two transactions run call by call with early return |
| Driver.Tm1640.SendPayload | main/main.c:117-121 | send_byte for each of the first size bytes of the buffer in order, each checked, then send_end; the appended events and the result are Run's for that step list |
| Driver.Tm1640.DisplayBrightness | main/main.c:125-141 | display_brightness appends exactly one transaction's run for the clamped command byte, and returns its result |
| Driver.Tm1640.Initialize | main/main.c:143-162 | tm1640_init appends exactly InitSpec's events, and returns its result |
| Framing.StartProg | main/main.c:53-61 | defines send_start as DATA low then 1 us, checked; CLOCK low then 1 us, returned |
| Framing.LevelProg | main/main.c:67-76 | defines one loop iteration: DATA set then 1 us, checked; CLOCK high then 2 us, checked; CLOCK low then 1 us, checked only when it is the last |
| Framing.BitProg | main/main.c:65-77 | defines iteration i as LevelProg of bit i, with the CLOCK-low ret returned only for i = 7 |
| Framing.ByteProg | main/main.c:63-79 | defines send_byte(v) as iterations 0 to 7 in order |
| Framing.EndProg | main/main.c:81-94 | defines send_end as DATA low then 1 us, checked; CLOCK high then 1 us, checked; DATA high then 2 us, returned |
| Framing.SendBits | main/main.c:63-79 | defines the loop as it runs: stop at a failing DATA or CLOCK-high write, else carry the CLOCK-low ret into the next bit and return it after bit 7; SendByte is proved against it |
| Framing.Bit | main/main.c:66 | the level send_byte puts on DATA for bit i is High exactly when (v >> i) & 1 == 1 |
| Framing.EmitStart | main/main.c:53-61 | send_start emits DATA low, 1 us, CLOCK low, 1 us, in that order |
| Framing.EmitEnd | main/main.c:81-94 | send_end emits DATA low, 1 us, CLOCK high, 1 us, DATA high, 2 us: the last DATA rise happens while CLOCK is high |
| Framing.EmitBit | main/main.c:67-76 | one bit emits set DATA, 1 us, CLOCK high, 2 us, CLOCK low, 1 us |
| Framing.EmitBitsFrom | main/main.c:65-77 | bits i to 7 emit 6 events each, bit i first, each bit's six events in per-bit order |
| Framing.EmitByte | main/main.c:63-79 | a full byte emits 48 events, bit k at events 6k to 6k+5, and leaves CLOCK low |
| Framing.SampledBit | main/main.c:66-76 | with CLOCK low beforehand, one bit raises CLOCK exactly once while DATA carries the bit, and leaves CLOCK low and DATA at the bit |
| Framing.SampledBitsFrom | main/main.c:65-77 | bits i to 7 give exactly 8 - i rising CLOCK edges; at the k-th, DATA carries bit i + k of v; CLOCK is left low |
| Framing.SentLsbFirst | main/main.c:63-79 | bit order: at the 8 rising CLOCK edges of send_byte(v), DATA carries v's bits least significant first |
| Framing.OneLsbFirst | main/main.c:65-77 | the byte 0x01 goes out as 1, 0, 0, 0, 0, 0, 0, 0 |
| Framing.StartOnBus | main/main.c:53-61 | send_start raises no CLOCK edge and leaves both lines low, whatever they were before |
| Framing.EndOnBus | main/main.c:81-94 | with CLOCK low beforehand, send_end raises CLOCK once while DATA is low, then raises DATA with CLOCK high, and leaves both lines high |
| Framing.SampledBytesFrom | main/main.c:117-120 | bytes sent one after the other put their bits on the bus in order, each byte least significant bit first, and leave CLOCK low |
| Framing.TransactionOnBus | main/main.c:100-121 | one framed transaction puts the bits of its bytes on the bus in order, then the stop's single CLOCK rise with DATA low, and leaves the bus idle (both lines high) |
| Framing.RunStart | main/main.c:53-61 | send_start call by call: a failing DATA-low write stops it after 2 events; otherwise 4 events and the CLOCK-low result |
| Framing.RunEnd | main/main.c:81-94 | send_end call by call: it stops at the first failing write; otherwise all 6 events and the final DATA-high result |
| Framing.RunLevel | main/main.c:67-76 | sending one level: a failing DATA or CLOCK-high write stops after 2 or 4 events; a failing CLOCK-low write stops only when its result is checked; otherwise the rest runs after 6 events |
| Framing.RunBit | main/main.c:65-77 | one loop iteration: a CLOCK-low failure in bits 0 to 6 does not stop the byte; bit 7's CLOCK-low result is the byte's result |
| Framing.SendBitsIsRun | main/main.c:63-79 | the bit-by-bit loop function equals send_byte's step list under Run, whatever status the loop starts from |
| Commands.InRange | main/main.c:97 | defines the range check as written: offset + (size mod 256) <= 16, the size cast to uint8_t first |
| Commands.WriteSramProg | main/main.c:100-121 | defines write_sram's calls: one transaction with the data command, then one with the address command and the payload |
| Commands.WriteSramSpec | main/main.c:96-122 | defines write_sram: no events and ESP_ERR_INVALID_SIZE when InRange fails, else Run of WriteSramProg |
| Commands.BrightnessProg | main/main.c:129-140 | defines display_brightness's calls: one transaction with BrightnessCommand(v) |
| Commands.DisplayBrightnessSpec | main/main.c:125-141 | defines display_brightness as Run of BrightnessProg |
| Commands.DataCommand | main/main.c:103 | the data command is 0x40: class bits 01, normal mode, address auto-increment |
| Commands.AddressCommand | main/main.c:113 | the address command has 11 in its top two bits; for offsets below 16 it lies in 0xC0 to 0xCF and its low nibble is the offset |
| Commands.Clamp | main/main.c:126 | the clamped brightness is at most 8, and equals v unless v > 8, when it is 8 |
| Commands.BrightnessCommand | main/main.c:132-137 | every brightness command has 0x8 in its high nibble |
| Commands.BrightnessZeroIsOff | main/main.c:135-137 | brightness 0 gives 0x80, display off |
| Commands.BrightnessOnCodes | main/main.c:132-134 | brightness 1 to 8 gives 0x88 \| (v - 1), which lies in 0x88 to 0x8F |
| Commands.BrightnessSaturates | main/main.c:126-134 | every brightness of 8 or more gives 0x8F |
| Commands.BrightnessRoundTrip | main/main.c:125-137 | decoding the command (display bit, then step + 1) gives back min(v, 8) |
| Commands.BrightnessInjective | main/main.c:125-137 | brightness levels 0 to 8 give distinct commands |
| Commands.WriteSramInOrder | main/main.c:100-121 | write_sram's step list is start, data command, end, start, address command, each payload byte, end, in that order |
| Commands.BrightnessInOrder | main/main.c:129-140 | display_brightness's step list is start, the command byte, end |
| Commands.WriteSramRangeError | main/main.c:97 | write_sram returns ESP_ERR_INVALID_SIZE with no events exactly when offset + (length mod 256) > 16 |
| Commands.WriteSramRejectsOverflow | main/main.c:97 | offset 15 with 3 bytes is rejected with no events |
| Commands.WriteSramAcceptsEmptyAtEnd | main/main.c:97 | offset 16 with no bytes passes the check and drives the bus |
| Commands.WriteSramSizeWraps | main/main.c:97 | 256 bytes at offset 0 pass the uint8_t-cast check and, when every checked call succeeds, are all sent, past the 16-byte display memory |
| Commands.WriteSramSucceeds | main/main.c:100-121 | when the check passes and every checked call succeeds, write_sram emits exactly two framed transactions, 0x40 alone, then 0xC0 \| offset and the payload in buffer order, and returns success |
| Commands.DisplayBrightnessSucceeds | main/main.c:129-140 | when every checked call succeeds, display_brightness emits exactly one framed transaction carrying the command byte, and returns success |
| Commands.WriteSramOnBus | main/main.c:100-121 | on the bus, a successful write_sram gives 0x40's bits, a stop, then the bits of 0xC0 \| offset and of the payload in buffer order, and a stop |
| Commands.DisplayBrightnessOnBus | main/main.c:129-140 | on the bus, a successful display_brightness gives the command byte's bits, least significant first, and a stop |
| Session.InitProg | main/main.c:146-161 | defines tm1640_init's calls: direction and pull-up on clock_pin, CLOCK high on pin 16, direction and pull-up on pin 17, DATA high, each checked, no delays |
| Session.InitSpec | main/main.c:143-162 | defines tm1640_init as Run of InitProg |
| Session.EmitInit | main/main.c:146-161 | tm1640_init emits its six calls, in order, with no delays |
| Session.InitSucceeds | main/main.c:143-162 | when every call succeeds, tm1640_init makes its six calls in order and returns success |
| Session.InitStopsAtFailure | main/main.c:143-162 | when call k is the first to fail, tm1640_init has made calls 0 to k only and returns call k's error |
| Session.InitIgnoresDataPin | main/main.c:143-161 | tm1640_init behaves the same whatever data_pin is |
| Steps.Run | main/main.c:53-60 | defines an operation's meaning: each call and its delay in order; a failing call whose ret is checked (`if(ret) return ret;`) ends it with that error; an unchecked ret is overwritten by the next call |
| Steps.CallsSucceed | main/main.c:100-121 | defines "every checked call succeeds": the oracle answers success at the trace position of each checked call, ignoring delays and unchecked calls |
| Steps.RunSucceeds | main/main.c:100-121 | when every checked call succeeds (CallsSucceed), an operation emits its whole step list and returns success |
| Steps.FirstFailureIsFirst | main/main.c:100-121 | the first failure is a checked call that failed, and every checked call before it succeeded |
| Steps.RunStopsAtFirstFailure | main/main.c:101-121 | error propagation: an operation stops right after its first failing checked call, with that call's error, having emitted only the steps up to it |
| Steps.RunEmitsPrefix | main/main.c:101-121 | what an operation emits is always a prefix of its full step list, and all of it when it returns success |
| Steps.RunAppend | main/main.c:100-121 | a sequence of two parts runs its second part only when the first returns success, right after the first part's events |
| Steps.RunOne | main/main.c:55-60 | a single call emits its event and its delay, and returns the call's result when the code checks it, success otherwise |

## Left out

- delay_microseconds (main/main.c:47-51) busy-waits on the hardware timer. A delay is only a `Delay(n)` event carrying the requested count; time and the loop counter are not modelled.
- The ESP-IDF calls gpio_set_level, gpio_set_direction and gpio_pullup_en are foreign code. They are events plus an oracle answer per trace position. The class keeps no pin state (direction, pull-up or level); the CLOCK and DATA levels are derived from the trace (`Framing.LinesAfter`) only for the bus lemmas.
- app_main (main/main.c:164 onwards) is application code: the demo patterns, sleep and ESP_ERROR_CHECK's abort.
- The 7-segment glyph comment and the unused constants DATA_ADDRESS_FIXED and DATA_TESTMODE carry no behaviour.
- Physical timing, electrical behaviour and the chip's own decoding of the bus cannot be derived from the code.
- Concurrency: the code assumes a single caller, and so does the model.
- Driver.Tm1640.SendPayload: the loop index is unbounded. The C code's `int i`, compared against a `size_t`, is not modelled for buffers longer than INT_MAX.
- Driver.Tm1640.WriteSram: requires size <= buf.Length. The C code reads buf_size bytes of write_buf without checking, so the caller must provide them.
- esp_err_t is an int in the model. Error codes pass through unchanged, so their 32-bit width plays no part.
