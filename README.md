# RFID tag decoder, modelled in Dafny

This project models the decoder half of an Arduino library for RFID readers
(`RFID.h`, `RFID.cpp`). A decoder object is built for one of two
interfaces:

- **UART.** A serial reader sends frames. Each frame is STX (0x02), twelve
  ASCII hex characters and ETX (0x03). Each poll reads at most one byte.
  - STX clears the tag.
  - A data byte goes into the 13-slot raw buffer while fewer than twelve
    bytes are held.
  - ETX parses characters 0-3 as the manufacturer (facility) code, 4-9 as
    the id and 10-11 as the checksum. It XORs the five hex pairs of
    characters 0-9 and sets `valid` when they match the checksum.
- **Wiegand.** Two interrupt handlers, DATA0 and DATA1, shift bits into a
  64-bit accumulator with a byte counter. This state is static, so all
  objects share one accumulator. When the count reaches the configured
  length (26 or 35), the shared flag is raised. `getTag` then:
  - extracts the card and facility codes;
  - runs the format's parity check;
  - empties the accumulator.

Modules:

| module | file | content |
|---|---|---|
| `RfidTypes` | `rfid_types.dfy` | the tag record, the mode, the constants, the 32- and 8-bit truncations |
| `HexParser` | `hex.dfy` | `hex2dec` as a loop, proved against a fold, and the fold proved equal to the base-16 value on hex digits |
| `UartFrame` | `uart.dfy` | the UART decoder as a state machine over values: `Step` on one poll, `Feed` on a stream |
| `UartProps` | `uart_props.dfy` | stream-level properties: STX reset, the twelve-character limit, slot 12, ETX and `valid` |
| `UartCodec` | `uart_codec.dfy` | the wire format (a 16-bit facility code F and a 24-bit id I as twelve hex digits with an XOR byte), and round trips in both directions |
| `WiegandBits` | `wiegand.dfy` | the shared accumulator as a value, the bit events, the two parity checks as specifications, and the tag built from the bits |
| `Rfid` | `rfid.dfy` | the library's objects |

The `Rfid` module holds the library's objects:

- **`WiegandBus`** holds the static fields. Each `Rfid` object has a
  reference to the shared one.
- **`Rfid`** holds the per-object fields: the tag, the raw array, the UART
  counter and flag, and the facility and card codes.
- **Free methods** implement the checks' loops.

Each method is proved against the value model.

Integer widths are those of a target whose `int` and `long` are 32 bits and
whose `long long` is 64 bits. So:

- `mfr`, `id`, the codes and the parity words are `bv32`;
- the accumulator is `bv64`;
- the bit counter and the checksum are `bv8`.

Where the code and what its own comments or a reader might expect differ,
the model follows the code:

- Bytes that arrive before the first STX, or after an ETX, are stored like
  any data byte. There is no "inside a frame" state, although the outline
  comment of `prepareRFIDTagUART` (RFID.cpp:120-123) says it reads until
  an STX arrives.
- In the 35-bit check, each round ORs in `(bits >> base) & 0x11`. That is
  bits `base` and `base + 4`, which overlap the next rounds. It is not a
  stride of single bits.
- `getTag` in Wiegand mode rebuilds the tag whether or not the flag is up.
- The 26-bit branch takes `mfr` from the stored facility code. That code is
  always 0 there, because `resetWiegand` zeroes it and only the 35-bit
  branch sets it.

## Model

| member | source | states |
|---|---|---|
| HexParser.Nibble | RFID.cpp:213-215 | defines the loop's character transform: subtract 48, and 7 more when the result is above 9, in byte arithmetic. |
| HexParser.HexFold | RFID.cpp:211-217 | defines the loop's accumulation: shift the 64-bit value left by four and OR in the next nibble, first character most significant. |
| HexParser.Hex2Dec | RFID.cpp:206-217 | hex2dec over an inclusive range returns the fold of nibbles, first character most significant. An empty range (start > end) returns 0. |
| HexParser.NibbleOfDigit | RFID.cpp:214-215 | the subtract-48-then-7 transform maps every character 0-9 and A-F to the digit's value. |
| HexParser.HexFoldIsHexValue | RFID.cpp:202-217 | on a string of hex digits, hex2dec's fold equals the base-16 value of the string (modulo 2^64). |
| HexParser.HexExample | RFID.cpp:204 | "243FB87D" parses to 0x243FB87D. |
| UartFrame.Blank | RFID.cpp:132-142 | defines the state STX leaves: tag fields zero, all thirteen slots zero, counter 0, flag down. |
| UartFrame.Finalize | RFID.cpp:148-186 | defines the state ETX leaves: mfr, id and chk parsed from slots 0-3, 4-9 and 10-11, valid set when the XOR of the five pairs equals chk and otherwise kept, the flag up; it keeps the buffer well formed. |
| UartFrame.Store | RFID.cpp:188-190 | defines a data byte's effect: stored at the counter and the counter raised while fewer than twelve are held, otherwise nothing; it keeps the buffer well formed. |
| UartFrame.Step | RFID.cpp:118-200 | one poll keeps the buffer at thirteen slots with at most twelve held. |
| UartFrame.Feed | RFID.cpp:118-200 | any stream of polls keeps the buffer at thirteen slots with at most twelve held. |
| UartProps.FeedData | RFID.cpp:188-190 | from a state whose buffer holds p followed by zeros and the counter at the length of p (every state after an STX), data bytes are appended while fewer than twelve are held and dropped after that. Nothing else in the state changes. |
| UartProps.FeedConcat | RFID.cpp:118-200 | polling one stream after another equals polling their concatenation. |
| UartProps.FrameDecodes | RFID.cpp:132-186 | after STX, data and ETX, from any state: raw holds the first twelve data bytes padded with zeros, and slot 12 is 0. The fields are parsed from raw. `valid` is true iff the checksum matches. The flag is up. |
| UartProps.TerminatorKept | RFID.cpp:188-190 | once slot 12 holds 0, no stream of bytes writes it. |
| UartProps.EtxKeepsValid | RFID.cpp:172-182 | ETX sets `valid` when the checksum matches and never clears an earlier `valid`. It always raises the flag. |
| UartCodec.EncodeThenDecode | RFID.cpp:148-186 | for every 16-bit facility code F and 24-bit id I, the hex frame of F, I and their XOR byte decodes to F and I, with the checksum equal to the XOR and `valid` true. This holds from any state. |
| UartCodec.DecodeThenEncode | RFID.cpp:148-186 | a frame of twelve hex digits that decodes with `valid` true is the wire-format encoding of some 16-bit F and 24-bit I, and its fields are F and I. |
| UartCodec.HexFrameDecodes | RFID.cpp:150-183 | a frame of twelve hex digits decodes to the bytes its six hex pairs denote. `valid` is true iff the XOR of the first five bytes equals the sixth. |
| UartCodec.FieldWidths | RFID.cpp:152-153 | a frame of twelve hex digits gives `mfr` below 2^16 and `id` below 2^24. |
| UartCodec.ExampleFrame | RFID.cpp:148-186 | the characters 001000112223 decode to mfr 0x10, id 0x1122, chk 0x23 and `valid` true. |
| UartCodec.ExampleMismatch | RFID.cpp:172-176 | the same frame with checksum digits 00 decodes with chk 0 and `valid` false. |
| WiegandBits.Parity26 | RFID.cpp:319-344 | defines the 26-bit check: bits 13-25 hold an even number of ones and bits 0-12 an odd number. |
| WiegandBits.Round | RFID.cpp:356-357 | defines one gathering round on one word: shift left by two and OR in `(bits >> base) & 0x11`, kept to 32 bits. |
| WiegandBits.Gather | RFID.cpp:354-360 | defines the last k rounds on both words, the second reading from bit 35 - 3k and the third from bit 34 - 3k. |
| WiegandBits.Gathered | RFID.cpp:350-360 | defines the words after all eleven rounds, from a second word 0 and a third word holding bits 34 and up. |
| WiegandBits.Close2 | RFID.cpp:361 | defines the closing step on the second word: shift left by one and OR in bit 0 of the frame. |
| WiegandBits.Parity35 | RFID.cpp:363-386 | defines the 35-bit check: an even count over bits 0-34, an odd count over the 23 low bits of the closed second word, and an even count over those of the third word. |
| WiegandBits.Pulse | RFID.cpp:390-420 | defines one bit event on the shared state: shift the bit in, raise the byte counter, and raise the flag when the count equals a configured length of 26 or 35. |
| WiegandBits.Reset | RFID.cpp:257-263 | defines the shared state resetWiegand leaves: the length and flag given, the bits and count zero. |
| WiegandBits.Code13 | RFID.cpp:322-323 | masking a 13-bit code out of the bits into a 32-bit word keeps the number of ones among the 13 low bits. |
| WiegandBits.ShiftedOut | RFID.cpp:392 | a bit event moves every earlier bit one place up; bit 63 falls off. |
| WiegandBits.ShiftedIn | RFID.cpp:406-409 | a bit event puts its bit (0 for DATA0, 1 for DATA1) at bit 0. |
| WiegandBits.PulseFields | RFID.cpp:390-420 | a bit event keeps the configured length and adds one to the count. The flag is up afterwards iff the new count raises it or it was already up. |
| WiegandBits.CounterWraps | RFID.cpp:393 | the counter is a byte, so 255 wraps to 0. |
| WiegandBits.PulseFlag | RFID.cpp:395-398 | after a bit event the flag is up iff it was up, or the count now equals the configured length and that length is 26 or 35. |
| WiegandBits.PulsesFromReset | RFID.cpp:257-263 | after a reset with the flag down (`Reset(len, false)`) and fewer than 256 bit events, the count equals the number of events. The flag is up iff the length is 26 and at least 26 bits came, or the length is 35 and at least 35 bits came. |
| WiegandBits.PulsesKeepFlag | RFID.cpp:395-398 | no sequence of bit events lowers a raised flag. |
| WiegandBits.PrepareTag | RFID.cpp:267-316 | defines the tag built from the bits: for 26 bits mfr is the facility code given, id the 24 bits above bit 0, valid the 26-bit check; for 35 bits mfr is bits 2-13, id bits 14-33, valid the 35-bit check; chk 0 in both; any other length keeps the tag. |
| WiegandBits.Decode26 | RFID.cpp:269-285 | for a 26-bit frame of parity bit, 24-bit card code and parity bit: `id` is the card code, `mfr` is the stored facility code, `chk` is 0, raw is untouched, and `valid` is the 26-bit check. |
| WiegandBits.Decode35 | RFID.cpp:293-307 | for a 35-bit frame: `mfr` is the 12-bit facility code from bits 2-13, `id` is the 20-bit card code from bits 14-33, `chk` is 0, and `valid` is the 35-bit check. |
| WiegandBits.TagWidths | RFID.cpp:267-316 | for all bits: the 26-bit id fits 24 bits, the 35-bit facility code fits 12 bits and the 35-bit id fits 20 bits. Any other length leaves the tag unchanged. |
| WiegandBits.Parity26Examples | RFID.cpp:319-344 | the bits 1 pass the 26-bit check and the bits 0 fail it. |
| WiegandBits.RoundBits | RFID.cpp:356-357 | for every frame and every base up to 32, one gathering round from an empty word puts bit base at bit 0 and bit base + 4 at bit 4, and every other bit of the word is zero, so bits base + 1 to base + 3 are dropped. |
| WiegandBits.Parity2Closed | RFID.cpp:350-361 | for every frame, the closed second word in closed form: bit 0 is frame bit 0; for j from 0 to 10, word bit 21 - 2j is frame bit 2 + 3j ORed with frame bit 12 + 3j when j is at most 8; the even word bits 2-22 are zero. |
| WiegandBits.RoundTakesTwoBits | RFID.cpp:356-357 | at base 2: bit 2 lands at bit 0, bit 6 at bit 4, and bit 3 is dropped. |
| WiegandBits.OverlapLeavesCountedBits | RFID.cpp:354-362 | the second word of the frame with only bit 6 set is 0x200_0000: bit 6 enters in the first round through the mask's bit 4 and ends above the 23 counted bits. |
| WiegandBits.Parity35Zero | RFID.cpp:347-386 | the all-zero frame fails the 35-bit check. |
| WiegandBits.Example26Valid | RFID.cpp:257-292 | after a reset, 25 DATA0 events and one DATA1 event: the flag is up, the id is 0 and the check passes. |
| WiegandBits.Example26Invalid | RFID.cpp:257-292 | after a reset and 26 DATA0 events: the flag is up, the id is 0 and the check fails. |
| Rfid.WiegandBus.constructor | RFID.cpp:19-22 | the static state starts zeroed. |
| Rfid.WiegandBus.ShiftBit | RFID.cpp:406-409 | the accumulator is shifted left, with 1 ORed in for DATA1. The other fields are untouched. |
| Rfid.WiegandBus.CountBit | RFID.cpp:393-398 | the counter goes up by one. The flag is raised when the new count equals the configured length of 26 or 35, and is otherwise unchanged. |
| Rfid.WiegandBus.Data0 | RFID.cpp:390-403 | the shared state after DATA0 is `Pulse(before, false)`. |
| Rfid.WiegandBus.Data1 | RFID.cpp:406-420 | the shared state after DATA1 is `Pulse(before, true)`. |
| Rfid.PairsXorIsChecksum | RFID.cpp:157-162 | the checksum loop's five rounds give the XOR of the five hex pairs. |
| Rfid.CountOnes32 | RFID.cpp:328-332 | the counting loop returns the number of ones among the n low bits of a 32-bit word. |
| Rfid.CountOnes64 | RFID.cpp:367-371 | the same for the 64-bit word. |
| Rfid.HalfCount | RFID.cpp:322-332 | masking a 13-bit half out of the bits and counting it gives the ones of that half. |
| Rfid.CheckParity26 | RFID.cpp:319-344 | the result is true iff bits 13-25 hold an even number of ones and bits 0-12 an odd number. |
| Rfid.GatherWords | RFID.cpp:351-360 | the gathering loop builds the two words the 35-bit specification defines. |
| Rfid.CountWords | RFID.cpp:361-383 | the three counting loops count bits 0-34, the 23 low bits of the closed second word and the 23 low bits of the third word. |
| Rfid.CheckParity35 | RFID.cpp:347-387 | the result is the 35-bit check: the 35 low bits are even, the second word is odd and the third word is even. |
| Rfid.Rfid.constructor | RFID.cpp:25-87 | the tag fields are zeroed and the mode is fixed. UART: the counter and the flag are cleared and the shared state is untouched. Wiegand: the length is stored, the shared bits and count are zeroed, the shared flag is kept and the codes are zeroed. |
| Rfid.Rfid.ZeroRaw | RFID.cpp:140 | all thirteen raw slots become 0. |
| Rfid.Rfid.ClearFrame | RFID.cpp:132-142 | STX leaves the blank UART state. |
| Rfid.Rfid.ParseFields | RFID.cpp:152-154 | `mfr`, `id` and `chk` are the 32-, 32- and 8-bit cuts of characters 0-3, 4-9 and 10-11. Nothing else changes. |
| Rfid.Rfid.ComputeChecksum | RFID.cpp:150-162 | the checksum loop returns the frame checksum of raw. |
| Rfid.Rfid.FinalizeFrame | RFID.cpp:148-186 | the UART state after ETX is `Finalize` of the state before. |
| Rfid.Rfid.StoreChar | RFID.cpp:188-190 | the UART state after a data byte is `Store` of the state before. |
| Rfid.Rfid.PrepareRfidTagUart | RFID.cpp:118-200 | one poll takes the UART state to `Step(before, input)` and returns the new flag. |
| Rfid.Rfid.ResetWiegand | RFID.cpp:257-263 | the shared bits and count become 0, the length and flag are kept, the codes become 0 and the tag is untouched. |
| Rfid.Rfid.Prepare26 | RFID.cpp:269-292 | the 26-bit branch sets the card code and the tag fields as the 26-bit decoder prescribes. |
| Rfid.Rfid.Prepare35 | RFID.cpp:293-315 | the 35-bit branch sets both codes and the tag fields as the 35-bit decoder prescribes. |
| Rfid.Rfid.PrepareRfidTagWiegand | RFID.cpp:267-316 | the tag becomes `PrepareTag(length, bits, facility code, tag)`. Any other length changes nothing. |
| Rfid.Rfid.RefreshWiegand | RFID.cpp:236-254 | the tag is built from the bits, then the shared state is emptied with its flag lowered. |
| Rfid.Rfid.Available | RFID.cpp:90-99 | UART: one poll, returning its flag. Wiegand: the shared flag, with nothing changed. |
| Rfid.Rfid.GetTag | RFID.cpp:104-115 | UART: the tag as it stands is returned and only the flag is lowered; the shared bits and the facility and card codes are unchanged. Wiegand: the tag rebuilt from the shared bits (facility code 0) is returned, the shared state is emptied with its flag down, and the UART count and flag are unchanged. |

## Left out

- **I/O.**
  - The serial transport is not part of this model: `SoftwareSerial`, its `listen`, `available` and `read`, the pin numbers and the baud rate. A poll receives the byte it may read as an `Option` parameter.
  - `attachInterrupt` and its pin swap for the Leonardo are not modelled.
  - The `DEBUG` printing is not modelled.
- **Concurrency.** `volatile` and interrupts that fire during `refreshWiegand` are not modelled. The handlers are methods called one at a time.
- **Integer widths.** The model assumes a 32-bit `int` and `long`. On a 16-bit AVR target, `mfr` and the parity words would be cut to 16 bits. The model does not cover that.
- **Hex2Dec: preconditions.** It requires `end < 255` and `end` inside the string. With a byte counter, `end = 255` would loop forever. The library only passes indices below 12.
- Rfid.Rfid.constructor: the source leaves the raw buffer uninitialised. The model allocates it without promising its contents.
- **Counter types.**
  - `bytesRead` is a `nat` that stays at or below 12, where the source uses a byte.
  - The bit-count locals of the parity checks are naturals; they never exceed 35.
- **Signed shifts.** The shifts of the signed `int` parity words are treated as logical. Only their 23 low bits are counted, so arithmetic and logical shifts agree there.
- **Shared state in the checks.**
  - Rfid.CheckParity26 and Rfid.CheckParity35 take a copy of the shared bits as a parameter, because they only read them.
  - Rfid.GatherWords counts its eleven rounds down instead of up.
- **Split methods.** Each phase of a source routine is its own method (`ShiftBit` and `CountBit`, `ParseFields` and `ComputeChecksum`, `GatherWords` and `CountWords`), composed in the original order. The proof needs the split; the computation is unchanged.
- UartCodec.DecodeThenEncode, UartCodec.HexFrameDecodes and UartCodec.FieldWidths: these are stated only for frames of twelve hex digits. For other characters, hex2dec's nibbles are not digit values.
- **Shared bus.** The source keeps the accumulator in static members, so every object shares one. In the model, every `Rfid` must be built with the same `WiegandBus`, and nothing enforces this.
- **No critical section.** Nothing suppresses bit events during the finalize and reset sequence, and the source leaves `noInterrupts()` commented out. The model has no concurrent bit events, so it does not model this.
