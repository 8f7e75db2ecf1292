# RadioshackStrip in Dafny

A model of `RadioshackStrip`, an Arduino driver for a strip of addressable RGB
LEDs driven over one GPIO pin. The driver keeps a pixel buffer of three bytes
per LED in the strip's wire order (red, blue, green), optionally pre-scales
colours by a brightness factor when they are written, and on `show()` waits out
a latch time since the previous frame, then streams the buffer to the output
port most significant bit first. Each bit is one write of the "line high"
register value and one of the "line low" value, with a long or short busy hold
after each: 22 units high and 9 low for a 1, 9 high and 22 low for a 0.

Modules, leaves first:

- `Ints` (`ints.dfy`): the `uint8_t`, `uint16_t` and `uint32_t` ranges as subset
  types of `int`, and powers of two for the shifts.
- `Rgb` (`rgb.dfy`): the static `Color` packing and the `uint8_t` casts that
  unpack a 32-bit colour.
- `Brightness` (`brightness.dfy`): the stored factor `level + 1` (8-bit wrap) and
  the channel scaling `(c * k) >> 8`.
- `PixelBuffer` (`pixel_buffer.dfy`): the buffer as a value; `Put` and `Get` say
  what a write does to it and what a read returns.
- `Waveform` (`waveform.dfy`): the register values, the bit order, the pulse
  trace of a bit, a byte and a frame; a receiver's decoding of the trace; the
  output register as a class that records its writes.
- `Latch` (`latch.dfy`): the 32-bit elapsed time and where the wait loop of
  `show()` stops, over a sequence of clock readings.
- `LedStrip` (`strip.dfy`): the class `RadioshackStrip`, whose methods update
  the buffer array, the brightness and `endTime` in place and append the
  frame's writes to the port.

How the platform is represented:

- The clock `micros()` is a sequence of readings, consumed one per call.
  `Show` says how many readings it used.
- The port register is an `OutputPort` object. Its `level` is what `*port`
  reads; its `trace` records every write together with the no-op hold that
  follows it.
- The pin mask is a constructor parameter, and so is whether `malloc`
  succeeded.
- `brightness` and `endTime` are constructor parameters, because the
  constructor never initialises them.

The pure parts of the source (`Color`, `numPixels`, `getPixelColor`) are
functions. The parts that change state (`setPixelColor`, `setBrightness`,
`show`, `sendPixels`, `sendByte`, `sendBit`) are methods with the source's
loops. Each method is proved against a function of the `PixelBuffer`,
`Waveform` or `Latch` module, and the lemmas of those modules state what the
driver promises.

Points where the code's behaviour is easy to misread:

- Only `show()` checks for a missing buffer. `setPixelColor` and
  `getPixelColor` dereference it for any in-range index, so the model requires
  a buffer exactly then.
- `endTime` is never initialised, and the wait loop has no notion of a first
  frame. The loop stops at a first reading showing at least 20 microseconds
  elapsed, or at a second reading showing exactly 0 elapsed (the `> 0` test).
  So a `show()` that comes within the same clock tick as the end of the
  previous frame does not wait. `Latch.WaitFrom` states both exits.
  `Latch.AdvancedClockWaitsFullLatch` states the full latch guarantee, which
  holds whenever the clock has moved on since the last frame.
- The header's comment calls `brightness` "Index of blue byte"
  (`Radioshack_Strip.h:33`). In the code it is the scale factor.
- Brightness follows `setBrightness`: level 255 stores 0, which disables
  scaling. Level 0 stores 1, which scales every channel to 0, as the comment
  at `Radioshack_Strip.cpp:65` says.
- On AVR, `r * brightness` is a 16-bit signed product and can overflow. Bits 8
  to 15 of the product are the same either way, and the cast keeps only those
  bits. So the model computes `(c * k) / 256` exactly.

## Model

| member | source | states |
|---|---|---|
| `Rgb.Color` | Radioshack_Strip.cpp:83-87 | the packed colour is below 2^24, and its red, green and blue bytes are the three arguments; it depends only on the arguments |
| `Rgb.PackUnpack` | Radioshack_Strip.cpp:59-62 | repacking the three `uint8_t` casts of a 32-bit colour gives the colour without its top byte |
| `Brightness.Stored` | Radioshack_Strip.cpp:69-77 | the stored factor is 0 exactly when the requested level is 255, and otherwise is the level plus one |
| `Brightness.Scale` | Radioshack_Strip.cpp:47-51 | a stored channel never exceeds the requested one; factor 0 keeps it; any other factor strictly dims every non-zero channel |
| `Brightness.FullLevelPassesThrough` | Radioshack_Strip.cpp:65-75 | after a request for level 255, channels are stored exactly as given |
| `Brightness.ZeroLevelIsOff` | Radioshack_Strip.cpp:65-75 | after a request for level 0, every channel is stored as 0 |
| `Brightness.LevelMonotone` | Radioshack_Strip.cpp:65-77 | over all 256 requested levels, wrap-around included, a higher level never stores a dimmer channel |
| `Brightness.ChannelMonotone` | Radioshack_Strip.cpp:47-51 | scaling by one factor keeps the order of channel values |
| `PixelBuffer.Put` | Radioshack_Strip.cpp:44-57 | an out-of-range write changes nothing; an in-range write puts the scaled red, green and blue at offsets 0, 2 and 1 of LED n's triplet, and every byte of every other LED is unchanged |
| `PixelBuffer.Get` | Radioshack_Strip.cpp:89-100 | out of range the result is 0; in range it is below 2^24, and unpacking it gives the red, green and blue bytes stored at offsets 0, 2 and 1 |
| `PixelBuffer.GetAfterPut` | Radioshack_Strip.cpp:46-97 | reading an LED after writing it gives the written colour with each channel scaled by the factor in force |
| `PixelBuffer.GetAfterPutUnscaled` | Radioshack_Strip.cpp:46-97 | with factor 0, reading back gives exactly `Color(r, g, b)` |
| `PixelBuffer.GetAfterPutPacked` | Radioshack_Strip.cpp:60-62 | with factor 0, reading back after the packed overload gives `c mod 2^24` |
| `PixelBuffer.GetAfterPutElsewhere` | Radioshack_Strip.cpp:52-55 | writing LED n leaves the colour of every other LED unchanged |
| `PixelBuffer.PutOverwrites` | Radioshack_Strip.cpp:52-55 | of two writes to one LED only the second remains, so writes between frames collapse into the final buffer |
| `PixelBuffer.PutCommutes` | Radioshack_Strip.cpp:52-55 | writes to two different LEDs give the same buffer in either order |
| `Waveform.SignalHigh` | Radioshack_Strip.cpp:105 | the "line high" value has the pin bits set and every other bit from the port snapshot |
| `Waveform.SignalLow` | Radioshack_Strip.cpp:106 | the "line low" value has the pin bits cleared and every other bit from the port snapshot |
| `Waveform.BitPulses` | Radioshack_Strip.cpp:121-211 | a bit is two writes, high then low; the holds add up to 31 units; the line stays high longer than low exactly when the bit is 1 |
| `Waveform.ByteBits` | Radioshack_Strip.cpp:115-119 | a byte is sent as eight bits |
| `Waveform.FrameBits` | Radioshack_Strip.cpp:103-113 | a frame of n bytes is 8n bits |
| `Waveform.FrameBitsAt` | Radioshack_Strip.cpp:107-118 | bit k of the frame is bit k mod 8 (most significant first) of byte k / 8, so bytes go out from byte 0 |
| `Waveform.Pulses` | Radioshack_Strip.cpp:116-117 | a bit sequence is sent as two writes per bit |
| `Waveform.PulsesAt` | Radioshack_Strip.cpp:127-210 | write 2k is the high value held for bit k's high time, and write 2k + 1 is the low value held for its low time |
| `Waveform.FrameShape` | Radioshack_Strip.cpp:103-211 | a frame of n bytes is exactly 16n writes; writes 2k and 2k + 1 carry bit k mod 8 of byte k / 8, with holds 22/9 for a 1 and 9/22 for a 0 |
| `Waveform.PulsesDecode` | Radioshack_Strip.cpp:121-211 | reading each bit back from which phase was held longer recovers the bit sequence, whatever the register values are |
| `Waveform.ByteBitsValue` | Radioshack_Strip.cpp:115-119 | the eight bits sent for a byte, read most significant first, spell the byte |
| `Waveform.FrameBitsDecode` | Radioshack_Strip.cpp:103-119 | grouping the frame's bits by eight gives back the buffer |
| `Waveform.FrameDecodes` | Radioshack_Strip.cpp:103-211 | round trip of the wire protocol: decoding the frame's writes by pulse width and grouping by eight recovers the whole buffer |
| `Waveform.OutputPort.Drive` | Radioshack_Strip.cpp:127-128 | a write sets the register to the value and adds that value and its hold to the trace |
| `Latch.Elapsed` | Radioshack_Strip.cpp:33 | the elapsed time is the d that, added to `endTime` modulo 2^32, gives the reading |
| `Latch.ElapsedAcrossWrap` | Radioshack_Strip.h:36-37 | a reading t ticks after `endTime` measures exactly t, even when the 32-bit clock wraps in between |
| `Latch.WaitFrom` | Radioshack_Strip.cpp:33 | the wait ends at the first reading that fails its test: a first reading showing 20 or more, or a second reading showing 0; every earlier reading kept the loop waiting; no result means every reading kept it waiting |
| `Latch.ReleaseCondition` | Radioshack_Strip.cpp:33 | transmission starts only at a reading showing 0 or at least 20 microseconds since the last frame |
| `Latch.AdvancedClockWaitsFullLatch` | Radioshack_Strip.cpp:32-33 | if no reading equals `endTime` and some first test sees 20 or more, the wait ends no later than that test, with at least 20 microseconds elapsed |
| `Latch.NoWaitAfterLatch` | Radioshack_Strip.cpp:33 | when the latch time has already passed, the loop ends at its first reading |
| `LedStrip.ByteCountAsWritten` | Radioshack_Strip.cpp:9 | the 16-bit buffer size equals three bytes per LED for up to 21845 LEDs |
| `LedStrip.ByteCountAsWrittenOverflows` | Radioshack_Strip.cpp:9-14 | above 21845 LEDs, the truncated size is smaller than three bytes per LED, and LED 21845, which is in range, starts at index 65535, at or past the end of the buffer |
| `LedStrip.ByteCount` | Radioshack_Strip.cpp:9 | with at most 21845 LEDs, the size is three bytes per LED and every LED's three bytes lie inside the buffer |
| `LedStrip.RadioshackStrip.constructor` | Radioshack_Strip.cpp:7-17 | the LED count, port and pin mask are as given; the buffer exists exactly when allocation succeeded, and then it is fresh and all zeros |
| `LedStrip.RadioshackStrip.NumPixels` | Radioshack_Strip.cpp:79-81 | always the constructor's LED count, a constant; the buffer holds three bytes for each LED |
| `LedStrip.RadioshackStrip.GetPixelColor` | Radioshack_Strip.cpp:89-100 | reads nothing but the buffer (computed by `PixelBuffer.Get`); the result is below 2^24, is 0 out of range, and in range unpacks to the red, green and blue bytes stored at offsets 0, 2 and 1 of LED n's triplet |
| `LedStrip.RadioshackStrip.SetPixelColor` | Radioshack_Strip.cpp:43-57 | the buffer becomes `PixelBuffer.Put` of its old contents under the current factor; in range, `GetPixelColor(n)` then returns the scaled colour; every other LED reads as before |
| `LedStrip.RadioshackStrip.SetPixelColorPacked` | Radioshack_Strip.cpp:59-62 | writes the three channel bytes of `c`; with factor 0, `GetPixelColor(n)` then returns `c mod 2^24`; every other LED reads as before |
| `LedStrip.RadioshackStrip.SetBrightness` | Radioshack_Strip.cpp:69-77 | only the factor changes, to `Brightness.Stored(level)`; no buffer byte changes |
| `LedStrip.RadioshackStrip.SendBit` | Radioshack_Strip.cpp:121-211 | appends exactly the bit's two writes to the port trace and leaves the line low |
| `LedStrip.RadioshackStrip.SendByte` | Radioshack_Strip.cpp:115-119 | the halving mask sends the byte's eight bits most significant first, appending their 16 writes, and leaves the line low |
| `LedStrip.RadioshackStrip.SendPixels` | Radioshack_Strip.cpp:103-113 | both register values come from one snapshot of the port; the writes appended are exactly the frame of the whole buffer; after a non-empty frame the port is left at the "line low" value of the snapshot |
| `LedStrip.RadioshackStrip.AwaitLatch` | Radioshack_Strip.cpp:32-33 | the loop consumes exactly the readings `Latch.WaitPolls` predicts |
| `LedStrip.RadioshackStrip.Show` | Radioshack_Strip.cpp:29-41 | without a buffer: no reading, no write, `endTime` unchanged; otherwise the writes are the buffer's frame, sent after the wait, the port is left at the "line low" value after a non-empty frame, and `endTime` is the next reading |

## Left out

- `begin()` and the destructor: they only configure the pin (`pinMode`,
  `digitalWrite`) and free the buffer. There is no logic in them to model.
- Pin plumbing (`portOutputRegister`, `digitalPinToPort`,
  `digitalPinToBitMask`): these are platform calls. The port object and the pin
  mask are given to the constructor instead, and the `pin` field is not kept.
- `malloc`, `memset` and `free`: allocation is a constructor flag. A buffer that
  exists starts at zero.
- `noInterrupts()` and `interrupts()`: the frame is treated as one atomic step.
  Interrupts, and the timing damage they would cause, are not modelled.
- Cycle timing of the `nop` runs: each hold is a count of no-ops (22 or 9), not
  a duration. The cycles spent on the writes and the loop are not counted.
- `micros()`: it is a sequence of readings, consumed one per call.
- LedStrip.RadioshackStrip.Show: requires readings that end the wait and leave
  one more reading for `endTime`. A clock that never lets the wait end cannot be
  stated with finitely many readings.
- LedStrip.RadioshackStrip.SetPixelColor: requires a buffer only for an
  in-range index. In the source, an in-range write without a buffer
  dereferences null, which is undefined behaviour and is not modelled.
- LedStrip.RadioshackStrip.SetPixelColorPacked: the same requirement as
  `SetPixelColor`, for the same reason.
- LedStrip.RadioshackStrip.GetPixelColor: the same requirement, for an
  in-range read without a buffer.
- LedStrip.RadioshackStrip.constructor: requires at most 21845 LEDs (see
  Findings).

## Findings

| source | as written | input that shows it | evidently intended | confidence | as-written member | corrected member |
|---|---|---|---|---|---|---|
| Radioshack_Strip.cpp:9 | `numBytes(numberOfLeds * 3)` keeps only 16 bits of the product, while `setPixelColor` writes at `n * 3` for every `n < numLeds` | `numberOfLeds = 21846`: `numBytes` is 2, and `setPixelColor(21845, ...)` writes bytes 65535 to 65537 of a 2-byte buffer | a buffer of three bytes per LED, so an LED count above 21845 cannot be represented | not executed; medium | `LedStrip.ByteCountAsWrittenOverflows` | `LedStrip.ByteCount` |
